/**
 * The dungeon minimap grid of SynergyQuest (Dungeon/Map.cs). RoomMap is a list of rows of
 * optional DungeonRoomViewData cells. The view-data objects are mutable and shared (the map
 * and the connection lists refer to the same objects), so the model keeps them in the
 * sequence `rooms`, indexed by object identity; a cell holds the index of the object it
 * refers to, and a connection list holds indices too.
 */
module DungeonMaps {
  import CollectionsExtensions

  datatype Option<T> = None | Some(value: T)

  datatype Vec2 = Vec2(x: int, y: int)

  /**
   * How an operation ended: normally, or with the exception it throws (ArgumentException,
   * ArgumentOutOfRangeException, KeyNotFoundException), or having used up its fuel.
   */
  datatype Outcome = Done | ArgumentError | ArgumentOutOfRange | KeyNotFound | OutOfFuel

  /** The room-connection graph of the dungeon layout: room name, then direction, then target room. */
  type Layout = map<string, map<string, string>>

  /** The directions ParseDungeonRec looks at, in its order. */
  const Directions: seq<string> := ["up", "down", "left", "right"]

  /**
   * DungeonRoomViewData: either a room (a name, `hasRoom`) or a passage cell drawn between
   * connected rooms, passed horizontally or vertically. A passage has no name (null) and
   * the default coordinates (0, 0).
   */
  datatype RoomView = RoomView(
    name: Option<string>,
    coordinates: Vec2,
    connections: seq<nat>,
    passedHorizontally: bool,
    passedVertically: bool,
    hasRoom: bool)

  function NewRoom(name: string, coordinates: Vec2): RoomView
  {
    RoomView(Some(name), coordinates, [], false, false, true)
  }

  function NewPassage(passedHorizontally: bool, passedVertically: bool): RoomView
  {
    RoomView(None, Vec2(0, 0), [], passedHorizontally, passedVertically, false)
  }

  type Grid = seq<seq<Option<nat>>>

  ghost predicate Rectangular(m: Grid)
  {
    forall i :: 0 <= i < |m| ==> |m[i]| == |m[0]|
  }

  predicate InBounds(c: Vec2, m: Grid)
  {
    0 <= c.y < |m| && 0 <= c.x < |m[c.y]|
  }

  /** The cell one step from `c` in direction `d` (0 up, 1 down, 2 left, 3 right); up is y + 1. */
  function Neighbour(c: Vec2, d: nat): Vec2
  {
    if d == 0 then Vec2(c.x, c.y + 1)
    else if d == 1 then Vec2(c.x, c.y - 1)
    else if d == 2 then Vec2(c.x - 1, c.y)
    else Vec2(c.x + 1, c.y)
  }

  /**
   * The cell a room inserted from `c` in direction `d` takes: the neighbour, except that
   * down and left reuse `c` when the neighbour is off the map or taken (the grid then grows
   * at `c` and the room there moves on by one).
   */
  ghost function Toward(d: nat, c: Vec2, m: Grid): Vec2
    requires InBounds(c, m) && Rectangular(m)
  {
    if d == 1 && (c.y == 0 || m[c.y - 1][c.x].Some?) then c
    else if d == 2 && (c.x == 0 || m[c.y][c.x - 1].Some?) then c
    else Neighbour(c, d)
  }

  /**
   * Object `id` of `rs` is a new room named `room`, stored in the cell Toward(d, c) of the grid
   * before the insertion, and now on the map at its coordinates; a room that stood at `c`
   * before has it as its neighbour in direction `d`.
   */
  ghost predicate Landed(m0: Grid, rs0: seq<RoomView>, m: Grid, rs: seq<RoomView>, id: nat, room: string, c: Vec2, d: nat)
    requires InBounds(c, m0) && Rectangular(m0)
  {
    |rs0| <= id < |rs| && rs[id] == NewRoom(room, Toward(d, c, m0)) &&
    InBounds(rs[id].coordinates, m) && m[rs[id].coordinates.y][rs[id].coordinates.x] == Some(id) &&
    (m0[c.y][c.x].Some? && m0[c.y][c.x].value < |rs0| && rs0[m0[c.y][c.x].value].hasRoom && m0[c.y][c.x].value < |rs| ==>
      rs[id].coordinates == Neighbour(rs[m0[c.y][c.x].value].coordinates, d))
  }

  /** Every cell refers to an existing view-data object. */
  ghost predicate CellsBelow(m: Grid, n: nat)
  {
    forall i, j :: 0 <= i < |m| && 0 <= j < |m[i]| && m[i][j].Some? ==> m[i][j].value < n
  }

  /** No object is stored in two cells. */
  ghost predicate UniqueCells(m: Grid)
  {
    forall i1, j1, i2, j2 ::
      0 <= i1 < |m| && 0 <= j1 < |m[i1]| && 0 <= i2 < |m| && 0 <= j2 < |m[i2]| &&
      m[i1][j1].Some? && m[i2][j2].Some? && (i1 != i2 || j1 != j2)
      ==> m[i1][j1].value != m[i2][j2].value
  }

  /** Coordinates stay on the map, and connections refer to existing objects. */
  ghost predicate RoomsInBounds(rooms: seq<RoomView>, m: Grid)
  {
    forall id :: 0 <= id < |rooms| ==>
      InBounds(rooms[id].coordinates, m) &&
      forall k :: 0 <= k < |rooms[id].connections| ==> rooms[id].connections[k] < |rooms|
  }

  /** A room stored at RoomMap[i][j] knows its coordinates (j, i). */
  ghost predicate Placed(m: Grid, rooms: seq<RoomView>)
    requires CellsBelow(m, |rooms|)
  {
    forall i, j :: 0 <= i < |m| && 0 <= j < |m[i]| && m[i][j].Some? && rooms[m[i][j].value].hasRoom
      ==> rooms[m[i][j].value].coordinates == Vec2(j, i)
  }

  /** Every object stored at m[i][j] has the coordinates (j, i). */
  ghost predicate Located(m: Grid, rooms: seq<RoomView>)
  {
    forall i, j :: 0 <= i < |m| && 0 <= j < |m[i]| && m[i][j].Some? && m[i][j].value < |rooms| ==>
      rooms[m[i][j].value].coordinates == Vec2(j, i)
  }

  /**
   * `after` has the shape of `before`, and each of its cells is the same as in `before` or
   * holds a passage created after the first `n` objects.
   */
  ghost predicate OverlaidWithPassages(before: Grid, after: Grid, rooms: seq<RoomView>, n: nat)
  {
    |after| == |before| &&
    (forall i :: 0 <= i < |after| ==> |after[i]| == |before[i]|) &&
    forall i, j :: 0 <= i < |after| && 0 <= j < |after[i]| ==>
      after[i][j] == before[i][j] ||
      (after[i][j].Some? && n <= after[i][j].value < |rooms| && !rooms[after[i][j].value].hasRoom)
  }

  /** The grid with an empty row of width `width` inserted at index `y`. */
  function InsertedRow(m: Grid, y: nat, width: nat): (r: Grid)
    requires y <= |m|
    ensures |r| == |m| + 1 && r[y] == seq(width, _ => None)
    ensures forall i :: 0 <= i < y ==> r[i] == m[i]
    ensures forall i :: y < i < |r| ==> r[i] == m[i - 1]
  {
    m[..y] + [seq(width, _ => None)] + m[y..]
  }

  /** The grid with an empty cell inserted at index `x` of every row. */
  function InsertedColumn(m: Grid, x: nat): (r: Grid)
    requires forall i :: 0 <= i < |m| ==> x <= |m[i]|
    ensures |r| == |m|
    ensures forall i :: 0 <= i < |m| ==> r[i] == m[i][..x] + [None] + m[i][x..]
  {
    seq(|m|, i requires 0 <= i < |m| => m[i][..x] + [None] + m[i][x..])
  }

  /** HasLeftConnection: passed horizontally, or connected to a room further left in the same row. */
  predicate HasLeftConnection(rooms: seq<RoomView>, r: RoomView)
    requires forall k :: 0 <= k < |r.connections| ==> r.connections[k] < |rooms|
  {
    r.passedHorizontally ||
    exists k :: 0 <= k < |r.connections| &&
      rooms[r.connections[k]].coordinates.y == r.coordinates.y &&
      rooms[r.connections[k]].coordinates.x < r.coordinates.x
  }

  predicate HasRightConnection(rooms: seq<RoomView>, r: RoomView)
    requires forall k :: 0 <= k < |r.connections| ==> r.connections[k] < |rooms|
  {
    r.passedHorizontally ||
    exists k :: 0 <= k < |r.connections| &&
      rooms[r.connections[k]].coordinates.y == r.coordinates.y &&
      rooms[r.connections[k]].coordinates.x > r.coordinates.x
  }

  predicate HasTopConnection(rooms: seq<RoomView>, r: RoomView)
    requires forall k :: 0 <= k < |r.connections| ==> r.connections[k] < |rooms|
  {
    r.passedVertically ||
    exists k :: 0 <= k < |r.connections| &&
      rooms[r.connections[k]].coordinates.x == r.coordinates.x &&
      rooms[r.connections[k]].coordinates.y < r.coordinates.y
  }

  predicate HasBottomConnection(rooms: seq<RoomView>, r: RoomView)
    requires forall k :: 0 <= k < |r.connections| ==> r.connections[k] < |rooms|
  {
    r.passedVertically ||
    exists k :: 0 <= k < |r.connections| &&
      rooms[r.connections[k]].coordinates.x == r.coordinates.x &&
      rooms[r.connections[k]].coordinates.y > r.coordinates.y
  }

  /**
   * Passages are drawn open on both sides of their axis; two rooms connected to each other
   * in one row have facing connections (left on the right one, right on the left one).
   */
  lemma ConnectionsFaceEachOther(rooms: seq<RoomView>, a: nat, b: nat, ka: nat, kb: nat)
    requires a < |rooms| && b < |rooms|
    requires forall k :: 0 <= k < |rooms[a].connections| ==> rooms[a].connections[k] < |rooms|
    requires forall k :: 0 <= k < |rooms[b].connections| ==> rooms[b].connections[k] < |rooms|
    requires ka < |rooms[a].connections| && rooms[a].connections[ka] == b
    requires kb < |rooms[b].connections| && rooms[b].connections[kb] == a
    requires rooms[a].coordinates.y == rooms[b].coordinates.y
    requires rooms[a].coordinates.x < rooms[b].coordinates.x
    ensures HasRightConnection(rooms, rooms[a]) && HasLeftConnection(rooms, rooms[b])
    ensures !rooms[a].passedHorizontally && rooms[a].connections == [b] ==> !HasLeftConnection(rooms, rooms[a])
  {
    assert rooms[rooms[a].connections[ka]] == rooms[b];
    assert rooms[rooms[b].connections[kb]] == rooms[a];
  }

  lemma PassagesAreOpenAlongTheirAxis(rooms: seq<RoomView>, h: bool, v: bool)
    ensures HasLeftConnection(rooms, NewPassage(h, v)) == h == HasRightConnection(rooms, NewPassage(h, v))
    ensures HasTopConnection(rooms, NewPassage(h, v)) == v == HasBottomConnection(rooms, NewPassage(h, v))
  {
  }

  function Width(m: Grid): nat
  {
    if |m| == 0 then 0 else |m[0]|
  }

  /** Cell (x, y) holds a passage object drawn with the given flags. */
  ghost predicate HoldsPassage(m: Grid, rooms: seq<RoomView>, y: int, x: int, passedHorizontally: bool, passedVertically: bool)
  {
    0 <= y < |m| && 0 <= x < |m[y]| && m[y][x].Some? && m[y][x].value < |rooms| &&
    rooms[m[y][x].value] == NewPassage(passedHorizontally, passedVertically)
  }

  /** A passage stays where it is when its cell is not rewritten and earlier objects are kept. */
  lemma PassageKept(m: Grid, m': Grid, rs: seq<RoomView>, rs': seq<RoomView>, y: int, x: int, h: bool, v: bool)
    requires HoldsPassage(m, rs, y, x, h, v)
    requires 0 <= y < |m'| && 0 <= x < |m'[y]| && m'[y][x] == m[y][x]
    requires |rs| <= |rs'| && rs'[..|rs|] == rs
    ensures HoldsPassage(m', rs', y, x, h, v)
  {
    assert rs'[m[y][x].value] == rs'[..|rs|][m[y][x].value];
  }

  /**
   * From `before` to `after`, the cells strictly between `c` and `c2` in `c`'s row (when `c2`
   * lies to the right) hold horizontal passages, those strictly between them in `c`'s column
   * (when `c2` lies above) vertical passages, and every other cell is unchanged.
   */
  ghost predicate FilledBetween(before: Grid, after: Grid, rooms: seq<RoomView>, c: Vec2, c2: Vec2)
  {
    (forall x :: c.x < x < c2.x ==> HoldsPassage(after, rooms, c.y, x, true, false)) &&
    (forall y :: c.y < y < c2.y ==> HoldsPassage(after, rooms, y, c.x, false, true)) &&
    |after| == |before| &&
    forall i, j ::
      (0 <= i < |after| && 0 <= j < |after[i]| && 0 <= j < |before[i]| &&
       !(i == c.y && c.x < j < c2.x) && !(j == c.x && c.y < i < c2.y)) ==>
      after[i][j] == before[i][j]
  }

  /** The row half of FilledBetween: only the cells right of `c` and left of `c2` changed. */
  ghost predicate RowFilled(before: Grid, after: Grid, rooms: seq<RoomView>, c: Vec2, c2: Vec2)
  {
    (forall x :: c.x < x < c2.x ==> HoldsPassage(after, rooms, c.y, x, true, false)) &&
    |after| == |before| &&
    forall i, j ::
      (0 <= i < |after| && 0 <= j < |after[i]| && 0 <= j < |before[i]| && !(i == c.y && c.x < j < c2.x)) ==>
      after[i][j] == before[i][j]
  }

  /** The column half of FilledBetween: only the cells above `c` and below `c2` changed. */
  ghost predicate ColumnFilled(before: Grid, after: Grid, rooms: seq<RoomView>, c: Vec2, c2: Vec2)
  {
    (forall y :: c.y < y < c2.y ==> HoldsPassage(after, rooms, y, c.x, false, true)) &&
    |after| == |before| &&
    forall i, j ::
      (0 <= i < |after| && 0 <= j < |after[i]| && 0 <= j < |before[i]| && !(j == c.x && c.y < i < c2.y)) ==>
      after[i][j] == before[i][j]
  }

  /** Filling the row and then the column between `c` and `c2` fills both spans. */
  lemma {:induction false} FillsCombine(m0: Grid, m1: Grid, m2: Grid, rs1: seq<RoomView>, rs2: seq<RoomView>, c: Vec2, c2: Vec2)
    requires RowFilled(m0, m1, rs1, c, c2) && ColumnFilled(m1, m2, rs2, c, c2)
    requires forall i :: 0 <= i < |m1| ==> |m2[i]| == |m1[i]|
    requires |rs1| <= |rs2| && rs2[..|rs1|] == rs1
    ensures FilledBetween(m0, m2, rs2, c, c2)
  {
    forall x | c.x < x < c2.x
      ensures HoldsPassage(m2, rs2, c.y, x, true, false)
    {
      PassageKept(m1, m2, rs1, rs2, c.y, x, true, false);
    }
  }

  /**
   * Stretching a connection overwrites a room lying between its two ends: in the row
   * [A, B, C] with A connected to C, no cell holds B afterwards, so `Contains` no longer
   * finds it.
   */
  lemma {:induction false} StretchOverwritesRoomBetween(after: Grid, rooms: seq<RoomView>, name: string)
    requires |rooms| >= 3 && rooms[1].name == Some(name)
    requires rooms[0].name != Some(name) && rooms[2].name != Some(name)
    requires FilledBetween([[Some(0), Some(1), Some(2)]], after, rooms, Vec2(0, 0), Vec2(2, 0))
    requires |after[0]| == 3
    ensures forall j :: 0 <= j < |after[0]| ==>
      !(after[0][j].Some? && after[0][j].value < |rooms| && rooms[after[0][j].value].name == Some(name))
  {
    assert HoldsPassage(after, rooms, 0, 1, true, false);
  }

  /**
   * The effect of stretching the first `n` connections of `r` (their coordinates read in
   * `rooms0`) on the grid `before`: the cells between `r` and each of them hold passages of
   * the matching direction and every other cell is unchanged.
   */
  ghost predicate Stretched(before: Grid, after: Grid, rooms: seq<RoomView>, r: RoomView, rooms0: seq<RoomView>, n: nat)
  {
    (forall x :: InRowSpan(r, rooms0, n, x) ==> HoldsPassage(after, rooms, r.coordinates.y, x, true, false)) &&
    (forall y :: InColumnSpan(r, rooms0, n, y) ==> HoldsPassage(after, rooms, y, r.coordinates.x, false, true)) &&
    forall i, j ::
      0 <= i < |after| && 0 <= j < |after[i]| && i < |before| && j < |before[i]| && OffSpans(r, rooms0, n, i, j) ==>
      after[i][j] == before[i][j]
  }

  /** Cell (j, i) lies on none of the spans between `r` and its first `n` connections. */
  ghost predicate OffSpans(r: RoomView, rooms0: seq<RoomView>, n: nat, i: int, j: int)
  {
    !(i == r.coordinates.y && InRowSpan(r, rooms0, n, j)) && !(j == r.coordinates.x && InColumnSpan(r, rooms0, n, i))
  }

  /** Stretching one more connection extends the stretched spans by that connection's. */
  lemma StretchedStep(m0: Grid, m: Grid, m': Grid, rs: seq<RoomView>, rs': seq<RoomView>,
                      r: RoomView, rooms0: seq<RoomView>, k: nat)
    requires k < |r.connections| && r.connections[k] < |rooms0|
    requires Stretched(m0, m, rs, r, rooms0, k)
    requires FilledBetween(m, m', rs', r.coordinates, rooms0[r.connections[k]].coordinates)
    requires OverlaidWithPassages(m, m', rs', |rs|) && |rs| <= |rs'| && rs'[..|rs|] == rs
    ensures Stretched(m0, m', rs', r, rooms0, k + 1)
  {
    var c, c2 := r.coordinates, rooms0[r.connections[k]].coordinates;
    forall x | InRowSpan(r, rooms0, k + 1, x)
      ensures HoldsPassage(m', rs', c.y, x, true, false)
    {
      if !(c.x < x < c2.x) {
        var kk :| 0 <= kk < k + 1 && kk < |r.connections| && r.connections[kk] < |rooms0| &&
          c.x < x < rooms0[r.connections[kk]].coordinates.x;
        assert InRowSpan(r, rooms0, k, x);
        PassageKept(m, m', rs, rs', c.y, x, true, false);
      }
    }
    forall y | InColumnSpan(r, rooms0, k + 1, y)
      ensures HoldsPassage(m', rs', y, c.x, false, true)
    {
      if !(c.y < y < c2.y) {
        var kk :| 0 <= kk < k + 1 && kk < |r.connections| && r.connections[kk] < |rooms0| &&
          c.y < y < rooms0[r.connections[kk]].coordinates.y;
        assert InColumnSpan(r, rooms0, k, y);
        PassageKept(m, m', rs, rs', y, c.x, false, true);
      }
    }
    forall i, j | 0 <= i < |m'| && 0 <= j < |m'[i]| && i < |m0| && j < |m0[i]| && OffSpans(r, rooms0, k + 1, i, j)
      ensures m'[i][j] == m0[i][j]
    {
      assert !(i == c.y && c.x < j < c2.x);
      assert !(j == c.x && c.y < i < c2.y);
      assert i < |m| && j < |m[i]|;
      assert m'[i][j] == m[i][j];
      assert OffSpans(r, rooms0, k, i, j);
    }
  }

  /** Column `x` lies strictly between `r` and one of its first `n` connections that is to its right. */
  ghost predicate InRowSpan(r: RoomView, rooms: seq<RoomView>, n: nat, x: int)
  {
    exists k :: 0 <= k < n && k < |r.connections| && r.connections[k] < |rooms| &&
      r.coordinates.x < x < rooms[r.connections[k]].coordinates.x
  }

  /** Row `y` lies strictly between `r` and one of its first `n` connections that is above it. */
  ghost predicate InColumnSpan(r: RoomView, rooms: seq<RoomView>, n: nat, y: int)
  {
    exists k :: 0 <= k < n && k < |r.connections| && r.connections[k] < |rooms| &&
      r.coordinates.y < y < rooms[r.connections[k]].coordinates.y
  }

  /** Two rounds of drawing passages are one round. */
  lemma OverlayTrans(a: Grid, b: Grid, c: Grid, r1: seq<RoomView>, r2: seq<RoomView>, n1: nat, n2: nat)
    requires OverlaidWithPassages(a, b, r1, n1) && OverlaidWithPassages(b, c, r2, n2)
    requires n1 <= n2 == |r1| <= |r2| && r2[..|r1|] == r1
    ensures OverlaidWithPassages(a, c, r2, n1)
  {
    forall i, j | 0 <= i < |c| && 0 <= j < |c[i]|
      ensures c[i][j] == a[i][j] ||
        (c[i][j].Some? && n1 <= c[i][j].value < |r2| && !r2[c[i][j].value].hasRoom)
    {
      if c[i][j] == b[i][j] && b[i][j] != a[i][j] {
        assert r2[b[i][j].value] == r1[b[i][j].value];
      }
    }
  }

  /** The grid with cell `c` set to the object `id`. */
  function Put(m: Grid, c: Vec2, id: nat): (r: Grid)
    requires InBounds(c, m)
    ensures |r| == |m| && forall i :: 0 <= i < |m| ==> |r[i]| == |m[i]|
    ensures r[c.y][c.x] == Some(id)
    ensures forall i, j :: 0 <= i < |m| && 0 <= j < |m[i]| && (i != c.y || j != c.x) ==> r[i][j] == m[i][j]
  {
    m[c.y := m[c.y][c.x := Some(id)]]
  }

  /** Writing the same cell on both sides of an overlay keeps the overlay. */
  lemma OverlayPut(a: Grid, b: Grid, r1: seq<RoomView>, r2: seq<RoomView>, n: nat, c: Vec2, id: nat)
    requires OverlaidWithPassages(a, b, r1, n) && InBounds(c, a)
    requires |r1| <= |r2| && r2[..|r1|] == r1
    ensures OverlaidWithPassages(Put(a, c, id), Put(b, c, id), r2, n)
  {
    var a': Grid, b': Grid := Put(a, c, id), Put(b, c, id);
    forall i, j | 0 <= i < |b'| && 0 <= j < |b'[i]|
      ensures b'[i][j] == a'[i][j] ||
        (b'[i][j].Some? && n <= b'[i][j].value < |r2| && !r2[b'[i][j].value].hasRoom)
    {
      if i != c.y || j != c.x {
        if b[i][j] != a[i][j] {
          assert r2[b[i][j].value] == r1[b[i][j].value];
        }
      }
    }
  }

  /**
   * The rooms of `before` are still there: same name, same kind, and their connection lists
   * have only grown at the end.
   */
  ghost predicate KeepsIdentity(before: seq<RoomView>, after: seq<RoomView>)
  {
    |before| <= |after| &&
    forall k :: 0 <= k < |before| ==>
      after[k].name == before[k].name && after[k].hasRoom == before[k].hasRoom &&
      before[k].connections <= after[k].connections
  }

  /** Object `id` has a connection to an object named `name`. */
  ghost predicate ConnectedTo(rooms: seq<RoomView>, id: nat, name: string)
    requires id < |rooms|
  {
    exists k :: 0 <= k < |rooms[id].connections| && rooms[id].connections[k] < |rooms| &&
      rooms[rooms[id].connections[k]].name == Some(name)
  }

  /** The doors of the first `d` directions stay connected across a step that keeps the rooms' identity. */
  lemma DoorsStayConnected(r1: seq<RoomView>, r2: seq<RoomView>, id: nat, doors: map<string, string>, d: nat)
    requires KeepsIdentity(r1, r2) && id < |r1| && d <= |Directions|
    requires forall k :: 0 <= k < |r1[id].connections| ==> r1[id].connections[k] < |r1|
    requires forall e :: 0 <= e < d && Directions[e] in doors ==> ConnectedTo(r1, id, doors[Directions[e]])
    ensures forall e :: 0 <= e < d && Directions[e] in doors ==> ConnectedTo(r2, id, doors[Directions[e]])
  {
    forall e | 0 <= e < d && Directions[e] in doors
      ensures ConnectedTo(r2, id, doors[Directions[e]])
    {
      ConnectedToPersists(r1, r2, id, doors[Directions[e]]);
    }
  }

  lemma KeepsIdentityTrans(a: seq<RoomView>, b: seq<RoomView>, c: seq<RoomView>)
    requires KeepsIdentity(a, b) && KeepsIdentity(b, c)
    ensures KeepsIdentity(a, c)
  {
  }

  /**
   * The placement InsertBelow (d == 1) and InsertLeft (d == 2) state, gathered into Landed:
   * against a free neighbour the room goes there, otherwise it takes `c` and the room at `c`
   * moves on by one step.
   */
  lemma LandedAt(m0: Grid, rs0: seq<RoomView>, m: Grid, rs: seq<RoomView>, id: nat, room: string, c: Vec2, d: nat)
    requires InBounds(c, m0) && Rectangular(m0) && CellsBelow(m0, |rs0|) && (d == 1 || d == 2) && |rs0| <= id < |rs|
    requires var expand := if d == 1 then c.y == 0 || m0[c.y - 1][c.x].Some? else c.x == 0 || m0[c.y][c.x - 1].Some?;
      var target := if expand then c else Neighbour(c, d);
      rs[id] == NewRoom(room, target) && InBounds(target, m) && m[target.y][target.x] == Some(id) &&
      (m0[c.y][c.x].Some? && rs0[m0[c.y][c.x].value].hasRoom ==>
        rs[m0[c.y][c.x].value].coordinates == (if expand then Neighbour(c, if d == 1 then 0 else 3) else c))
    ensures Landed(m0, rs0, m, rs, id, room, c, d)
  {
  }

  /** The k-th connection of an object stays in place across a step that keeps the rooms' identity. */
  lemma ConnectionKept(r1: seq<RoomView>, r2: seq<RoomView>, id: nat, k: nat)
    requires KeepsIdentity(r1, r2) && id < |r1| && k < |r1[id].connections|
    ensures k < |r2[id].connections| && r2[id].connections[k] == r1[id].connections[k]
  {
    assert r1[id].connections <= r2[id].connections;
  }

  /** A connection, once made, survives any later step that keeps the rooms' identity. */
  lemma {:induction false} ConnectedToPersists(r1: seq<RoomView>, r2: seq<RoomView>, id: nat, name: string)
    requires KeepsIdentity(r1, r2) && id < |r1|
    requires forall k :: 0 <= k < |r1[id].connections| ==> r1[id].connections[k] < |r1|
    requires ConnectedTo(r1, id, name)
    ensures ConnectedTo(r2, id, name)
  {
    var k :| 0 <= k < |r1[id].connections| && r1[id].connections[k] < |r1| &&
      r1[r1[id].connections[k]].name == Some(name);
    assert r2[id].connections[k] == r1[id].connections[k];
  }

  /** Reversing the row order keeps the grid rectangular and the object references intact. */
  lemma ReversedKeepsInvariants(m: Grid, rooms: seq<RoomView>)
    requires Rectangular(m) && (|m| > 0 ==> |m[0]| > 0)
    requires CellsBelow(m, |rooms|) && UniqueCells(m) && RoomsInBounds(rooms, m)
    ensures var m': Grid := CollectionsExtensions.Reverse(m);
      Rectangular(m') && (|m'| > 0 ==> |m'[0]| > 0) &&
      CellsBelow(m', |rooms|) && UniqueCells(m') && RoomsInBounds(rooms, m')
  {
    var m': Grid := CollectionsExtensions.Reverse(m);
    forall i1, j1, i2, j2 |
      0 <= i1 < |m'| && 0 <= j1 < |m'[i1]| && 0 <= i2 < |m'| && 0 <= j2 < |m'[i2]| &&
      m'[i1][j1].Some? && m'[i2][j2].Some? && (i1 != i2 || j1 != j2)
      ensures m'[i1][j1].value != m'[i2][j2].value
    {
      assert m'[i1] == m[|m| - 1 - i1] && m'[i2] == m[|m| - 1 - i2];
    }
    forall i, j | 0 <= i < |m'| && 0 <= j < |m'[i]| && m'[i][j].Some?
      ensures m'[i][j].value < |rooms|
    {
      assert m'[i] == m[|m| - 1 - i];
    }
  }

  /** Inserting an empty row keeps the grid rectangular and the object references intact. */
  lemma InsertedRowKeepsInvariants(m: Grid, y: nat, rooms: seq<RoomView>)
    requires Rectangular(m) && |m| > 0 && |m[0]| > 0 && y <= |m|
    requires CellsBelow(m, |rooms|) && UniqueCells(m) && RoomsInBounds(rooms, m)
    ensures var m': Grid := InsertedRow(m, y, |m[0]|);
      Rectangular(m') && |m'[0]| == |m[0]| &&
      CellsBelow(m', |rooms|) && UniqueCells(m') && RoomsInBounds(rooms, m')
  {
    var m': Grid := InsertedRow(m, y, |m[0]|);
    assert |m'[0]| == |m[0]| by {
      if y == 0 { assert m'[0] == seq(|m[0]|, _ => None); } else { assert m'[0] == m[0]; }
    }
    forall i1, j1, i2, j2 |
      0 <= i1 < |m'| && 0 <= j1 < |m'[i1]| && 0 <= i2 < |m'| && 0 <= j2 < |m'[i2]| &&
      m'[i1][j1].Some? && m'[i2][j2].Some? && (i1 != i2 || j1 != j2)
      ensures m'[i1][j1].value != m'[i2][j2].value
    {
      var o1 := if i1 < y then i1 else i1 - 1;
      var o2 := if i2 < y then i2 else i2 - 1;
      assert m'[i1][j1] == m[o1][j1] && m'[i2][j2] == m[o2][j2];
    }
    forall i, j | 0 <= i < |m'| && 0 <= j < |m'[i]| && m'[i][j].Some?
      ensures m'[i][j].value < |rooms|
    {
      var o := if i < y then i else i - 1;
      assert m'[i][j] == m[o][j];
    }
  }

  /** Inserting an empty column keeps the grid rectangular and the object references intact. */
  lemma InsertedColumnKeepsInvariants(m: Grid, x: nat, rooms: seq<RoomView>)
    requires Rectangular(m) && |m| > 0 && |m[0]| > 0 && x <= |m[0]|
    requires CellsBelow(m, |rooms|) && UniqueCells(m) && RoomsInBounds(rooms, m)
    ensures var m': Grid := InsertedColumn(m, x);
      Rectangular(m') && |m'| == |m| && |m'[0]| == |m[0]| + 1 &&
      CellsBelow(m', |rooms|) && UniqueCells(m') && RoomsInBounds(rooms, m')
  {
    var m': Grid := InsertedColumn(m, x);
    forall i1, j1, i2, j2 |
      0 <= i1 < |m'| && 0 <= j1 < |m'[i1]| && 0 <= i2 < |m'| && 0 <= j2 < |m'[i2]| &&
      m'[i1][j1].Some? && m'[i2][j2].Some? && (i1 != i2 || j1 != j2)
      ensures m'[i1][j1].value != m'[i2][j2].value
    {
      var o1 := if j1 < x then j1 else j1 - 1;
      var o2 := if j2 < x then j2 else j2 - 1;
      assert m'[i1][j1] == m[i1][o1] && m'[i2][j2] == m[i2][o2];
    }
    forall i, j | 0 <= i < |m'| && 0 <= j < |m'[i]| && m'[i][j].Some?
      ensures m'[i][j].value < |rooms|
    {
      var o := if j < x then j else j - 1;
      assert m'[i][j] == m[i][o];
    }
  }

  class DungeonMap {
    var roomMap: Grid
    var rooms: seq<RoomView>
    var rowCount: nat
    var columnCount: nat

    ghost predicate Valid()
      reads this`roomMap, this`rooms
    {
      Rectangular(roomMap) &&
      (|roomMap| == 0 ==> |rooms| == 0) &&
      (|roomMap| > 0 ==> |roomMap[0]| > 0) &&
      CellsBelow(roomMap, |rooms|) &&
      UniqueCells(roomMap) &&
      RoomsInBounds(rooms, roomMap) &&
      Placed(roomMap, rooms)
    }

    /** `new Map()`: an empty grid. */
    constructor ()
      ensures Valid() && roomMap == [] && rooms == []
      ensures rowCount == 0 && columnCount == 0
    {
      roomMap := [];
      rooms := [];
      rowCount, columnCount := 0, 0;
    }

    /** Stores a new room in the cell at `coordinates` and returns it. */
    method Insert(room: string, coordinates: Vec2) returns (id: nat)
      requires Valid() && InBounds(coordinates, roomMap)
      modifies this
      ensures Valid()
      ensures id == old(|rooms|) && rooms == old(rooms) + [NewRoom(room, coordinates)]
      ensures roomMap == old(roomMap)[coordinates.y := old(roomMap)[coordinates.y][coordinates.x := Some(id)]]
    {
      id := |rooms|;
      rooms := rooms + [NewRoom(room, coordinates)];
      roomMap := roomMap[coordinates.y := roomMap[coordinates.y][coordinates.x := Some(id)]];
    }

    /**
     * InsertAbove: the new room goes to (x, y + 1); a row is inserted there first when the
     * map ends at row y or that cell is taken.
     */
    method InsertAbove(room: string, c: Vec2) returns (id: nat)
      requires Valid() && InBounds(c, roomMap)
      modifies this
      ensures Landed(old(roomMap), old(rooms), roomMap, rooms, id, room, c, 0)
      ensures Valid()
      ensures old(|rooms|) < |rooms|
      ensures id == |rooms| - 1 && rooms[id] == NewRoom(room, Vec2(c.x, c.y + 1))
      ensures roomMap[c.y + 1][c.x] == Some(id)
      ensures forall k :: 0 <= k < old(|rooms|) ==> rooms[k] == old(rooms[k]).(coordinates := rooms[k].coordinates)
      ensures var expand := old(|roomMap|) <= c.y + 1 || old(roomMap)[c.y + 1][c.x].Some?;
        var grown := if expand then InsertedRow(old(roomMap), c.y + 1, |old(roomMap)[0]|) else old(roomMap);
        InBounds(Vec2(c.x, c.y + 1), grown) &&
        OverlaidWithPassages(Put(grown, Vec2(c.x, c.y + 1), id), roomMap, rooms, old(|rooms|))
      ensures old(roomMap)[c.y][c.x].Some? && old(rooms)[old(roomMap)[c.y][c.x].value].hasRoom ==>
        rooms[old(roomMap)[c.y][c.x].value].coordinates == c
    {
      ghost var grown := SlotAbove(c);
      ghost var (beforeInsert, n) := (roomMap, |rooms|);
      id := Insert(room, Vec2(c.x, c.y + 1));
      OverlayPut(grown, beforeInsert, rooms[..n], rooms, old(|rooms|), Vec2(c.x, c.y + 1), id);
    }

    /** The first half of InsertAbove: a row is inserted at y + 1 when the cell above is missing or taken. */
    method SlotAbove(c: Vec2) returns (ghost grown: Grid)
      requires Valid() && InBounds(c, roomMap)
      modifies this
      ensures Valid() && old(|rooms|) <= |rooms|
      ensures var expand := old(|roomMap|) <= c.y + 1 || old(roomMap)[c.y + 1][c.x].Some?;
        grown == (if expand then InsertedRow(old(roomMap), c.y + 1, |old(roomMap)[0]|) else old(roomMap)) &&
        InBounds(Vec2(c.x, c.y + 1), grown) && OverlaidWithPassages(grown, roomMap, rooms, old(|rooms|)) &&
        (old(roomMap)[c.y][c.x].Some? && old(rooms)[old(roomMap)[c.y][c.x].value].hasRoom ==>
          rooms[old(roomMap)[c.y][c.x].value].coordinates == c)
      ensures forall k :: 0 <= k < old(|rooms|) ==> rooms[k] == old(rooms[k]).(coordinates := rooms[k].coordinates)
    {
      grown := roomMap;
      if |roomMap| <= c.y + 1 || roomMap[c.y + 1][c.x].Some? {
        grown := InsertedRow(roomMap, c.y + 1, |roomMap[0]|);
        var _ := ExpandVertically(c.y + 1);
      }
    }

    /**
     * InsertBelow: the new room goes to (x, y - 1); at row 0 or against a taken cell a row is
     * inserted at y instead, which shifts the room at (x, y) up, and the new room takes its
     * old coordinates.
     */
    method InsertBelow(room: string, c: Vec2) returns (id: nat)
      requires Valid() && InBounds(c, roomMap)
      modifies this
      ensures Valid()
      ensures old(|rooms|) < |rooms|
      ensures var expand := c.y == 0 || old(roomMap)[c.y - 1][c.x].Some?;
        var target := if expand then c else Vec2(c.x, c.y - 1);
        var grown := if expand then InsertedRow(old(roomMap), c.y, |old(roomMap)[0]|) else old(roomMap);
        id == |rooms| - 1 && rooms[id] == NewRoom(room, target) &&
        InBounds(target, grown) && roomMap[target.y][target.x] == Some(id) &&
        OverlaidWithPassages(Put(grown, target, id), roomMap, rooms, old(|rooms|)) &&
        (old(roomMap)[c.y][c.x].Some? && old(rooms)[old(roomMap)[c.y][c.x].value].hasRoom ==>
          rooms[old(roomMap)[c.y][c.x].value].coordinates == (if expand then Vec2(c.x, c.y + 1) else c))
      ensures forall k :: 0 <= k < old(|rooms|) ==> rooms[k] == old(rooms[k]).(coordinates := rooms[k].coordinates)
    {
      var target, grown := SlotBelow(c);
      ghost var (beforeInsert, n) := (roomMap, |rooms|);
      id := Insert(room, target);
      OverlayPut(grown, beforeInsert, rooms[..n], rooms, old(|rooms|), target, id);
    }

    /**
     * The first half of InsertBelow: the cell the new room takes, with a row inserted at y
     * when the cell below is missing or taken.
     */
    method SlotBelow(c: Vec2) returns (target: Vec2, ghost grown: Grid)
      requires Valid() && InBounds(c, roomMap)
      modifies this
      ensures Valid() && old(|rooms|) <= |rooms|
      ensures var expand := c.y == 0 || old(roomMap)[c.y - 1][c.x].Some?;
        grown == (if expand then InsertedRow(old(roomMap), c.y, |old(roomMap)[0]|) else old(roomMap)) &&
        target == (if expand then c else Vec2(c.x, c.y - 1)) &&
        InBounds(target, grown) && OverlaidWithPassages(grown, roomMap, rooms, old(|rooms|)) &&
        (old(roomMap)[c.y][c.x].Some? && old(rooms)[old(roomMap)[c.y][c.x].value].hasRoom ==>
          rooms[old(roomMap)[c.y][c.x].value].coordinates == (if expand then Vec2(c.x, c.y + 1) else c))
      ensures forall k :: 0 <= k < old(|rooms|) ==> rooms[k] == old(rooms[k]).(coordinates := rooms[k].coordinates)
    {
      grown := roomMap;
      if c.y == 0 || roomMap[c.y - 1][c.x].Some? {
        grown := InsertedRow(roomMap, c.y, |roomMap[0]|);
        var _ := ExpandVertically(c.y);
        target := c;
      } else {
        target := Vec2(c.x, c.y - 1);
      }
    }

    /**
     * InsertLeft: the new room goes to (x - 1, y); at column 0 or against a taken cell a
     * column is inserted at x instead, which shifts the room at (x, y) right, and the new
     * room takes its old coordinates.
     */
    method InsertLeft(room: string, c: Vec2) returns (id: nat)
      requires Valid() && InBounds(c, roomMap)
      modifies this
      ensures Valid()
      ensures old(|rooms|) < |rooms|
      ensures var expand := c.x == 0 || old(roomMap)[c.y][c.x - 1].Some?;
        var target := if expand then c else Vec2(c.x - 1, c.y);
        var grown := if expand then InsertedColumn(old(roomMap), c.x) else old(roomMap);
        id == |rooms| - 1 && rooms[id] == NewRoom(room, target) &&
        InBounds(target, grown) && roomMap[target.y][target.x] == Some(id) &&
        OverlaidWithPassages(Put(grown, target, id), roomMap, rooms, old(|rooms|)) &&
        (old(roomMap)[c.y][c.x].Some? && old(rooms)[old(roomMap)[c.y][c.x].value].hasRoom ==>
          rooms[old(roomMap)[c.y][c.x].value].coordinates == (if expand then Vec2(c.x + 1, c.y) else c))
      ensures forall k :: 0 <= k < old(|rooms|) ==> rooms[k] == old(rooms[k]).(coordinates := rooms[k].coordinates)
    {
      var target, grown := SlotLeft(c);
      ghost var (beforeInsert, n) := (roomMap, |rooms|);
      id := Insert(room, target);
      OverlayPut(grown, beforeInsert, rooms[..n], rooms, old(|rooms|), target, id);
    }

    /**
     * The first half of InsertLeft: the cell the new room takes, with a column inserted at x
     * when the cell to the left is missing or taken.
     */
    method SlotLeft(c: Vec2) returns (target: Vec2, ghost grown: Grid)
      requires Valid() && InBounds(c, roomMap)
      modifies this
      ensures Valid() && old(|rooms|) <= |rooms|
      ensures var expand := c.x == 0 || old(roomMap)[c.y][c.x - 1].Some?;
        grown == (if expand then InsertedColumn(old(roomMap), c.x) else old(roomMap)) &&
        target == (if expand then c else Vec2(c.x - 1, c.y)) &&
        InBounds(target, grown) && OverlaidWithPassages(grown, roomMap, rooms, old(|rooms|)) &&
        (old(roomMap)[c.y][c.x].Some? && old(rooms)[old(roomMap)[c.y][c.x].value].hasRoom ==>
          rooms[old(roomMap)[c.y][c.x].value].coordinates == (if expand then Vec2(c.x + 1, c.y) else c))
      ensures forall k :: 0 <= k < old(|rooms|) ==> rooms[k] == old(rooms[k]).(coordinates := rooms[k].coordinates)
    {
      grown := roomMap;
      if c.x == 0 || roomMap[c.y][c.x - 1].Some? {
        grown := InsertedColumn(roomMap, c.x);
        assert grown[c.y][c.x + 1] == old(roomMap)[c.y][c.x] by {
          assert grown[c.y] == old(roomMap)[c.y][..c.x] + [None] + old(roomMap)[c.y][c.x..];
        }
        var _ := ExpandHorizontally(c.x);
        target := c;
      } else {
        target := Vec2(c.x - 1, c.y);
      }
    }

    /**
     * InsertRight: the new room goes to (x + 1, y); a column is inserted there first when
     * the row ends at x or that cell is taken.
     */
    method InsertRight(room: string, c: Vec2) returns (id: nat)
      requires Valid() && InBounds(c, roomMap)
      modifies this
      ensures Landed(old(roomMap), old(rooms), roomMap, rooms, id, room, c, 3)
      ensures Valid()
      ensures old(|rooms|) < |rooms|
      ensures id == |rooms| - 1 && rooms[id] == NewRoom(room, Vec2(c.x + 1, c.y))
      ensures roomMap[c.y][c.x + 1] == Some(id)
      ensures forall k :: 0 <= k < old(|rooms|) ==> rooms[k] == old(rooms[k]).(coordinates := rooms[k].coordinates)
      ensures var expand := old(|roomMap[c.y]|) <= c.x + 1 || old(roomMap)[c.y][c.x + 1].Some?;
        var grown := if expand then InsertedColumn(old(roomMap), c.x + 1) else old(roomMap);
        InBounds(Vec2(c.x + 1, c.y), grown) &&
        OverlaidWithPassages(Put(grown, Vec2(c.x + 1, c.y), id), roomMap, rooms, old(|rooms|))
      ensures old(roomMap)[c.y][c.x].Some? && old(rooms)[old(roomMap)[c.y][c.x].value].hasRoom ==>
        rooms[old(roomMap)[c.y][c.x].value].coordinates == c
    {
      ghost var grown := SlotRight(c);
      ghost var (beforeInsert, n) := (roomMap, |rooms|);
      id := Insert(room, Vec2(c.x + 1, c.y));
      OverlayPut(grown, beforeInsert, rooms[..n], rooms, old(|rooms|), Vec2(c.x + 1, c.y), id);
    }

    /** The first half of InsertRight: a column is inserted at x + 1 when the cell to the right is missing or taken. */
    method SlotRight(c: Vec2) returns (ghost grown: Grid)
      requires Valid() && InBounds(c, roomMap)
      modifies this
      ensures Valid() && old(|rooms|) <= |rooms|
      ensures var expand := old(|roomMap[c.y]|) <= c.x + 1 || old(roomMap)[c.y][c.x + 1].Some?;
        grown == (if expand then InsertedColumn(old(roomMap), c.x + 1) else old(roomMap)) &&
        InBounds(Vec2(c.x + 1, c.y), grown) && OverlaidWithPassages(grown, roomMap, rooms, old(|rooms|)) &&
        (old(roomMap)[c.y][c.x].Some? && old(rooms)[old(roomMap)[c.y][c.x].value].hasRoom ==>
          rooms[old(roomMap)[c.y][c.x].value].coordinates == c)
      ensures forall k :: 0 <= k < old(|rooms|) ==> rooms[k] == old(rooms[k]).(coordinates := rooms[k].coordinates)
    {
      grown := roomMap;
      if |roomMap[c.y]| <= c.x + 1 || roomMap[c.y][c.x + 1].Some? {
        grown := InsertedColumn(roomMap, c.x + 1);
        assert grown[c.y][c.x] == old(roomMap)[c.y][c.x] by {
          assert grown[c.y] == old(roomMap)[c.y][..c.x + 1] + [None] + old(roomMap)[c.y][c.x + 1..];
        }
        var _ := ExpandHorizontally(c.x + 1);
      }
    }

    /**
     * The lookup in ParseDungeonRec for a room already on the map: the first row holding a
     * room of that name, then the first such cell in it.
     */
    method FindRoomNamed(roomName: string) returns (r: Option<nat>)
      requires Valid()
      ensures r.None? <==> !exists i, j :: HoldsRoomNamed(i, j, roomName)
      ensures r.Some? ==> r.value < |rooms| && rooms[r.value].name == Some(roomName)
    {
      var i := 0;
      while i < |roomMap|
        invariant 0 <= i <= |roomMap|
        invariant forall i', j' :: 0 <= i' < i && 0 <= j' < |roomMap[i']| ==> !HoldsRoomNamed(i', j', roomName)
      {
        var j := 0;
        while j < |roomMap[i]|
          invariant 0 <= j <= |roomMap[i]|
          invariant forall j' :: 0 <= j' < j ==> !HoldsRoomNamed(i, j', roomName)
        {
          var cell := roomMap[i][j];
          if cell.Some? && rooms[cell.value].name == Some(roomName) {
            assert HoldsRoomNamed(i, j, roomName);
            return Some(cell.value);
          }
          j := j + 1;
        }
        i := i + 1;
      }
      return None;
    }

    /** `roomData.connections.Add(other)`. */
    method AddConnection(from: nat, to: nat)
      requires Valid() && from < |rooms| && to < |rooms|
      modifies this
      ensures Valid() && roomMap == old(roomMap)
      ensures rooms == old(rooms)[from := old(rooms)[from].(connections := old(rooms)[from].connections + [to])]
      ensures KeepsIdentity(old(rooms), rooms) && ConnectedTo(rooms, from, rooms[to].name.value) <== rooms[to].name.Some?
    {
      rooms := rooms[from := rooms[from].(connections := rooms[from].connections + [to])];
      assert rooms[from].connections[|rooms[from].connections| - 1] == to;
    }

    /**
     * The switch on the door's direction in ParseDungeonRec: 0 up, 1 down, 2 left, 3 right.
     * The new room lands next to the room at `c`, in direction `d`.
     */
    method InsertToward(d: nat, room: string, c: Vec2) returns (id: nat)
      requires Valid() && InBounds(c, roomMap) && d < |Directions|
      modifies this
      ensures Valid() && KeepsIdentity(old(rooms), rooms) && id == |rooms| - 1
      ensures Landed(old(roomMap), old(rooms), roomMap, rooms, id, room, c, d)
      ensures forall k :: 0 <= k < old(|rooms|) ==> rooms[k] == old(rooms[k]).(coordinates := rooms[k].coordinates)
    {
      if d < 2 {
        id := InsertVertically(d, room, c);
      } else {
        id := InsertHorizontally(d, room, c);
      }
    }

    /** The "up" and "down" cases of InsertToward. */
    method InsertVertically(d: nat, room: string, c: Vec2) returns (id: nat)
      requires Valid() && InBounds(c, roomMap) && d < 2
      modifies this
      ensures Valid() && KeepsIdentity(old(rooms), rooms) && id == |rooms| - 1
      ensures Landed(old(roomMap), old(rooms), roomMap, rooms, id, room, c, d)
      ensures forall k :: 0 <= k < old(|rooms|) ==> rooms[k] == old(rooms[k]).(coordinates := rooms[k].coordinates)
    {
      if d == 0 {
        id := InsertAbove(room, c);
      } else {
        id := InsertBelow(room, c);
        LandedAt(old(roomMap), old(rooms), roomMap, rooms, id, room, c, d);
      }
    }

    /** The "left" and "right" cases of InsertToward. */
    method InsertHorizontally(d: nat, room: string, c: Vec2) returns (id: nat)
      requires Valid() && InBounds(c, roomMap) && 2 <= d < |Directions|
      modifies this
      ensures Valid() && KeepsIdentity(old(rooms), rooms) && id == |rooms| - 1
      ensures Landed(old(roomMap), old(rooms), roomMap, rooms, id, room, c, d)
      ensures forall k :: 0 <= k < old(|rooms|) ==> rooms[k] == old(rooms[k]).(coordinates := rooms[k].coordinates)
    {
      if d == 2 {
        id := InsertLeft(room, c);
        LandedAt(old(roomMap), old(rooms), roomMap, rooms, id, room, c, d);
      } else {
        id := InsertRight(room, c);
      }
    }

    /**
     * One door of ParseDungeonRec: a target room not yet on the map is inserted next to the
     * room in the door's direction (0 up, 1 down, 2 left, 3 right), connected to it and
     * parsed in turn; a target already on the map is looked up and connected.
     */
    method ConnectDoor(layout: Layout, roomId: nat, d: nat, target: string, fuel: nat) returns (outcome: Outcome)
      requires Valid() && roomId < |rooms| && d < |Directions|
      modifies this
      decreases fuel, 1
      ensures Valid() && KeepsIdentity(old(rooms), rooms)
      ensures outcome == Done ==> ConnectedTo(rooms, roomId, target)
    {
      var found := Contains(target);
      if !found {
        var newId;
        ghost var placed, placedRooms;
        outcome, newId, placed, placedRooms := ConnectNew(layout, roomId, d, target, fuel);
      } else {
        ConnectExisting(roomId, target);
        outcome := Done;
      }
    }

    /**
     * A door to a room not yet on the map: the room is inserted next to the current one in
     * the door's direction, connected and parsed in turn. `newId` is the inserted room, which
     * is the room's first new connection, and `placed` and `placedRooms` are the map right
     * after the insertion.
     */
    method ConnectNew(layout: Layout, roomId: nat, d: nat, target: string, fuel: nat)
      returns (outcome: Outcome, newId: nat, ghost placed: Grid, ghost placedRooms: seq<RoomView>)
      requires Valid() && roomId < |rooms| && d < |Directions|
      modifies this
      decreases fuel, 0
      ensures Valid() && KeepsIdentity(old(rooms), rooms)
      ensures InBounds(old(rooms)[roomId].coordinates, old(roomMap)) && Rectangular(old(roomMap)) &&
        Landed(old(roomMap), old(rooms), placed, placedRooms, newId, target, old(rooms)[roomId].coordinates, d)
      ensures KeepsIdentity(placedRooms, rooms) && rooms[newId].name == Some(target) && rooms[newId].hasRoom
      ensures |old(rooms)[roomId].connections| < |rooms[roomId].connections| &&
        rooms[roomId].connections[|old(rooms)[roomId].connections|] == newId
      ensures outcome == Done ==> ConnectedTo(rooms, roomId, target)
    {
      newId, placed, placedRooms := PlaceAndConnect(roomId, d, target);
      if fuel == 0 {
        return OutOfFuel, newId, placed, placedRooms;
      }
      ghost var connected := rooms;
      outcome := ParseDungeonRec(layout, newId, fuel - 1);
      KeepsIdentityTrans(old(rooms), connected, rooms);
      KeepsIdentityTrans(placedRooms, connected, rooms);
      ConnectionKept(connected, rooms, roomId, |old(rooms)[roomId].connections|);
      if outcome == Done {
        ConnectedToPersists(connected, rooms, roomId, target);
      }
    }

    /** The first half of ConnectNew: the switch on the direction, then `connections.Add`. */
    method PlaceAndConnect(roomId: nat, d: nat, target: string)
      returns (newId: nat, ghost placed: Grid, ghost placedRooms: seq<RoomView>)
      requires Valid() && roomId < |rooms| && d < |Directions|
      modifies this
      ensures Valid() && KeepsIdentity(old(rooms), rooms)
      ensures InBounds(old(rooms)[roomId].coordinates, old(roomMap)) && Rectangular(old(roomMap)) &&
        Landed(old(roomMap), old(rooms), placed, placedRooms, newId, target, old(rooms)[roomId].coordinates, d)
      ensures KeepsIdentity(placedRooms, rooms) && rooms[newId].name == Some(target) && rooms[newId].hasRoom
      ensures rooms[roomId].connections == old(rooms)[roomId].connections + [newId]
      ensures ConnectedTo(rooms, roomId, target)
    {
      newId := InsertToward(d, target, rooms[roomId].coordinates);
      placed, placedRooms := roomMap, rooms;
      AddConnection(roomId, newId);
      KeepsIdentityTrans(old(rooms), placedRooms, rooms);
    }

    /** A door to a room already on the map: the room is looked up and connected. */
    method ConnectExisting(roomId: nat, target: string)
      requires Valid() && roomId < |rooms| && exists i, j :: HoldsRoomNamed(i, j, target)
      modifies this
      ensures Valid() && KeepsIdentity(old(rooms), rooms)
      ensures ConnectedTo(rooms, roomId, target)
    {
      ghost var i, j :| HoldsRoomNamed(i, j, target);
      var r := FindRoomNamed(target);
      assert HoldsRoomNamed(i, j, target);
      match r {
        case Some(other) => AddConnection(roomId, other);
        case None => assert false;
      }
    }

    /**
     * ParseDungeonRec: follows the doors of a room in the order up, down, left, right. A
     * room missing from the layout makes the dictionary lookup throw; an exception from a
     * nested call ends the walk.
     */
    method ParseDungeonRec(layout: Layout, roomId: nat, fuel: nat) returns (outcome: Outcome)
      requires Valid() && roomId < |rooms| && rooms[roomId].name.Some?
      modifies this
      decreases fuel, 3
      ensures Valid() && KeepsIdentity(old(rooms), rooms)
      ensures old(rooms)[roomId].name.value !in layout ==> outcome == KeyNotFound && rooms == old(rooms)
      ensures outcome == Done ==>
        var doors := layout[old(rooms)[roomId].name.value];
        forall d :: 0 <= d < |Directions| && Directions[d] in doors ==> ConnectedTo(rooms, roomId, doors[Directions[d]])
    {
      var name := rooms[roomId].name.value;
      if name !in layout {
        return KeyNotFound;
      }
      var doors := layout[name];
      var d := 0;
      while d < |Directions|
        invariant 0 <= d <= |Directions|
        invariant Valid() && KeepsIdentity(old(rooms), rooms)
        invariant forall e :: 0 <= e < d && Directions[e] in doors ==> ConnectedTo(rooms, roomId, doors[Directions[e]])
      {
        ghost var before := rooms;
        outcome := FollowDoor(layout, roomId, doors, d, fuel);
        KeepsIdentityTrans(old(rooms), before, rooms);
        if outcome != Done {
          return;
        }
        d := d + 1;
      }
      outcome := Done;
    }

    /**
     * One pass of the loop of ParseDungeonRec: the door in direction `d`, when the room has
     * one, is connected; the doors of the earlier directions stay connected.
     */
    method FollowDoor(layout: Layout, roomId: nat, doors: map<string, string>, d: nat, fuel: nat) returns (outcome: Outcome)
      requires Valid() && roomId < |rooms| && d < |Directions|
      requires forall e :: 0 <= e < d && Directions[e] in doors ==> ConnectedTo(rooms, roomId, doors[Directions[e]])
      modifies this
      decreases fuel, 2
      ensures Valid() && KeepsIdentity(old(rooms), rooms)
      ensures Directions[d] !in doors ==> outcome == Done
      ensures outcome == Done ==>
        forall e :: 0 <= e <= d && Directions[e] in doors ==> ConnectedTo(rooms, roomId, doors[Directions[e]])
    {
      outcome := Done;
      if Directions[d] in doors {
        outcome := ConnectDoor(layout, roomId, d, doors[Directions[d]], fuel);
        if outcome == Done {
          DoorsStayConnected(old(rooms), rooms, roomId, doors, d);
        }
      } else {
        assert KeepsIdentity(rooms, rooms);
      }
    }

    /**
     * ParseDungeon: a grid holding the initial room at (0, 0), grown by ParseDungeonRec; the
     * rows are then reversed (the grid was built bottom-up), coordinates are reassigned and
     * the row and column counts are recorded.
     */
    method ParseDungeon(layout: Layout, initialRoom: string, fuel: nat) returns (outcome: Outcome)
      modifies this
      ensures Valid() && |rooms| > 0 && rooms[0].name == Some(initialRoom)
      ensures initialRoom !in layout ==> outcome == KeyNotFound
      ensures outcome == Done ==>
        Located(roomMap, rooms) && rowCount == |roomMap| && columnCount == Width(roomMap) &&
        (forall i :: 0 <= i < |roomMap| ==> |roomMap[i]| <= columnCount) &&
        forall d :: 0 <= d < |Directions| && Directions[d] in layout[initialRoom] ==>
          ConnectedTo(rooms, 0, layout[initialRoom][Directions[d]])
    {
      StartWith(initialRoom);
      ghost var initial := rooms;
      outcome := ParseDungeonRec(layout, 0, fuel);
      assert rooms[0].name == initial[0].name && |rooms| > 0;
      if outcome != Done {
        return;
      }
      Arrange(layout[initialRoom]);
    }

    /**
     * The lines of ParseDungeon after the recursion: the rows are reversed, coordinates
     * reassigned and the dimensions recorded, keeping the first room's connections.
     */
    method Arrange(doors: map<string, string>)
      requires Valid() && |rooms| > 0
      requires forall d :: 0 <= d < |Directions| && Directions[d] in doors ==> ConnectedTo(rooms, 0, doors[Directions[d]])
      modifies this
      ensures Valid() && |rooms| > 0 && rooms[0].name == old(rooms[0].name)
      ensures Located(roomMap, rooms) && rowCount == |roomMap| && columnCount == Width(roomMap)
      ensures forall i :: 0 <= i < |roomMap| ==> |roomMap[i]| <= columnCount
      ensures forall d :: 0 <= d < |Directions| && Directions[d] in doors ==> ConnectedTo(rooms, 0, doors[Directions[d]])
    {
      ghost var parsed := rooms;
      assert forall k :: 0 <= k < |parsed[0].connections| ==> parsed[0].connections[k] < |parsed|;
      Relocate();
      DoorsStayConnected(parsed, rooms, 0, doors, |Directions|);
      RecordDimensions();
    }

    /** `RoomMap.Reverse()` then ReassignCoordinates: every stored object knows its new cell. */
    method Relocate()
      requires Valid()
      modifies this
      ensures Valid() && Located(roomMap, rooms) && KeepsIdentity(old(rooms), rooms)
      ensures |roomMap| == old(|roomMap|)
    {
      ReverseRows();
      ReassignCoordinates();
    }

    /** The last lines of ParseDungeon: RowCount and ColumnCount, the length of the longest row. */
    method RecordDimensions()
      requires Valid() && |roomMap| > 0
      modifies this`rowCount, this`columnCount
      ensures rowCount == |roomMap| && columnCount == Width(roomMap)
      ensures forall i :: 0 <= i < |roomMap| ==> |roomMap[i]| <= columnCount
    {
      rowCount := |roomMap|;
      columnCount := WidestRow();
    }

    /** The first lines of ParseDungeon: a new 1x1 grid holding the initial room at (0, 0). */
    method StartWith(initialRoom: string)
      modifies this`roomMap, this`rooms
      ensures Valid()
      ensures roomMap == [[Some(0)]] && rooms == [NewRoom(initialRoom, Vec2(0, 0))]
    {
      roomMap := [[Some(0)]];
      rooms := [NewRoom(initialRoom, Vec2(0, 0))];
    }

    /** `RoomMap.Reverse()`: the rows in the opposite order; the objects are not touched. */
    method ReverseRows()
      requires Valid()
      modifies this
      ensures roomMap == CollectionsExtensions.Reverse(old(roomMap)) && rooms == old(rooms)
      ensures Rectangular(roomMap) && (|roomMap| > 0 ==> |roomMap[0]| > 0) && (|roomMap| == 0 ==> |rooms| == 0)
      ensures CellsBelow(roomMap, |rooms|) && UniqueCells(roomMap) && RoomsInBounds(rooms, roomMap)
    {
      ReversedKeepsInvariants(roomMap, rooms);
      roomMap := CollectionsExtensions.Reverse(roomMap);
    }

    /** `RoomMap.Select(row => row.Count).Max()`: the length of the longest row. */
    method WidestRow() returns (widest: nat)
      requires |roomMap| > 0
      ensures forall i :: 0 <= i < |roomMap| ==> |roomMap[i]| <= widest
      ensures exists i :: 0 <= i < |roomMap| && |roomMap[i]| == widest
    {
      widest := |roomMap[0]|;
      var i := 1;
      while i < |roomMap|
        invariant 1 <= i <= |roomMap|
        invariant forall k :: 0 <= k < i ==> |roomMap[k]| <= widest
        invariant exists k :: 0 <= k < i && |roomMap[k]| == widest
      {
        if |roomMap[i]| > widest {
          widest := |roomMap[i]|;
        }
        i := i + 1;
      }
    }

    /** Some cell holds a room called `roomName`. */
    ghost predicate HoldsRoomNamed(i: int, j: int, roomName: string)
      reads this`roomMap, this`rooms
    {
      0 <= i < |roomMap| && 0 <= j < |roomMap[i]| && roomMap[i][j].Some? &&
      roomMap[i][j].value < |rooms| && rooms[roomMap[i][j].value].name == Some(roomName)
    }

    /** Contains: scans the rows in order and stops at the first room with that name. */
    method Contains(roomName: string) returns (found: bool)
      requires Valid()
      ensures found <==> exists i, j :: HoldsRoomNamed(i, j, roomName)
    {
      found := false;
      var i := 0;
      while i < |roomMap|
        invariant 0 <= i <= |roomMap| && !found
        invariant forall i', j' :: 0 <= i' < i && 0 <= j' < |roomMap[i']| ==> !HoldsRoomNamed(i', j', roomName)
      {
        var j := 0;
        while j < |roomMap[i]|
          invariant 0 <= j <= |roomMap[i]| && !found
          invariant forall i', j' :: 0 <= i' < i && 0 <= j' < |roomMap[i']| ==> !HoldsRoomNamed(i', j', roomName)
          invariant forall j' :: 0 <= j' < j ==> !HoldsRoomNamed(i, j', roomName)
        {
          var cell := roomMap[i][j];
          if cell.Some? {
            found := found || rooms[cell.value].name == Some(roomName);
          }
          if found {
            assert HoldsRoomNamed(i, j, roomName);
            return true;
          }
          j := j + 1;
        }
        i := i + 1;
      }
    }

    /** Object `id` is stored in no cell of the rows before row `i`. */
    ghost predicate AbsentAbove(id: nat, i: int)
      reads this`roomMap, this`rooms
    {
      forall i', j' :: 0 <= i' < i && i' < |roomMap| && 0 <= j' < |roomMap[i']| ==> roomMap[i'][j'] != Some(id)
    }

    /** Object `id` is stored in no cell of row `i` before column `j`. */
    ghost predicate AbsentFromRow(id: nat, i: int, j: int)
      requires 0 <= i < |roomMap|
      reads this`roomMap, this`rooms
    {
      forall j' :: 0 <= j' < j && j' < |roomMap[i]| ==> roomMap[i][j'] != Some(id)
    }

    /**
     * Gives every object stored at RoomMap[i][j] the coordinates (j, i); nothing else about
     * any object changes, and objects not on the map keep their coordinates.
     */
    method ReassignCoordinates()
      requires CellsBelow(roomMap, |rooms|) && UniqueCells(roomMap) && RoomsInBounds(rooms, roomMap)
      modifies this
      ensures roomMap == old(roomMap) && |rooms| == old(|rooms|)
      ensures RoomsInBounds(rooms, roomMap)
      ensures forall id :: 0 <= id < |rooms| ==> rooms[id] == old(rooms[id]).(coordinates := rooms[id].coordinates)
      ensures KeepsIdentity(old(rooms), rooms)
      ensures Located(roomMap, rooms)
      ensures forall id :: 0 <= id < |rooms| && AbsentAbove(id, |roomMap|) ==> rooms[id] == old(rooms[id])
    {
      var i := 0;
      while i < |roomMap|
        invariant 0 <= i <= |roomMap|
        invariant roomMap == old(roomMap) && |rooms| == old(|rooms|)
        invariant RoomsInBounds(rooms, roomMap)
        invariant forall id :: 0 <= id < |rooms| ==> rooms[id] == old(rooms[id]).(coordinates := rooms[id].coordinates)
        invariant forall i', j' :: 0 <= i' < i && 0 <= j' < |roomMap[i']| && roomMap[i'][j'].Some? ==>
          rooms[roomMap[i'][j'].value].coordinates == Vec2(j', i')
        invariant forall id :: 0 <= id < |rooms| && AbsentAbove(id, i) ==> rooms[id] == old(rooms[id])
      {
        ghost var before := rooms;
        ReassignRow(i);
        forall i', j' | 0 <= i' < i && 0 <= j' < |roomMap[i']| && roomMap[i'][j'].Some?
          ensures rooms[roomMap[i'][j'].value] == before[roomMap[i'][j'].value]
        {
          assert AbsentFromRow(roomMap[i'][j'].value, i, |roomMap[i]|);
        }
        i := i + 1;
      }
    }

    /** The inner loop of ReassignCoordinates, over row `i`. */
    method ReassignRow(i: int)
      requires CellsBelow(roomMap, |rooms|) && UniqueCells(roomMap) && RoomsInBounds(rooms, roomMap)
      requires 0 <= i < |roomMap|
      modifies this
      ensures roomMap == old(roomMap) && |rooms| == old(|rooms|)
      ensures RoomsInBounds(rooms, roomMap)
      ensures forall id :: 0 <= id < |rooms| ==> rooms[id] == old(rooms[id]).(coordinates := rooms[id].coordinates)
      ensures forall j :: 0 <= j < |roomMap[i]| && roomMap[i][j].Some? ==>
        rooms[roomMap[i][j].value].coordinates == Vec2(j, i)
      ensures forall id :: 0 <= id < |rooms| && AbsentFromRow(id, i, |roomMap[i]|) ==> rooms[id] == old(rooms[id])
    {
      var j := 0;
      while j < |roomMap[i]|
        invariant roomMap == old(roomMap) && |rooms| == old(|rooms|)
        invariant 0 <= j <= |roomMap[i]|
        invariant RoomsInBounds(rooms, roomMap)
        invariant forall id :: 0 <= id < |rooms| ==> rooms[id] == old(rooms[id]).(coordinates := rooms[id].coordinates)
        invariant forall j' :: 0 <= j' < j && roomMap[i][j'].Some? ==>
          rooms[roomMap[i][j'].value].coordinates == Vec2(j', i)
        invariant forall id :: 0 <= id < |rooms| && AbsentFromRow(id, i, j) ==> rooms[id] == old(rooms[id])
      {
        var cell := roomMap[i][j];
        if cell.Some? {
          rooms := rooms[cell.value := rooms[cell.value].(coordinates := Vec2(j, i))];
        }
        j := j + 1;
      }
    }

    /** Draws a passage object into the cell (x, y). */
    method PlacePassage(x: int, y: int, passedHorizontally: bool, passedVertically: bool)
      requires Valid() && InBounds(Vec2(x, y), roomMap)
      modifies this
      ensures Valid()
      ensures rooms == old(rooms) + [NewPassage(passedHorizontally, passedVertically)]
      ensures roomMap == old(roomMap)[y := old(roomMap)[y][x := Some(old(|rooms|))]]
      ensures OverlaidWithPassages(old(roomMap), roomMap, rooms, old(|rooms|))
    {
      var id := |rooms|;
      rooms := rooms + [NewPassage(passedHorizontally, passedVertically)];
      roomMap := roomMap[y := roomMap[y][x := Some(id)]];
    }

    /** Fills the cells (x, y) with x0 <= x < x1 with horizontal passages. */
    method FillRow(y: int, x0: int, x1: int)
      requires Valid() && 0 <= y < |roomMap| && 0 <= x0 && x1 <= |roomMap[y]|
      modifies this
      ensures Valid()
      ensures |rooms| >= old(|rooms|) && rooms[..old(|rooms|)] == old(rooms)
      ensures OverlaidWithPassages(old(roomMap), roomMap, rooms, old(|rooms|))
      ensures forall x :: x0 <= x < x1 ==> HoldsPassage(roomMap, rooms, y, x, true, false)
      ensures forall i, j :: 0 <= i < |roomMap| && 0 <= j < |roomMap[i]| && (i != y || j < x0 || j >= x1) ==>
        roomMap[i][j] == old(roomMap)[i][j]
    {
      var x := x0;
      while x < x1
        invariant Valid() && |roomMap| == old(|roomMap|) && |roomMap[y]| == old(|roomMap[y]|)
        invariant |rooms| >= old(|rooms|) && rooms[..old(|rooms|)] == old(rooms)
        invariant OverlaidWithPassages(old(roomMap), roomMap, rooms, old(|rooms|))
        invariant x >= x0 && (x <= x1 || x == x0)
        invariant forall x' :: x0 <= x' < x ==> HoldsPassage(roomMap, rooms, y, x', true, false)
        invariant forall i, j :: 0 <= i < |roomMap| && 0 <= j < |roomMap[i]| && (i != y || j < x0 || j >= x) ==>
          roomMap[i][j] == old(roomMap)[i][j]
      {
        ghost var m := roomMap;
        ghost var rs := rooms;
        PlacePassage(x, y, true, false);
        OverlayTrans(old(roomMap), m, roomMap, rs, rooms, old(|rooms|), |rs|);
        forall x' | x0 <= x' < x
          ensures HoldsPassage(roomMap, rooms, y, x', true, false)
        {
          PassageKept(m, roomMap, rs, rooms, y, x', true, false);
        }
        x := x + 1;
      }
    }

    /** Fills the cells (x, y) with y0 <= y < y1 with vertical passages. */
    method FillColumn(x: int, y0: int, y1: int)
      requires Valid() && 0 <= y0 && y1 <= |roomMap| && 0 <= x < Width(roomMap)
      modifies this
      ensures Valid()
      ensures |rooms| >= old(|rooms|) && rooms[..old(|rooms|)] == old(rooms)
      ensures OverlaidWithPassages(old(roomMap), roomMap, rooms, old(|rooms|))
      ensures forall y :: y0 <= y < y1 ==> HoldsPassage(roomMap, rooms, y, x, false, true)
      ensures forall i, j :: 0 <= i < |roomMap| && 0 <= j < |roomMap[i]| && (j != x || i < y0 || i >= y1) ==>
        roomMap[i][j] == old(roomMap)[i][j]
    {
      var y := y0;
      while y < y1
        invariant Valid() && |roomMap| == old(|roomMap|) && Width(roomMap) == old(Width(roomMap))
        invariant |rooms| >= old(|rooms|) && rooms[..old(|rooms|)] == old(rooms)
        invariant OverlaidWithPassages(old(roomMap), roomMap, rooms, old(|rooms|))
        invariant y >= y0 && (y <= y1 || y == y0)
        invariant forall y' :: y0 <= y' < y ==> HoldsPassage(roomMap, rooms, y', x, false, true)
        invariant forall i, j :: 0 <= i < |roomMap| && 0 <= j < |roomMap[i]| && (j != x || i < y0 || i >= y) ==>
          roomMap[i][j] == old(roomMap)[i][j]
      {
        ghost var m := roomMap;
        ghost var rs := rooms;
        PlacePassage(x, y, false, true);
        OverlayTrans(old(roomMap), m, roomMap, rs, rooms, old(|rooms|), |rs|);
        forall y' | y0 <= y' < y
          ensures HoldsPassage(roomMap, rooms, y', x, false, true)
        {
          PassageKept(m, roomMap, rs, rooms, y', x, false, true);
        }
        y := y + 1;
      }
    }

    /**
     * For every connection of the room `r` that lies more than one cell to its right (or
     * above it), fills the cells in between with horizontal (vertical) passages.
     */
    method StretchFrom(r: RoomView)
      requires Valid() && InBounds(r.coordinates, roomMap)
      requires forall k :: 0 <= k < |r.connections| ==> r.connections[k] < |rooms|
      modifies this
      ensures Valid()
      ensures |rooms| >= old(|rooms|) && rooms[..old(|rooms|)] == old(rooms)
      ensures OverlaidWithPassages(old(roomMap), roomMap, rooms, old(|rooms|))
      ensures Stretched(old(roomMap), roomMap, rooms, r, old(rooms), |r.connections|)
    {
      var k := 0;
      while k < |r.connections|
        invariant 0 <= k <= |r.connections|
        invariant Valid() && |roomMap| == old(|roomMap|) && InBounds(r.coordinates, roomMap)
        invariant |rooms| >= old(|rooms|) && rooms[..old(|rooms|)] == old(rooms)
        invariant OverlaidWithPassages(old(roomMap), roomMap, rooms, old(|rooms|))
        invariant Stretched(old(roomMap), roomMap, rooms, r, old(rooms), k)
      {
        StretchNext(r, k, old(roomMap), old(rooms));
        k := k + 1;
      }
    }

    /** The body of StretchFrom's loop: connection `k` is drawn on top of the first `k`. */
    method StretchNext(r: RoomView, k: nat, ghost m0: Grid, ghost rooms0: seq<RoomView>)
      requires k < |r.connections| && Valid() && InBounds(r.coordinates, roomMap)
      requires forall k' :: 0 <= k' < |r.connections| ==> r.connections[k'] < |rooms0|
      requires |rooms| >= |rooms0| && rooms[..|rooms0|] == rooms0
      requires OverlaidWithPassages(m0, roomMap, rooms, |rooms0|)
      requires Stretched(m0, roomMap, rooms, r, rooms0, k)
      modifies this
      ensures Valid() && |roomMap| == old(|roomMap|) && InBounds(r.coordinates, roomMap)
      ensures |rooms| >= |rooms0| && rooms[..|rooms0|] == rooms0
      ensures OverlaidWithPassages(m0, roomMap, rooms, |rooms0|)
      ensures Stretched(m0, roomMap, rooms, r, rooms0, k + 1)
    {
      ghost var m := roomMap;
      ghost var rs := rooms;
      StretchConnection(r, k);
      assert rs[r.connections[k]] == rooms0[r.connections[k]];
      OverlayTrans(m0, m, roomMap, rs, rooms, |rooms0|, |rs|);
      StretchedStep(m0, m, roomMap, rs, rooms, r, rooms0, k);
    }

    /** One pass of the loop of StretchFrom: the cells between `r` and its connection `k` are filled. */
    method StretchConnection(r: RoomView, k: nat)
      requires Valid() && InBounds(r.coordinates, roomMap) && k < |r.connections|
      requires forall k' :: 0 <= k' < |r.connections| ==> r.connections[k'] < |rooms|
      modifies this
      ensures Valid() && |roomMap| == old(|roomMap|)
      ensures |rooms| >= old(|rooms|) && rooms[..old(|rooms|)] == old(rooms)
      ensures OverlaidWithPassages(old(roomMap), roomMap, rooms, old(|rooms|))
      ensures FilledBetween(old(roomMap), roomMap, rooms, r.coordinates, old(rooms)[r.connections[k]].coordinates)
    {
      var c2 := rooms[r.connections[k]].coordinates;
      StretchRow(r.coordinates, c2);
      ghost var m := roomMap;
      ghost var rs := rooms;
      StretchColumn(r.coordinates, c2);
      OverlayTrans(old(roomMap), m, roomMap, rs, rooms, old(|rooms|), |rs|);
      FillsCombine(old(roomMap), m, roomMap, rs, rooms, r.coordinates, c2);
    }

    /** The row half of StretchConnection: fills the cells between `c` and a `c2` to its right. */
    method StretchRow(c: Vec2, c2: Vec2)
      requires Valid() && InBounds(c, roomMap) && InBounds(c2, roomMap)
      modifies this
      ensures Valid() && |rooms| >= old(|rooms|) && rooms[..old(|rooms|)] == old(rooms)
      ensures OverlaidWithPassages(old(roomMap), roomMap, rooms, old(|rooms|))
      ensures RowFilled(old(roomMap), roomMap, rooms, c, c2)
    {
      if c.x < c2.x && c2.x - c.x > 1 {
        FillRow(c.y, c.x + 1, c2.x);
      }
    }

    /** The column half of StretchConnection: fills the cells between `c` and a `c2` above it. */
    method StretchColumn(c: Vec2, c2: Vec2)
      requires Valid() && InBounds(c, roomMap) && InBounds(c2, roomMap)
      modifies this
      ensures Valid() && |rooms| >= old(|rooms|) && rooms[..old(|rooms|)] == old(rooms)
      ensures OverlaidWithPassages(old(roomMap), roomMap, rooms, old(|rooms|))
      ensures ColumnFilled(old(roomMap), roomMap, rooms, c, c2)
      ensures forall i :: 0 <= i < |roomMap| ==> |roomMap[i]| == |old(roomMap)[i]|
    {
      if c.y < c2.y && c2.y - c.y > 1 {
        FillColumn(c.x, c.y + 1, c2.y);
      }
    }

    /**
     * Inserts an empty row at index `yIndex`, as wide as the first old row, then reassigns
     * coordinates and stretches connections. An empty map throws ArgumentException; an
     * index outside [0, RowCount] makes List.Insert throw.
     */
    method ExpandVertically(yIndex: int) returns (outcome: Outcome)
      requires Valid()
      modifies this
      ensures Valid()
      ensures outcome == (if old(|roomMap|) == 0 then ArgumentError
                          else if yIndex < 0 || yIndex > old(|roomMap|) then ArgumentOutOfRange
                          else Done)
      ensures outcome != Done ==> roomMap == old(roomMap) && rooms == old(rooms)
      ensures outcome == Done ==>
        |rooms| >= old(|rooms|) &&
        (forall id :: 0 <= id < old(|rooms|) ==> rooms[id] == old(rooms[id]).(coordinates := rooms[id].coordinates)) &&
        OverlaidWithPassages(InsertedRow(old(roomMap), yIndex, |old(roomMap)[0]|), roomMap, rooms, old(|rooms|)) &&
        Located(InsertedRow(old(roomMap), yIndex, |old(roomMap)[0]|), rooms)
    {
      if |roomMap| == 0 {
        return ArgumentError;
      }
      if yIndex < 0 || yIndex > |roomMap| {
        return ArgumentOutOfRange;
      }
      roomMap := roomMap[..yIndex] + [[]] + roomMap[yIndex..];
      var width;
      if yIndex == 0 {
        width := |roomMap[1]|;
      } else {
        width := |roomMap[0]|;
      }
      assert width == |old(roomMap)[0]|;
      var i := 0;
      while i < width
        invariant 0 <= i <= width && rooms == old(rooms)
        invariant roomMap == InsertedRow(old(roomMap), yIndex, i)
      {
        roomMap := roomMap[yIndex := roomMap[yIndex] + [None]];
        i := i + 1;
        assert roomMap[yIndex] == seq(i, _ => None);
      }
      assert roomMap == InsertedRow(old(roomMap), yIndex, width);
      InsertedRowKeepsInvariants(old(roomMap), yIndex, rooms);
      ReassignCoordinates();
      ghost var reassigned := rooms;
      StrechConnections();
      assert forall id :: 0 <= id < old(|rooms|) ==> rooms[id] == reassigned[id];
      outcome := Done;
    }

    /**
     * Inserts an empty cell at index `xIndex` of every row, then reassigns coordinates and
     * stretches connections. An empty map throws ArgumentException; an index outside
     * [0, ColumnCount] makes List.Insert throw on the first row.
     */
    method ExpandHorizontally(xIndex: int) returns (outcome: Outcome)
      requires Valid()
      modifies this
      ensures Valid()
      ensures outcome == (if old(|roomMap|) == 0 then ArgumentError
                          else if xIndex < 0 || xIndex > |old(roomMap)[0]| then ArgumentOutOfRange
                          else Done)
      ensures outcome != Done ==> roomMap == old(roomMap) && rooms == old(rooms)
      ensures outcome == Done ==>
        |rooms| >= old(|rooms|) &&
        (forall id :: 0 <= id < old(|rooms|) ==> rooms[id] == old(rooms[id]).(coordinates := rooms[id].coordinates)) &&
        OverlaidWithPassages(InsertedColumn(old(roomMap), xIndex), roomMap, rooms, old(|rooms|)) &&
        Located(InsertedColumn(old(roomMap), xIndex), rooms)
    {
      if |roomMap| == 0 {
        return ArgumentError;
      }
      var i := 0;
      while i < |roomMap|
        invariant 0 <= i <= |roomMap| == old(|roomMap|) && rooms == old(rooms)
        invariant i > 0 ==> 0 <= xIndex <= |old(roomMap)[0]|
        invariant forall k :: 0 <= k < i ==> roomMap[k] == old(roomMap)[k][..xIndex] + [None] + old(roomMap)[k][xIndex..]
        invariant forall k :: i <= k < |roomMap| ==> roomMap[k] == old(roomMap)[k]
      {
        if xIndex < 0 || xIndex > |roomMap[i]| {
          assert i == 0;
          assert roomMap == old(roomMap);
          return ArgumentOutOfRange;
        }
        roomMap := roomMap[i := roomMap[i][..xIndex] + [None] + roomMap[i][xIndex..]];
        i := i + 1;
      }
      assert roomMap == InsertedColumn(old(roomMap), xIndex);
      InsertedColumnKeepsInvariants(old(roomMap), xIndex, rooms);
      ReassignCoordinates();
      ghost var reassigned := rooms;
      StrechConnections();
      assert forall id :: 0 <= id < old(|rooms|) ==> rooms[id] == reassigned[id];
      outcome := Done;
    }

    /** StrechConnections: stretches the connections of every object on the map, row by row. */
    method StrechConnections()
      requires Valid()
      modifies this
      ensures Valid()
      ensures |rooms| >= old(|rooms|) && rooms[..old(|rooms|)] == old(rooms)
      ensures OverlaidWithPassages(old(roomMap), roomMap, rooms, old(|rooms|))
    {
      ghost var n := |rooms|;
      ghost var before := roomMap;
      var yRoom := 0;
      while yRoom < |roomMap|
        invariant 0 <= yRoom <= |roomMap|
        invariant Valid()
        invariant |rooms| >= n && rooms[..n] == old(rooms)
        invariant OverlaidWithPassages(before, roomMap, rooms, n)
      {
        var xRoom := 0;
        while xRoom < |roomMap[yRoom]|
          invariant 0 <= yRoom < |roomMap| && 0 <= xRoom <= |roomMap[yRoom]|
          invariant Valid()
          invariant |rooms| >= n && rooms[..n] == old(rooms)
          invariant OverlaidWithPassages(before, roomMap, rooms, n)
        {
          var cell := roomMap[yRoom][xRoom];
          if cell.Some? {
            ghost var m := roomMap;
            ghost var rs := rooms;
            StretchFrom(rooms[cell.value]);
            OverlayTrans(before, m, roomMap, rs, rooms, n, |rs|);
          }
          xRoom := xRoom + 1;
        }
        yRoom := yRoom + 1;
      }
    }
  }
}
