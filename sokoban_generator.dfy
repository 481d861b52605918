/**
 * The fragment-tiling level generator of the Sokoban prototype. A level is a grid of glyph
 * strings built from 3x3 fragments whose border constraints must agree with their neighbours;
 * boxes, docks and the two workers are then written onto floor cells.
 *
 * `random()` is an oracle: the generator owns the sequence of values it will return, each a
 * real in [0, 1). Running out of values stands for a retry loop of the source that goes on.
 * A fragment is a value: only the loader changes fragments, through the list that holds them.
 */
module SokobanGenerators {

  /** A value of random(). */
  type Draw = r: real | 0.0 <= r < 1.0

  /** A level map: rows of glyph strings (' ', '#', ... and the generator's 'BB', 'RW', 'd', ...). */
  type Level = seq<seq<string>>

  datatype Option<T> = None | Some(value: T)

  /** IndexError is the Python exception; OutOfDraws stands for a retry loop that never ends. */
  datatype Failure = IndexError | OutOfDraws

  datatype Result<T> = Ok(value: T) | Err(failure: Failure)

  datatype Side = Above | Below | Left | Right

  /**
   * A fragment: its border constraints on the four neighbours ('?' is no constraint) and its
   * content rows, every character kept as a one-character string as the source keeps it.
   */
  datatype Fragment = Fragment(above: seq<string>, below: seq<string>, left: seq<string>, right: seq<string>,
                               content: seq<seq<string>>)

  function Border(f: Fragment, side: Side): seq<string>
  {
    match side
    case Above => f.above
    case Below => f.below
    case Left => f.left
    case Right => f.right
  }

  /** list.count: how many entries of `s` equal `v`. */
  function Count(s: seq<string>, v: string): (n: nat)
    ensures n <= |s|
  {
    if s == [] then 0
    else Count(s[..|s| - 1], v) + (if s[|s| - 1] == v then 1 else 0)
  }

  /** Every entry is `v` exactly when all of them are counted; none is exactly when none is counted. */
  lemma {:induction false} CountExtremes(s: seq<string>, v: string)
    ensures Count(s, v) == |s| <==> forall i :: 0 <= i < |s| ==> s[i] == v
    ensures Count(s, v) == 0 <==> forall i :: 0 <= i < |s| ==> s[i] != v
    decreases |s|
  {
    if s != [] {
      CountExtremes(s[..|s| - 1], v);
      assert forall i :: 0 <= i < |s| - 1 ==> s[..|s| - 1][i] == s[i];
    }
  }

  /** Fragment.has_constraint: fewer '?' than positions. */
  function HasConstraint(border: seq<string>): (r: bool)
    ensures r <==> exists i :: 0 <= i < |border| && border[i] != "?"
  {
    CountExtremes(border, "?");
    Count(border, "?") < |border|
  }

  /** The first border position a check compares: the vertical checks skip the first and the last. */
  function First(side: Side): nat
  {
    if side == Above || side == Below then 1 else 0
  }

  function End(side: Side, n: nat): int
  {
    if side == Above || side == Below then n - 1 else n
  }

  /**
   * The cell of the neighbour `g` that position `i` of the border on `side` is compared with,
   * or None when indexing it raises: the top row (Above) or the bottom row (Below) at i - 1, the
   * last cell (Left) or the first cell (Right) of row i.
   */
  function Neighbour(g: Fragment, side: Side, i: nat): Option<string>
  {
    match side
    case Above =>
      if |g.content| > 0 && 1 <= i <= |g.content[0]| then Some(g.content[0][i - 1]) else None
    case Below =>
      if |g.content| > 0 && 1 <= i <= |g.content[|g.content| - 1]| then Some(g.content[|g.content| - 1][i - 1]) else None
    case Left =>
      if i < |g.content| && |g.content[i]| > 0 then Some(g.content[i][|g.content[i]| - 1]) else None
    case Right =>
      if i < |g.content| && |g.content[i]| > 0 then Some(g.content[i][0]) else None
  }

  /** The check loop from position `i`: the first constrained position that disagrees answers false. */
  function ScanFrom(border: seq<string>, g: Fragment, side: Side, i: nat, end: int): (r: Result<bool>)
    requires end <= |border|
    ensures r.Err? ==> r.failure == IndexError
    decreases end - i
  {
    if i >= end then Ok(true)
    else if border[i] != "?" && Neighbour(g, side, i).None? then Err(IndexError)
    else if border[i] != "?" && Neighbour(g, side, i).value != border[i] then Ok(false)
    else ScanFrom(border, g, side, i + 1, end)
  }

  /** check_above, check_below, check_left and check_right of `f` against its neighbour `g`. */
  function CheckSide(f: Fragment, side: Side, g: Fragment): (r: Result<bool>)
    ensures r.Err? ==> r.failure == IndexError
  {
    var b := Border(f, side);
    ScanFrom(b, g, side, First(side), End(side, |b|))
  }

  /** Every position of the scanned range is unconstrained or agrees with the neighbour. */
  ghost predicate Agrees(border: seq<string>, g: Fragment, side: Side, i: nat, end: int)
    requires end <= |border|
  {
    forall k :: i <= k < end ==> border[k] == "?" || Neighbour(g, side, k) == Some(border[k])
  }

  lemma {:induction false} ScanFromIff(border: seq<string>, g: Fragment, side: Side, i: nat, end: int)
    requires end <= |border|
    ensures ScanFrom(border, g, side, i, end) == Ok(true) <==> Agrees(border, g, side, i, end)
    ensures ScanFrom(border, g, side, i, end) == Err(IndexError) ==>
      exists k :: i <= k < end && border[k] != "?" && Neighbour(g, side, k).None?
    decreases end - i
  {
    if i < end {
      ScanFromIff(border, g, side, i + 1, end);
    }
  }

  /**
   * A check passes exactly when every constrained position of its range equals the neighbour's
   * cell; '?' never rejects. It raises only at a constrained position the neighbour lacks.
   */
  lemma CheckSideIff(f: Fragment, side: Side, g: Fragment)
    ensures var b := Border(f, side);
      CheckSide(f, side, g) == Ok(true) <==>
      forall k :: First(side) <= k < End(side, |b|) ==> b[k] == "?" || Neighbour(g, side, k) == Some(b[k])
    ensures var b := Border(f, side);
      CheckSide(f, side, g) == Err(IndexError) ==>
      exists k :: First(side) <= k < End(side, |b|) && b[k] != "?" && Neighbour(g, side, k).None?
  {
    var b := Border(f, side);
    ScanFromIff(b, g, side, First(side), End(side, |b|));
  }

  /** A border of '?' only passes against any neighbour. */
  lemma UnconstrainedPasses(f: Fragment, side: Side, g: Fragment)
    requires !HasConstraint(Border(f, side))
    ensures CheckSide(f, side, g) == Ok(true)
  {
    CheckSideIff(f, side, g);
  }

  /** Fragment.check_above / check_below / check_left / check_right: the loop over the border. */
  method Check(f: Fragment, side: Side, g: Fragment) returns (r: Result<bool>)
    ensures r == CheckSide(f, side, g)
  {
    var border := Border(f, side);
    var end := End(side, |border|);
    var i := First(side);
    while i < end
      invariant First(side) <= i
      invariant ScanFrom(border, g, side, i, end) == CheckSide(f, side, g)
    {
      if border[i] != "?" {
        var cell := Neighbour(g, side, i);
        if cell.None? {
          return Err(IndexError);
        }
        if cell.value != border[i] {
          return Ok(false);
        }
      }
      i := i + 1;
    }
    return Ok(true);
  }

  /** The left-hand part of the fit test: the map's left edge, or both horizontal checks. */
  function HorizontalViolation(nf: Fragment, left: Option<Fragment>): Result<bool>
  {
    match left
    case None => Ok(HasConstraint(nf.left))
    case Some(l) =>
      match CheckSide(nf, Left, l)
      case Err(e) => Err(e)
      case Ok(ok) =>
        if !ok then Ok(true)
        else match CheckSide(l, Right, nf)
          case Err(e) => Err(e)
          case Ok(ok') => Ok(!ok')
  }

  /** The upper part of the fit test as written: the new fragment's check_above, then check_right of the fragment above. */
  function VerticalViolation(nf: Fragment, up: Option<Fragment>): Result<bool>
  {
    match up
    case None => Ok(HasConstraint(nf.above))
    case Some(u) =>
      match CheckSide(nf, Above, u)
      case Err(e) => Err(e)
      case Ok(ok) =>
        if !ok then Ok(true)
        else match CheckSide(u, Right, nf)
          case Err(e) => Err(e)
          case Ok(ok') => Ok(!ok')
  }

  /**
   * Whether placing `nf` with the given left and upper neighbours (None on the map's edge)
   * violates a constraint, in the order generate_walls evaluates the tests.
   */
  function Violates(nf: Fragment, left: Option<Fragment>, up: Option<Fragment>, lastColumn: bool, lastRow: bool): (r: Result<bool>)
    ensures r.Err? ==> r.failure == IndexError
  {
    match HorizontalViolation(nf, left)
    case Err(e) => Err(e)
    case Ok(h) =>
      match VerticalViolation(nf, up)
      case Err(e) => Err(e)
      case Ok(v) => Ok(h || (lastColumn && HasConstraint(nf.right)) || v || (lastRow && HasConstraint(nf.below)))
  }

  /**
   * A fragment fits exactly when: on an outer edge it has no constraint facing out, and against
   * each neighbour both checks pass (for the neighbour above: its check_right, as written).
   */
  lemma FitIff(nf: Fragment, left: Option<Fragment>, up: Option<Fragment>, lastColumn: bool, lastRow: bool)
    ensures Violates(nf, left, up, lastColumn, lastRow) == Ok(false) <==>
      (left.None? ==> !HasConstraint(nf.left)) &&
      (left.Some? ==> CheckSide(nf, Left, left.value) == Ok(true) && CheckSide(left.value, Right, nf) == Ok(true)) &&
      (lastColumn ==> !HasConstraint(nf.right)) &&
      (up.None? ==> !HasConstraint(nf.above)) &&
      (up.Some? ==> CheckSide(nf, Above, up.value) == Ok(true) && CheckSide(up.value, Right, nf) == Ok(true)) &&
      (lastRow ==> !HasConstraint(nf.below))
  {
  }

  /** The constraint tests of generate_walls for one candidate fragment. */
  method Violation(nf: Fragment, left: Option<Fragment>, up: Option<Fragment>, lastColumn: bool, lastRow: bool)
    returns (r: Result<bool>)
    ensures r == Violates(nf, left, up, lastColumn, lastRow)
  {
    var violation := false;
    match left {
      case None =>
        if HasConstraint(nf.left) {
          violation := true;
        }
      case Some(l) =>
        var fromNew := Check(nf, Left, l);
        if fromNew.Err? {
          return fromNew;
        }
        if !fromNew.value {
          violation := true;
        } else {
          var fromLeft := Check(l, Right, nf);
          if fromLeft.Err? {
            return fromLeft;
          }
          violation := !fromLeft.value;
        }
    }
    if lastColumn && HasConstraint(nf.right) {
      violation := true;
    }
    match up {
      case None =>
        if HasConstraint(nf.above) {
          violation := true;
        }
      case Some(u) =>
        var fromNew := Check(nf, Above, u);
        if fromNew.Err? {
          return fromNew;
        }
        if !fromNew.value {
          violation := true;
        } else {
          var fromUp := Check(u, Right, nf);
          if fromUp.Err? {
            return fromUp;
          }
          if !fromUp.value {
            violation := true;
          }
        }
    }
    if lastRow && HasConstraint(nf.below) {
      violation := true;
    }
    return Ok(violation);
  }

  /** The upper part of the fit test with the reverse check the fragment above evidently needs: its check_below. */
  function VerticalViolationIntended(nf: Fragment, up: Option<Fragment>): Result<bool>
  {
    match up
    case None => Ok(HasConstraint(nf.above))
    case Some(u) =>
      match CheckSide(nf, Above, u)
      case Err(e) => Err(e)
      case Ok(ok) =>
        if !ok then Ok(true)
        else match CheckSide(u, Below, nf)
          case Err(e) => Err(e)
          case Ok(ok') => Ok(!ok')
  }

  function ViolatesIntended(nf: Fragment, left: Option<Fragment>, up: Option<Fragment>, lastColumn: bool, lastRow: bool)
    : Result<bool>
  {
    match HorizontalViolation(nf, left)
    case Err(e) => Err(e)
    case Ok(h) =>
      match VerticalViolationIntended(nf, up)
      case Err(e) => Err(e)
      case Ok(v) => Ok(h || (lastColumn && HasConstraint(nf.right)) || v || (lastRow && HasConstraint(nf.below)))
  }

  /** With the intended reverse check, a fitting fragment honours the below constraint of the fragment above it. */
  lemma IntendedFitHonoursBelow(nf: Fragment, left: Option<Fragment>, u: Fragment, lastColumn: bool, lastRow: bool)
    requires ViolatesIntended(nf, left, Some(u), lastColumn, lastRow) == Ok(false)
    ensures CheckSide(nf, Above, u) == Ok(true) && CheckSide(u, Below, nf) == Ok(true)
    ensures forall k :: 1 <= k < |u.below| - 1 ==> u.below[k] == "?" || Neighbour(nf, Below, k) == Some(u.below[k])
  {
    CheckSideIff(u, Below, nf);
  }

  /** A 3x3 fragment of floor only, with the given borders. */
  function Open(above: seq<string>, below: seq<string>): Fragment
  {
    Fragment(above, below, ["?", "?", "?"], ["?", "?", "?"], [[" ", " ", " "], [" ", " ", " "], [" ", " ", " "]])
  }

  /**
   * As written, a fragment whose below constraint asks for a wall is accepted above a fragment of
   * floor: the reverse vertical test reads the upper fragment's right border, which is open.
   */
  lemma ReverseVerticalCheckIgnoresBelow()
    ensures var u := Open(["?", "?", "?", "?", "?"], ["?", "#", "?", "?", "?"]);
      var nf := Open(["?", "?", "?", "?", "?"], ["?", "?", "?", "?", "?"]);
      VerticalViolation(nf, Some(u)) == Ok(false) &&
      CheckSide(u, Below, nf) == Ok(false) &&
      VerticalViolationIntended(nf, Some(u)) == Ok(true)
  {
    var u := Open(["?", "?", "?", "?", "?"], ["?", "#", "?", "?", "?"]);
    var nf := Open(["?", "?", "?", "?", "?"], ["?", "?", "?", "?", "?"]);
    UnconstrainedPasses(nf, Above, u);
    UnconstrainedPasses(u, Right, nf);
    assert Neighbour(nf, Below, 1) == Some(" ");
    assert CheckSide(u, Below, nf) == ScanFrom(u.below, nf, Below, 1, 4);
  }

  /** A fragment as the loader completes it: three content rows of three one-character cells, and three left and right cells. */
  ghost predicate Complete(f: Fragment)
  {
    |f.content| == 3 && |f.left| == 3 && |f.right| == 3 &&
    forall k :: 0 <= k < 3 ==> |f.content[k]| == 3 && forall c :: 0 <= c < 3 ==> |f.content[k][c]| == 1
  }

  /** Row `k` of a row of fragments: their content rows `k` side by side. */
  function TileRow(row: seq<Fragment>, k: nat): (r: seq<string>)
    requires forall i :: 0 <= i < |row| ==> Complete(row[i])
    requires k < 3
    ensures |r| == 3 * |row|
  {
    if row == [] then []
    else
      assert Complete(row[|row| - 1]);
      TileRow(row[..|row| - 1], k) + row[|row| - 1].content[k]
  }

  /** The level of a placement (line 181): three rows per row of fragments. */
  function Tile(placed: seq<seq<Fragment>>): (r: Level)
    requires forall j, i :: 0 <= j < |placed| && 0 <= i < |placed[j]| ==> Complete(placed[j][i])
    ensures |r| == 3 * |placed|
  {
    if placed == [] then []
    else
      var row := placed[|placed| - 1];
      Tile(placed[..|placed| - 1]) + [TileRow(row, 0), TileRow(row, 1), TileRow(row, 2)]
  }

  lemma {:induction false} TileRowCell(row: seq<Fragment>, k: nat, i: nat, c: nat)
    requires forall i :: 0 <= i < |row| ==> Complete(row[i])
    requires k < 3 && i < |row| && c < 3
    ensures TileRow(row, k)[3 * i + c] == row[i].content[k][c]
    decreases |row|
  {
    if i < |row| - 1 {
      TileRowCell(row[..|row| - 1], k, i, c);
    }
  }

  /** Cell (3j + k, 3i + c) of the level is cell (k, c) of the fragment placed at (j, i); every row has three cells per fragment. */
  lemma {:induction false} TileCell(placed: seq<seq<Fragment>>, j: nat, k: nat, i: nat, c: nat)
    requires forall j, i :: 0 <= j < |placed| && 0 <= i < |placed[j]| ==> Complete(placed[j][i])
    requires j < |placed| && k < 3 && i < |placed[j]| && c < 3
    ensures |Tile(placed)[3 * j + k]| == 3 * |placed[j]|
    ensures Tile(placed)[3 * j + k][3 * i + c] == placed[j][i].content[k][c]
    decreases |placed|
  {
    if j < |placed| - 1 {
      TileCell(placed[..|placed| - 1], j, k, i, c);
    } else {
      TileRowCell(placed[j], k, i, c);
    }
  }

  /** Every cell of a tiled level is a one-character string. */
  lemma {:induction false} TileCellsAreChars(placed: seq<seq<Fragment>>)
    requires forall j, i :: 0 <= j < |placed| && 0 <= i < |placed[j]| ==> Complete(placed[j][i])
    ensures forall y, x :: 0 <= y < |Tile(placed)| && 0 <= x < |Tile(placed)[y]| ==> |Tile(placed)[y][x]| == 1
    decreases |placed|
  {
    if placed != [] {
      var init := placed[..|placed| - 1];
      var row := placed[|placed| - 1];
      TileCellsAreChars(init);
      forall k | 0 <= k < 3
        ensures forall x :: 0 <= x < |TileRow(row, k)| ==> |TileRow(row, k)[x]| == 1
      {
        forall x | 0 <= x < |TileRow(row, k)|
          ensures |TileRow(row, k)[x]| == 1
        {
          TileRowCell(row, k, x / 3, x % 3);
        }
      }
    }
  }

  function LeftOf(row: seq<Fragment>, i: nat): Option<Fragment>
    requires i <= |row|
  {
    if i == 0 then None else Some(row[i - 1])
  }

  function UpOf(rows: seq<seq<Fragment>>, j: nat, i: nat): Option<Fragment>
    requires j <= |rows| && (j > 0 ==> i < |rows[j - 1]|)
  {
    if j == 0 then None else Some(rows[j - 1][i])
  }

  /** Fragment `i` of a row placed below `rows` fits its left and upper neighbours. */
  ghost predicate FitsAt(fragments: seq<Fragment>, rows: seq<seq<Fragment>>, row: seq<Fragment>, i: nat, x: nat, y: nat)
    requires forall p :: 0 <= p < |rows| ==> |rows[p]| == x
    requires i < |row| <= x
  {
    Violates(row[i], LeftOf(row, i), UpOf(rows, |rows|, i), i == x - 1, |rows| == y - 1) == Ok(false)
  }

  /** Row `j` of a placement in a map of `x` by `y` fragments: library fragments, each fitting its left and upper neighbours. */
  ghost predicate RowPlaced(fragments: seq<Fragment>, rows: seq<seq<Fragment>>, row: seq<Fragment>, x: nat, y: nat)
    requires forall p :: 0 <= p < |rows| ==> |rows[p]| == x
    requires |row| <= x
  {
    forall i :: 0 <= i < |row| ==> row[i] in fragments && Complete(row[i]) && FitsAt(fragments, rows, row, i, x, y)
  }

  /** The first rows of a placement of `x` by `y` fragments, every fragment fitting. */
  ghost predicate RowsPlaced(fragments: seq<Fragment>, rows: seq<seq<Fragment>>, x: nat, y: nat)
  {
    (forall p :: 0 <= p < |rows| ==> |rows[p]| == x) &&
    forall p :: 0 <= p < |rows| ==> RowPlaced(fragments, rows[..p], rows[p], x, y)
  }

  /** Number of cells of `m` equal to `v`. */
  function CountIn(m: Level, v: string): nat
  {
    if m == [] then 0 else CountIn(m[..|m| - 1], v) + Count(m[|m| - 1], v)
  }

  /** Generator.count_floors. */
  function CountFloors(m: Level): nat
  {
    CountIn(m, " ")
  }

  lemma {:induction false} CountSet(s: seq<string>, x: nat, w: string, v: string)
    requires x < |s|
    ensures Count(s[x := w], v) == Count(s, v) - (if s[x] == v then 1 else 0) + (if w == v then 1 else 0)
    decreases |s|
  {
    var s' := s[x := w];
    if x < |s| - 1 {
      assert s'[..|s| - 1] == s[..|s| - 1][x := w];
      CountSet(s[..|s| - 1], x, w, v);
    } else {
      assert s'[..|s| - 1] == s[..|s| - 1];
    }
  }

  /** Writing `w` over one cell changes the count of each value by what was removed and what was written. */
  lemma {:induction false} CountAfterWrite(m: Level, y: nat, x: nat, w: string)
    requires y < |m| && x < |m[y]|
    ensures forall v ::
      CountIn(m[y := m[y][x := w]], v) == CountIn(m, v) - (if m[y][x] == v then 1 else 0) + (if w == v then 1 else 0)
    decreases |m|
  {
    var m' := m[y := m[y][x := w]];
    forall v
      ensures CountIn(m', v) == CountIn(m, v) - (if m[y][x] == v then 1 else 0) + (if w == v then 1 else 0)
    {
      if y < |m| - 1 {
        assert m'[..|m| - 1] == m[..|m| - 1][y := m[y][x := w]];
        CountAfterWrite(m[..|m| - 1], y, x, w);
      } else {
        assert m'[..|m| - 1] == m[..|m| - 1];
        CountSet(m[y], x, w, v);
      }
    }
  }

  /** A level of one-character cells holds no glyph of another length. */
  lemma {:induction false} NoLongGlyphs(m: Level, v: string)
    requires forall y, x :: 0 <= y < |m| && 0 <= x < |m[y]| ==> |m[y][x]| == 1
    requires |v| != 1
    ensures CountIn(m, v) == 0
    decreases |m|
  {
    if m != [] {
      NoLongGlyphs(m[..|m| - 1], v);
      var last := m[|m| - 1];
      assert forall x :: 0 <= x < |last| ==> last[x] != v;
      CountExtremes(last, v);
    }
  }

  /** The glyphs `generate` writes onto floor cells. */
  const Placed: set<string> := {"BB", "RB", "BB_d", "RB_d", "d", "BW", "RW"}

  /** `r` is `walls` with some floor cells overwritten by placed glyphs. */
  ghost predicate Overlay(walls: Level, r: Level)
  {
    |r| == |walls| &&
    (forall y :: 0 <= y < |walls| ==> |r[y]| == |walls[y]|) &&
    forall y, x :: 0 <= y < |walls| && 0 <= x < |walls[y]| ==>
      r[y][x] == walls[y][x] || (walls[y][x] == " " && r[y][x] in Placed)
  }

  function Boxes(m: Level): nat
  {
    CountIn(m, "BB") + CountIn(m, "RB") + CountIn(m, "BB_d") + CountIn(m, "RB_d")
  }

  /** Boxes that are not on a dock: each needs a dock of its own. */
  function LooseBoxes(m: Level): nat
  {
    CountIn(m, "BB") + CountIn(m, "RB")
  }

  /**
   * What `generate` promises of a level made from `walls`: enough floor was there, only floor
   * cells were overwritten, there are n boxes, one dock per box not already on one, one worker
   * of each colour, and every placement took a floor cell of its own.
   */
  ghost predicate Generated(walls: Level, r: Level, nBoxes: nat)
  {
    Overlay(walls, r) &&
    CountFloors(walls) >= 2 * nBoxes + 2 &&
    Boxes(r) == nBoxes &&
    CountIn(r, "d") == CountIn(walls, "d") + LooseBoxes(r) &&
    CountIn(r, "BW") == 1 && CountIn(r, "RW") == 1 &&
    CountFloors(r) == CountFloors(walls) - (nBoxes + LooseBoxes(r) + 2)
  }

  /** Generated levels keep a floor cell free: the placements never exhaust the floor. */
  lemma GeneratedKeepsFloor(walls: Level, r: Level, nBoxes: nat)
    requires Generated(walls, r, nBoxes)
    ensures CountFloors(r) >= nBoxes - LooseBoxes(r)
    ensures LooseBoxes(r) <= nBoxes
  {
  }

  /** int(random() * n): the index a draw selects among `n`. */
  function Pick(d: Draw, n: nat): (k: nat)
    ensures n > 0 ==> k < n
    ensures n == 0 ==> k == 0
  {
    PickBounds(d, n);
    (d * n as real).Floor
  }

  lemma PickBounds(d: Draw, n: nat)
    ensures 0 <= (d * n as real).Floor
    ensures n > 0 ==> (d * n as real).Floor < n
  {
    assert 0.0 <= d * n as real;
    assert d * n as real <= n as real;
    if n > 0 {
      assert d * n as real < n as real;
    }
  }

  /**
   * The characters `strip()` removes from a fragment line. The generator runs under
   * Python 2, where the lines are byte strings, so these are the six ASCII whitespace
   * characters: tab, line feed, vertical tab, form feed, carriage return and space.
   */
  predicate IsSpace(c: char)
  {
    ('\t' <= c <= '\r') || c == ' '
  }

  /** The end of the run of whitespace that starts at `i`. */
  function SpacesFrom(s: string, i: nat): (n: nat)
    requires i <= |s|
    ensures i <= n <= |s| && (n < |s| ==> !IsSpace(s[n]))
    ensures forall k :: i <= k < n ==> IsSpace(s[k])
    decreases |s| - i
  {
    if i < |s| && IsSpace(s[i]) then SpacesFrom(s, i + 1) else i
  }

  /** The start of the run of whitespace that ends at `j`. */
  function SpacesBefore(s: string, j: nat): (n: nat)
    requires j <= |s|
    ensures n <= j && (n > 0 ==> !IsSpace(s[n - 1]))
    ensures forall k :: n <= k < j ==> IsSpace(s[k])
  {
    if j > 0 && IsSpace(s[j - 1]) then SpacesBefore(s, j - 1) else j
  }

  function TrimStart(s: string): (r: string)
    ensures |r| <= |s| && forall k :: 0 <= k < |r| ==> r[k] == s[|s| - |r| + k]
    ensures r == [] || !IsSpace(r[0])
    ensures forall k :: 0 <= k < |s| - |r| ==> IsSpace(s[k])
  {
    s[SpacesFrom(s, 0)..]
  }

  function TrimEnd(s: string): (r: string)
    ensures |r| <= |s| && forall k :: 0 <= k < |r| ==> r[k] == s[k]
    ensures r == [] || !IsSpace(r[|r| - 1])
    ensures forall k :: |r| <= k < |s| ==> IsSpace(s[k])
  {
    s[..SpacesBefore(s, |s|)]
  }

  /** str.strip: leading and trailing whitespace removed. */
  function Strip(s: string): string
  {
    TrimEnd(TrimStart(s))
  }

  /** [c for c in s]: every character as a string of its own. */
  function Chars(s: string): (r: seq<string>)
    ensures |r| == |s| && forall k :: 0 <= k < |s| ==> r[k] == [s[k]]
  {
    seq(|s|, k requires 0 <= k < |s| => [s[k]])
  }

  /** The loader's state: the fragments so far and the line of the current block it is at (0 to 5). */
  predicate Reading(fs: seq<Fragment>, i: nat)
  {
    i <= 5 && (i > 0 ==> |fs| > 0)
  }

  /**
   * One line of the fragment file: line 0 of a block starts a fragment with its above border,
   * lines 1 to 3 add a left cell, a content row and a right cell, line 4 is the below border
   * and line 5 separates blocks. A content line of fewer than five characters raises.
   */
  function LoadLine(fs: seq<Fragment>, i: nat, line: string): (r: Result<(seq<Fragment>, nat)>)
    requires Reading(fs, i)
    ensures r.Ok? ==> Reading(r.value.0, r.value.1)
  {
    if i == 5 then Ok((fs, 0))
    else if i == 0 then Ok((fs + [Fragment(Chars(Strip(line)), [], [], [], [])], 1))
    else if i == 4 then
      var f := fs[|fs| - 1];
      Ok((fs[|fs| - 1 := f.(below := Chars(Strip(line)))], 5))
    else if |line| < 5 then Err(IndexError)
    else
      var f := fs[|fs| - 1];
      Ok((fs[|fs| - 1 := f.(left := f.left + [[line[0]]], right := f.right + [[line[4]]],
                               content := f.content + [Chars(line[1..4])])], i + 1))
  }

  /** The loader over the remaining lines; the final state is returned. */
  function LoadFrom(fs: seq<Fragment>, i: nat, lines: seq<string>): Result<(seq<Fragment>, nat)>
    requires Reading(fs, i)
    decreases |lines|
  {
    if lines == [] then Ok((fs, i))
    else match LoadLine(fs, i, lines[0])
      case Err(e) => Err(e)
      case Ok(next) => LoadFrom(next.0, next.1, lines[1..])
  }

  /** How many content rows a fragment has when the loader is at line `i` of its block. */
  function RowsAt(i: nat): nat
  {
    if i == 0 || i >= 4 then 3 else i - 1
  }

  /** A fragment with `n` content rows of three one-character cells, and `n` left and right cells. */
  ghost predicate Partial(f: Fragment, n: nat)
  {
    |f.content| == n && |f.left| == n && |f.right| == n &&
    forall k :: 0 <= k < n ==> |f.content[k]| == 3 && forall c :: 0 <= c < 3 ==> |f.content[k][c]| == 1
  }

  /** The loader's state after `n` lines: one fragment per started block, all but the current one complete. */
  ghost predicate LoadedAfter(fs: seq<Fragment>, i: nat, n: nat)
  {
    i <= 5 && n == (if i == 0 then 6 * |fs| else 6 * (|fs| - 1) + i) &&
    (forall k :: 0 <= k < |fs| - 1 ==> Complete(fs[k])) &&
    (|fs| > 0 ==> Partial(fs[|fs| - 1], RowsAt(i)))
  }

  /** A content line added to the current fragment keeps it partial, with one more row. */
  lemma AddRowKeeps(fs: seq<Fragment>, i: nat, n: nat, row: seq<string>, l: string, r: string)
    requires 1 <= i <= 3 && |fs| > 0 && LoadedAfter(fs, i, n)
    requires |row| == 3 && forall c :: 0 <= c < 3 ==> |row[c]| == 1
    requires |l| == 1 && |r| == 1
    ensures var f := fs[|fs| - 1];
      LoadedAfter(fs[|fs| - 1 := f.(left := f.left + [l], right := f.right + [r], content := f.content + [row])], i + 1, n + 1)
  {
    var f := fs[|fs| - 1];
    var g := f.(left := f.left + [l], right := f.right + [r], content := f.content + [row]);
    forall k | 0 <= k < RowsAt(i + 1)
      ensures |g.content[k]| == 3 && forall c :: 0 <= c < 3 ==> |g.content[k][c]| == 1
    {
      if k < RowsAt(i) {
        assert g.content[k] == f.content[k];
      }
    }
    assert Partial(g, RowsAt(i + 1));
  }

  lemma LoadLineKeeps(fs: seq<Fragment>, i: nat, line: string, n: nat)
    requires Reading(fs, i) && LoadedAfter(fs, i, n)
    requires LoadLine(fs, i, line).Ok?
    ensures LoadedAfter(LoadLine(fs, i, line).value.0, LoadLine(fs, i, line).value.1, n + 1)
  {
    if i == 0 {
      var above := Chars(Strip(line));
      var next := fs + [Fragment(above, [], [], [], [])];
      assert forall k :: 0 <= k < |fs| ==> next[k] == fs[k];
      if |fs| > 0 {
        assert Complete(fs[|fs| - 1]);
      }
      assert LoadedAfter(next, 1, n + 1);
    } else if 1 <= i <= 3 {
      AddRowKeeps(fs, i, n, Chars(line[1..4]), [line[0]], [line[4]]);
    }
  }

  lemma {:induction false} LoadFromKeeps(fs: seq<Fragment>, i: nat, lines: seq<string>, n: nat)
    requires Reading(fs, i) && LoadedAfter(fs, i, n)
    requires LoadFrom(fs, i, lines).Ok?
    ensures LoadedAfter(LoadFrom(fs, i, lines).value.0, LoadFrom(fs, i, lines).value.1, n + |lines|)
    decreases |lines|
  {
    if lines != [] {
      var step := LoadLine(fs, i, lines[0]);
      LoadLineKeeps(fs, i, lines[0], n);
      LoadFromKeeps(step.value.0, step.value.1, lines[1..], n + 1);
    }
  }

  /** After `n` lines, `m` started blocks and line `i` of the current one: `i` is n mod 6 and `m` is n / 6 rounded up. */
  lemma BlockCount(n: nat, m: nat, i: nat)
    requires i <= 5 && (i > 0 ==> m > 0) && n == (if i == 0 then 6 * m else 6 * (m - 1) + i)
    ensures i == n % 6 && m == (n + 5) / 6
  {
    if i == 0 {
      assert n + 5 == 6 * m + 5;
    } else {
      assert n + 5 == 6 * m + (i - 1);
    }
  }

  /** The loader's state after `n` lines holds n / 6 fragments rounded up, all complete once a block has its below border. */
  lemma LoadedAfterBlocks(fs: seq<Fragment>, i: nat, n: nat)
    requires LoadedAfter(fs, i, n)
    ensures |fs| == (n + 5) / 6 && forall k :: 0 <= k < |fs| - 1 ==> Complete(fs[k])
    ensures n % 6 == 0 || n % 6 == 5 ==> forall k :: 0 <= k < |fs| ==> Complete(fs[k])
  {
    BlockCount(n, |fs|, i);
    if (i == 0 || i == 5) && |fs| > 0 {
      assert Partial(fs[|fs| - 1], 3);
    }
  }

  /**
   * A fragment file that loads yields one fragment per block of six lines (the last block may
   * lack its separator), every fragment but the last complete, and the last one complete too when
   * the file ends after a below border or a separator.
   */
  lemma LoadedFragments(lines: seq<string>)
    requires LoadFrom([], 0, lines).Ok?
    ensures var fs := LoadFrom([], 0, lines).value.0;
      |fs| == (|lines| + 5) / 6 &&
      (forall k :: 0 <= k < |fs| - 1 ==> Complete(fs[k])) &&
      (|lines| % 6 == 0 || |lines| % 6 == 5 ==> forall k :: 0 <= k < |fs| ==> Complete(fs[k]))
  {
    LoadFromKeeps([], 0, lines, 0);
    var loaded := LoadFrom([], 0, lines).value;
    LoadedAfterBlocks(loaded.0, loaded.1, |lines|);
  }

  /** The level of `placed`, the only kind GenerateWalls returns. */
  ghost predicate Placement(fragments: seq<Fragment>, placed: seq<seq<Fragment>>, x: nat, y: nat)
  {
    |placed| == y && RowsPlaced(fragments, placed, x, y)
  }

  class Generator {
    var fragments: seq<Fragment>
    /** The values random() will return, in order. */
    var draws: seq<Draw>

    /** Every fragment is complete (a fragment file whose blocks are all whole). */
    ghost predicate Valid()
      reads this`fragments
    {
      forall k :: 0 <= k < |fragments| ==> Complete(fragments[k])
    }

    /** A generator with no fragments yet; Generator() then loads them with LoadFragments. */
    constructor (draws: seq<Draw>)
      ensures fragments == [] && this.draws == draws
    {
      fragments := [];
      this.draws := draws;
    }

    /** Generator.load_fragments over the lines of the fragment file. */
    method LoadFragments(lines: seq<string>) returns (r: Result<()>)
      requires fragments == []
      modifies this`fragments
      ensures var spec := LoadFrom([], 0, lines);
        if spec.Ok? then r == Ok(()) && fragments == spec.value.0 else r == Err(spec.failure)
      ensures r.Ok? && (|lines| % 6 == 0 || |lines| % 6 == 5) ==> Valid()
    {
      var i := 0;
      var n := 0;
      while n < |lines|
        invariant 0 <= n <= |lines| && Reading(fragments, i)
        invariant LoadFrom(fragments, i, lines[n..]) == LoadFrom([], 0, lines)
      {
        var line := lines[n];
        assert lines[n..][1..] == lines[n + 1..];
        if i == 5 {
          i := 0;
        } else {
          if i == 0 {
            fragments := fragments + [Fragment(Chars(Strip(line)), [], [], [], [])];
          } else if i == 4 {
            var f := fragments[|fragments| - 1];
            fragments := fragments[|fragments| - 1 := f.(below := Chars(Strip(line)))];
          } else {
            if |line| < 5 {
              return Err(IndexError);
            }
            var f := fragments[|fragments| - 1];
            fragments := fragments[|fragments| - 1 := f.(left := f.left + [[line[0]]], right := f.right + [[line[4]]],
                                                         content := f.content + [Chars(line[1..4])])];
          }
          i := i + 1;
        }
        n := n + 1;
      }
      assert lines[n..] == [];
      if |lines| % 6 == 0 || |lines| % 6 == 5 {
        LoadedFragments(lines);
      }
      return Ok(());
    }

    /** random(): the next draw, if any is left. */
    method Random() returns (r: Result<Draw>)
      modifies this`draws
      ensures old(draws) == [] ==> r == Err(OutOfDraws) && draws == []
      ensures old(draws) != [] ==> r == Ok(old(draws)[0]) && draws == old(draws)[1..]
    {
      if draws == [] {
        return Err(OutOfDraws);
      }
      r := Ok(draws[0]);
      draws := draws[1..];
    }

    /** Generator.find_floor: random cells until one is floor; an empty map or row raises. */
    method FindFloor(m: Level) returns (r: Result<(nat, nat)>)
      modifies this`draws
      ensures r.Ok? ==> r.value.1 < |m| && r.value.0 < |m[r.value.1]| && m[r.value.1][r.value.0] == " "
      ensures r == Err(IndexError) ==> |m| == 0 || exists y :: 0 <= y < |m| && |m[y]| == 0
      ensures |draws| <= |old(draws)|
    {
      while draws != []
        invariant |draws| <= |old(draws)|
        decreases |draws|
      {
        var dy := Random();
        var y := Pick(dy.value, |m|);
        if y >= |m| {
          return Err(IndexError);
        }
        var dx := Random();
        if dx.Err? {
          return Err(OutOfDraws);
        }
        var x := Pick(dx.value, |m[y]|);
        if x >= |m[y]| {
          return Err(IndexError);
        }
        if m[y][x] == " " {
          return Ok((x, y));
        }
      }
      return Err(OutOfDraws);
    }

    /** A random fragment that fits at column i of row j: the retry loop of generate_walls. */
    method PickFitting(left: Option<Fragment>, up: Option<Fragment>, lastColumn: bool, lastRow: bool)
      returns (r: Result<Fragment>)
      requires Valid()
      modifies this`draws
      ensures r.Ok? ==> r.value in fragments && Complete(r.value)
      ensures r.Ok? ==> Violates(r.value, left, up, lastColumn, lastRow) == Ok(false)
      ensures r.Ok? ==> |draws| < |old(draws)|
      ensures |draws| <= |old(draws)|
    {
      while draws != []
        invariant |draws| <= |old(draws)|
        decreases |draws|
      {
        var d := Random();
        var idx := Pick(d.value, |fragments|);
        if idx >= |fragments| {
          return Err(IndexError);
        }
        var candidate := fragments[idx];
        var violation := Violation(candidate, left, up, lastColumn, lastRow);
        if violation.Err? {
          return Err(violation.failure);
        }
        if !violation.value {
          return Ok(candidate);
        }
      }
      return Err(OutOfDraws);
    }

    /** One row of generate_walls: x fitting fragments next to the rows already placed. */
    method GenerateRow(result: seq<seq<Fragment>>, x: nat, y: nat) returns (r: Result<seq<Fragment>>)
      requires Valid() && |result| < y && RowsPlaced(fragments, result, x, y)
      modifies this`draws
      ensures r.Ok? ==> |r.value| == x && RowPlaced(fragments, result, r.value, x, y)
      ensures |draws| <= |old(draws)|
      ensures r.Ok? && x > 0 ==> |draws| < |old(draws)|
    {
      var j := |result|;
      var row: seq<Fragment> := [];
      var i := 0;
      while i < x
        invariant 0 <= i <= x && |row| == i
        invariant RowPlaced(fragments, result, row, x, y)
        invariant |draws| <= |old(draws)|
        invariant i > 0 ==> |draws| < |old(draws)|
      {
        var up := if j == 0 then None else Some(result[j - 1][i]);
        var fitting := PickFitting(LeftOf(row, i), up, i == x - 1, j == y - 1);
        if fitting.Err? {
          return Err(fitting.failure);
        }
        ExtendRowPlaced(fragments, result, row, fitting.value, x, y);
        row := row + [fitting.value];
        i := i + 1;
      }
      return Ok(row);
    }

    /** Generator.generate_walls: y rows of x fitting fragments, tiled into 3y rows of 3x cells. */
    method GenerateWalls(x: nat, y: nat) returns (r: Result<Level>, ghost placed: seq<seq<Fragment>>)
      requires Valid()
      modifies this`draws
      ensures r.Ok? ==> Placement(fragments, placed, x, y) && r.value == Tile(placed)
      ensures |draws| <= |old(draws)|
      ensures r.Ok? && x > 0 && y > 0 ==> |draws| < |old(draws)|
    {
      var result: seq<seq<Fragment>> := [];
      var j := 0;
      while j < y
        invariant 0 <= j <= y && |result| == j
        invariant RowsPlaced(fragments, result, x, y)
        invariant |draws| <= |old(draws)|
        invariant j > 0 && x > 0 ==> |draws| < |old(draws)|
      {
        var row := GenerateRow(result, x, y);
        if row.Err? {
          return Err(row.failure), result;
        }
        AppendRowPlaced(fragments, result, row.value, x, y);
        result := result + [row.value];
        j := j + 1;
      }
      return Ok(Tile(result)), result;
    }

    /** The wall loop of generate: new walls until they hold 2n + 2 floor cells. */
    method WallsWithFloor(x: nat, y: nat, nBoxes: nat) returns (r: Result<Level>, ghost placed: seq<seq<Fragment>>)
      requires Valid() && x > 0 && y > 0
      modifies this`draws
      ensures r.Ok? ==> Placement(fragments, placed, x, y) && r.value == Tile(placed)
      ensures r.Ok? ==> CountFloors(r.value) >= 2 * nBoxes + 2
    {
      r, placed := GenerateWalls(x, y);
      while r.Ok? && CountFloors(r.value) < 2 * nBoxes + 2
        invariant r.Ok? ==> Placement(fragments, placed, x, y) && r.value == Tile(placed)
        decreases |draws|
      {
        r, placed := GenerateWalls(x, y);
        if r.Err? {
          return;
        }
      }
    }

    /** The box loop of generate: n boxes, each on a dock with a draw below 0.1, blue or red by another draw. */
    method PlaceBoxes(walls: Level, nBoxes: nat) returns (r: Result<Level>, nDocks: nat)
      requires Tallied(walls, walls, 0, 0, 0, 0, 0)
      modifies this`draws
      ensures r.Ok? ==> Tallied(walls, r.value, nBoxes, nDocks, 0, 0, 0)
    {
      var level := walls;
      nDocks := 0;
      var k := 0;
      while k < nBoxes
        invariant k <= nBoxes && Tallied(walls, level, k, nDocks, 0, 0, 0)
      {
        var cell := FindFloor(level);
        if cell.Err? {
          return Err(cell.failure), nDocks;
        }
        var dockDraw := Random();
        if dockDraw.Err? {
          return Err(OutOfDraws), nDocks;
        }
        var onDock := dockDraw.value < 0.1;
        var colourDraw := Random();
        if colourDraw.Err? {
          return Err(OutOfDraws), nDocks;
        }
        var glyph := if Pick(colourDraw.value, 2) == 0 then (if onDock then "BB_d" else "BB")
                     else (if onDock then "RB_d" else "RB");
        PlaceKeepsTally(walls, level, cell.value.0, cell.value.1, glyph, k, nDocks, 0, 0, 0);
        level := Place(walls, level, cell.value.0, cell.value.1, glyph);
        if !onDock {
          nDocks := nDocks + 1;
        }
        k := k + 1;
      }
      return Ok(level), nDocks;
    }

    /** The dock loop of generate: one dock per box not placed on one. */
    method PlaceDocks(walls: Level, level: Level, nBoxes: nat, nDocks: nat) returns (r: Result<Level>)
      requires Tallied(walls, level, nBoxes, nDocks, 0, 0, 0)
      modifies this`draws
      ensures r.Ok? ==> Tallied(walls, r.value, nBoxes, nDocks, nDocks, 0, 0)
    {
      var current := level;
      var d := 0;
      while d < nDocks
        invariant d <= nDocks && Tallied(walls, current, nBoxes, nDocks, d, 0, 0)
      {
        var cell := FindFloor(current);
        if cell.Err? {
          return Err(cell.failure);
        }
        PlaceKeepsTally(walls, current, cell.value.0, cell.value.1, "d", nBoxes, nDocks, d, 0, 0);
        current := Place(walls, current, cell.value.0, cell.value.1, "d");
        d := d + 1;
      }
      return Ok(current);
    }

    /**
     * Generator.generate: walls until there is floor for n boxes, their docks and two workers;
     * then the boxes, a dock for every box not on one, and the blue and the red worker, each on
     * a random floor cell. A map of no fragments never has enough floor: the source retries
     * forever.
     */
    method Generate(x: nat, y: nat, nBoxes: nat) returns (r: Result<Level>, ghost walls: Level)
      requires Valid()
      modifies this`draws
      ensures r.Ok? ==> Generated(walls, r.value, nBoxes)
      ensures r.Ok? ==> exists placed :: Placement(fragments, placed, x, y) && walls == Tile(placed)
      ensures x == 0 || y == 0 ==> r == Err(OutOfDraws)
    {
      walls := [];
      if x == 0 || y == 0 {
        return Err(OutOfDraws), walls;
      }
      var result, placed := WallsWithFloor(x, y, nBoxes);
      if result.Err? {
        return Err(result.failure), walls;
      }
      var built := result.value;
      walls := built;
      TileCellsAreChars(placed);
      StartTally(built);
      var boxes, nDocks := PlaceBoxes(built, nBoxes);
      if boxes.Err? {
        return Err(boxes.failure), walls;
      }
      var docks := PlaceDocks(built, boxes.value, nBoxes, nDocks);
      if docks.Err? {
        return Err(docks.failure), walls;
      }
      var workers := PlaceWorkers(built, docks.value, nBoxes, nDocks);
      if workers.Err? {
        return Err(workers.failure), walls;
      }
      TalliedIsGenerated(built, workers.value, nBoxes, nDocks);
      return Ok(workers.value), walls;
    }

    /** The worker placements of generate: the blue worker, then the red one, each on a random floor cell. */
    method PlaceWorkers(walls: Level, level: Level, nBoxes: nat, nDocks: nat) returns (r: Result<Level>)
      requires Tallied(walls, level, nBoxes, nDocks, nDocks, 0, 0)
      modifies this`draws
      ensures r.Ok? ==> Tallied(walls, r.value, nBoxes, nDocks, nDocks, 1, 1)
    {
      var blue := FindFloor(level);
      if blue.Err? {
        return Err(blue.failure);
      }
      PlaceKeepsTally(walls, level, blue.value.0, blue.value.1, "BW", nBoxes, nDocks, nDocks, 0, 0);
      var withBlue := Place(walls, level, blue.value.0, blue.value.1, "BW");
      var red := FindFloor(withBlue);
      if red.Err? {
        return Err(red.failure);
      }
      PlaceKeepsTally(walls, withBlue, red.value.0, red.value.1, "RW", nBoxes, nDocks, nDocks, 1, 0);
      return Ok(Place(walls, withBlue, red.value.0, red.value.1, "RW"));
    }
  }

  /** Once every placement is tallied on walls with enough floor, the level is what generate promises. */
  lemma TalliedIsGenerated(walls: Level, level: Level, nBoxes: nat, nDocks: nat)
    requires Tallied(walls, level, nBoxes, nDocks, nDocks, 1, 1) && CountFloors(walls) >= 2 * nBoxes + 2
    ensures Generated(walls, level, nBoxes)
  {
  }

  /** A fragment that fits after the row so far extends the placed row. */
  lemma ExtendRowPlaced(fragments: seq<Fragment>, rows: seq<seq<Fragment>>, row: seq<Fragment>, f: Fragment, x: nat, y: nat)
    requires forall p :: 0 <= p < |rows| ==> |rows[p]| == x
    requires |row| < x && RowPlaced(fragments, rows, row, x, y)
    requires f in fragments && Complete(f)
    requires Violates(f, LeftOf(row, |row|), UpOf(rows, |rows|, |row|), |row| == x - 1, |rows| == y - 1) == Ok(false)
    ensures RowPlaced(fragments, rows, row + [f], x, y)
  {
    forall i | 0 <= i <= |row|
      ensures (row + [f])[i] in fragments && Complete((row + [f])[i]) && FitsAt(fragments, rows, row + [f], i, x, y)
    {
      FitsAtExtended(fragments, rows, row, f, i, x, y);
    }
  }

  /** Fragment `i` of the grown row: an old one keeps its neighbours, the new one has the old last on its left. */
  lemma FitsAtExtended(fragments: seq<Fragment>, rows: seq<seq<Fragment>>, row: seq<Fragment>, f: Fragment, i: nat, x: nat, y: nat)
    requires forall p :: 0 <= p < |rows| ==> |rows[p]| == x
    requires i <= |row| < x && RowPlaced(fragments, rows, row, x, y)
    requires f in fragments && Complete(f)
    requires Violates(f, LeftOf(row, |row|), UpOf(rows, |rows|, |row|), |row| == x - 1, |rows| == y - 1) == Ok(false)
    ensures (row + [f])[i] in fragments && Complete((row + [f])[i]) && FitsAt(fragments, rows, row + [f], i, x, y)
  {
    if i < |row| {
      assert FitsAt(fragments, rows, row, i, x, y);
      assert (row + [f])[i] == row[i] && LeftOf(row + [f], i) == LeftOf(row, i);
    } else {
      assert (row + [f])[i] == f && LeftOf(row + [f], i) == LeftOf(row, |row|);
    }
  }

  /** Appending a placed row keeps the earlier rows placed: their upper neighbours do not change. */
  lemma AppendRowPlaced(fragments: seq<Fragment>, rows: seq<seq<Fragment>>, row: seq<Fragment>, x: nat, y: nat)
    requires RowsPlaced(fragments, rows, x, y) && |row| == x && RowPlaced(fragments, rows, row, x, y)
    ensures RowsPlaced(fragments, rows + [row], x, y)
  {
    var rows' := rows + [row];
    assert rows'[..|rows|] == rows;
    forall p | 0 <= p < |rows|
      ensures RowPlaced(fragments, rows'[..p], rows'[p], x, y)
    {
      assert rows'[..p] == rows[..p];
    }
  }

  /** result[y][x] = glyph on a floor cell. */
  function Place(ghost walls: Level, level: Level, x: nat, y: nat, glyph: string): (r: Level)
    requires Overlay(walls, level) && y < |level| && x < |level[y]| && level[y][x] == " " && glyph in Placed
    ensures Overlay(walls, r)
    ensures |r| == |level| && r[y][x] == glyph
    ensures forall y', x' :: 0 <= y' < |r| && 0 <= x' < |r[y']| && (y', x') != (y, x) ==> r[y'][x'] == level[y'][x']
  {
    level[y := level[y][x := glyph]]
  }

  /**
   * The counts of a level during generate, relative to its walls: k boxes of which `loose` are
   * off a dock, d docks, bw blue and rw red workers added, and one floor cell fewer for each.
   */
  ghost predicate Tallied(walls: Level, level: Level, k: nat, loose: nat, d: nat, bw: nat, rw: nat)
  {
    Overlay(walls, level) &&
    Boxes(level) == k && LooseBoxes(level) == loose &&
    CountIn(level, "d") == CountIn(walls, "d") + d &&
    CountIn(level, "BW") == bw && CountIn(level, "RW") == rw &&
    CountFloors(level) == CountFloors(walls) - (k + d + bw + rw)
  }

  /** Walls of one-character cells start every count at zero. */
  lemma StartTally(walls: Level)
    requires forall y, x :: 0 <= y < |walls| && 0 <= x < |walls[y]| ==> |walls[y][x]| == 1
    ensures Tallied(walls, walls, 0, 0, 0, 0, 0)
  {
    NoLongGlyphs(walls, "BB");
    NoLongGlyphs(walls, "RB");
    NoLongGlyphs(walls, "BB_d");
    NoLongGlyphs(walls, "RB_d");
    NoLongGlyphs(walls, "BW");
    NoLongGlyphs(walls, "RW");
  }

  /** Writing a placed glyph over a floor cell moves one count from the floor to that glyph. */
  lemma PlaceKeepsTally(walls: Level, level: Level, x: nat, y: nat, glyph: string,
                        k: nat, loose: nat, d: nat, bw: nat, rw: nat)
    requires Tallied(walls, level, k, loose, d, bw, rw)
    requires y < |level| && x < |level[y]| && level[y][x] == " " && glyph in Placed
    ensures var box := glyph in {"BB", "RB", "BB_d", "RB_d"};
      Tallied(walls, Place(walls, level, x, y, glyph),
              if box then k + 1 else k, if glyph in {"BB", "RB"} then loose + 1 else loose,
              if glyph == "d" then d + 1 else d, if glyph == "BW" then bw + 1 else bw, if glyph == "RW" then rw + 1 else rw)
  {
    CountAfterWrite(level, y, x, glyph);
  }
}
