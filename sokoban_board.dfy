/**
 * The two-colour Sokoban board as a value: the terrain grid, the cursor the parser leaves
 * behind (which also serves as width and height), the workers and boxes, and the colour ->
 * worker index. Everything here is read-only: the legality checks, the overlay of entities
 * on the terrain, the goal test, and the effect of a move on a snapshot of the board.
 */
module SokobanBoards {

  datatype Option<T> = None | Some(value: T)

  datatype Color = Red | Blue

  datatype Kind = Worker | Box

  /** A worker or a box, on column `x` and row `y`. */
  datatype Entity = Entity(kind: Kind, x: nat, y: nat, color: Color)

  /** Rows of one-character cells. */
  type Grid = seq<seq<char>>

  /**
   * A snapshot of a Map: the terrain, the parser's cursor (`currentX` is the width,
   * `currentY + 1` the height), the entities in insertion order, and for each colour the
   * index of its worker among the entities.
   */
  datatype Board = Board(grid: Grid, currentX: int, currentY: int, entities: seq<Entity>, workers: map<Color, nat>)

  /** The Python exceptions the board operations can raise. */
  datatype Failure = IndexError | KeyError | AssertionError

  datatype Result<T> = Ok(value: T) | Err(failure: Failure)

  /** What a legality check answers, together with the box it found (an index into the entities). */
  datatype Check = Check(ok: bool, box: Option<nat>)

  /** The glyphs an entity may not move onto. */
  const Impassable: set<char> := {'#', '*', '$', '@', 'a', '+', '-', 'S', '|', '"', ':'}

  function Width(b: Board): int
  {
    b.currentX
  }

  function Height(b: Board): int
  {
    b.currentY + 1
  }

  predicate InGrid(g: Grid, x: int, y: int)
  {
    0 <= y < |g| && 0 <= x < |g[y]|
  }

  predicate InBounds(b: Board, x: int, y: int)
  {
    0 <= x < Width(b) && 0 <= y < Height(b)
  }

  predicate At(e: Entity, x: int, y: int)
  {
    e.x == x && e.y == y
  }

  predicate IsBoxAt(e: Entity, x: int, y: int)
  {
    e.kind == Box && At(e, x, y)
  }

  predicate Occupied(es: seq<Entity>, x: int, y: int)
  {
    exists k :: 0 <= k < |es| && At(es[k], x, y)
  }

  predicate SameShape(a: Grid, b: Grid)
  {
    |a| == |b| && forall y :: 0 <= y < |a| ==> |a[y]| == |b[y]|
  }

  /** The glyph an entity draws over the glyph `under` it: a dock variant on '.', the plain one otherwise. */
  function Glyph(e: Entity, under: char): (c: char)
    ensures c in Impassable
    ensures e.kind == Worker <==> c in {'@', 'a', '+', '-'}
    ensures c in {'+', '-', '*'} <==> under == '.'
  {
    match e.kind
    case Worker =>
      if under == '.' then (if e.color == Blue then '+' else '-')
      else (if e.color == Blue then '@' else 'a')
    case Box =>
      if under == '.' then '*'
      else (if e.color == Blue then '|' else 'S')
  }

  function Paint(g: Grid, e: Entity): (r: Grid)
    requires InGrid(g, e.x, e.y)
    ensures SameShape(r, g)
  {
    g[e.y := g[e.y][e.x := Glyph(e, g[e.y][e.x])]]
  }

  /** Draws the entities one after the other; an entity outside its row raises IndexError. */
  function RenderFrom(g: Grid, es: seq<Entity>): (r: Result<Grid>)
    ensures r.Ok? ==> SameShape(r.value, g)
    ensures r.Err? ==> r.failure == IndexError
    decreases |es|
  {
    if es == [] then Ok(g)
    else if InGrid(g, es[0].x, es[0].y) then RenderFrom(Paint(g, es[0]), es[1..])
    else Err(IndexError)
  }

  /** Map.render: the terrain overlaid with every entity, computed afresh on a copy. */
  function Render(b: Board): (r: Result<Grid>)
    ensures r.Ok? ==> SameShape(r.value, b.grid)
    ensures r.Err? ==> r.failure == IndexError
  {
    RenderFrom(b.grid, b.entities)
  }

  /** Rendering fails exactly when some entity lies outside its row of the terrain. */
  lemma {:induction false} RenderSucceedsIff(g: Grid, es: seq<Entity>)
    ensures RenderFrom(g, es).Ok? <==> forall k :: 0 <= k < |es| ==> InGrid(g, es[k].x, es[k].y)
    decreases |es|
  {
    if es != [] && InGrid(g, es[0].x, es[0].y) {
      var g' := Paint(g, es[0]);
      RenderSucceedsIff(g', es[1..]);
      assert forall k :: 0 <= k < |es[1..]| ==> (InGrid(g', es[1..][k].x, es[1..][k].y) <==> InGrid(g, es[k + 1].x, es[k + 1].y));
    }
  }

  /**
   * A rendered cell shows the terrain when no entity stands on it, and an impassable glyph
   * when one does (or when the terrain itself is impassable).
   */
  lemma {:induction false} RenderedCell(g: Grid, es: seq<Entity>, x: int, y: int)
    requires RenderFrom(g, es).Ok?
    requires InGrid(g, x, y)
    ensures Occupied(es, x, y) || g[y][x] in Impassable ==> RenderFrom(g, es).value[y][x] in Impassable
    ensures !Occupied(es, x, y) ==> RenderFrom(g, es).value[y][x] == g[y][x]
    decreases |es|
  {
    if es != [] {
      var g' := Paint(g, es[0]);
      RenderedCell(g', es[1..], x, y);
      if Occupied(es[1..], x, y) {
        var k :| 0 <= k < |es[1..]| && At(es[1..][k], x, y);
        assert At(es[k + 1], x, y);
      }
      if Occupied(es, x, y) && !At(es[0], x, y) {
        var k :| 0 <= k < |es| && At(es[k], x, y);
        assert At(es[1..][k - 1], x, y);
      }
    }
  }

  /**
   * Entity.can_move: the target lies in [0, width) x [0, height) and its rendered glyph is not
   * impassable. The render is evaluated only for a target inside those bounds.
   */
  function CanMove(b: Board, x: int, y: int, dx: int, dy: int): (r: Result<bool>)
    ensures r == Ok(true) ==> InBounds(b, x + dx, y + dy)
    ensures !InBounds(b, x + dx, y + dy) ==> r == Ok(false)
    ensures r.Err? ==> r.failure == IndexError
  {
    var tx := x + dx;
    var ty := y + dy;
    if Width(b) > tx && Height(b) > ty && tx >= 0 && ty >= 0 then
      match Render(b)
      case Err(f) => Err(f)
      case Ok(r) => if ty < |r| && tx < |r[ty]| then Ok(r[ty][tx] !in Impassable) else Err(IndexError)
    else Ok(false)
  }

  /**
   * Where the terrain holds the target cell and the board renders, `can_move` is the
   * reference notion of a free cell: inside the bounds, passable terrain, nobody on it.
   */
  lemma CanMoveIffFree(b: Board, x: int, y: int, dx: int, dy: int)
    requires Render(b).Ok?
    requires InGrid(b.grid, x + dx, y + dy)
    ensures CanMove(b, x, y, dx, dy) ==
      Ok(InBounds(b, x + dx, y + dy) && !Occupied(b.entities, x + dx, y + dy) && b.grid[y + dy][x + dx] !in Impassable)
  {
    RenderedCell(b.grid, b.entities, x + dx, y + dy);
  }

  /** Map.get_box: the first box standing on (x, y), if any. */
  function GetBox(es: seq<Entity>, x: int, y: int): (r: Option<nat>)
    ensures r.Some? ==> r.value < |es| && IsBoxAt(es[r.value], x, y)
    ensures r.Some? ==> forall k :: 0 <= k < r.value ==> !IsBoxAt(es[k], x, y)
    ensures r.None? <==> forall k :: 0 <= k < |es| ==> !IsBoxAt(es[k], x, y)
  {
    if es == [] then None
    else if IsBoxAt(es[0], x, y) then Some(0)
    else match GetBox(es[1..], x, y)
      case None => None
      case Some(k) => Some(k + 1)
  }

  /**
   * Worker.can_push: a push needs a box directly ahead, of the worker's colour, that can
   * itself move one step further. A box of the other colour is reported, but refused.
   */
  function CanPush(b: Board, w: Entity, dx: int, dy: int): (r: Result<Check>)
    ensures r.Ok? ==> r.value.box == GetBox(b.entities, w.x + dx, w.y + dy)
    ensures GetBox(b.entities, w.x + dx, w.y + dy).None? ==> r == Ok(Check(false, None))
    ensures r.Ok? && r.value.ok <==>
      GetBox(b.entities, w.x + dx, w.y + dy).Some? &&
      b.entities[GetBox(b.entities, w.x + dx, w.y + dy).value].color == w.color &&
      CanMove(b, w.x + dx, w.y + dy, dx, dy) == Ok(true)
    ensures r.Ok? && r.value.ok ==> r.value.box.Some?
    ensures r.Err? ==> r.failure == IndexError
  {
    match GetBox(b.entities, w.x + dx, w.y + dy)
    case None => Ok(Check(false, None))
    case Some(j) =>
      if b.entities[j].color != w.color then Ok(Check(false, Some(j)))
      else match CanMove(b, b.entities[j].x, b.entities[j].y, dx, dy)
        case Err(f) => Err(f)
        case Ok(c) => Ok(Check(c, Some(j)))
  }

  /** The found box when it has colour `c`, and none otherwise. */
  function SameColourBox(b: Board, j: Option<nat>, c: Color): Option<nat>
    requires j.Some? ==> j.value < |b.entities|
  {
    if j.Some? && b.entities[j.value].color == c then j else None
  }

  /**
   * Worker.can_pull: a pull needs a box of the worker's colour directly behind the worker and
   * room for the worker ahead. A box of the other colour is not reported.
   */
  function CanPull(b: Board, w: Entity, dx: int, dy: int): (r: Result<Check>)
    ensures r.Ok? ==> r.value.box == SameColourBox(b, GetBox(b.entities, w.x - dx, w.y - dy), w.color)
    ensures r.Ok? && r.value.box.None? ==> !r.value.ok
    ensures r.Ok? && r.value.ok <==>
      GetBox(b.entities, w.x - dx, w.y - dy).Some? &&
      b.entities[GetBox(b.entities, w.x - dx, w.y - dy).value].color == w.color &&
      CanMove(b, w.x, w.y, dx, dy) == Ok(true)
    ensures r.Err? ==> r.failure == IndexError
  {
    match GetBox(b.entities, w.x - dx, w.y - dy)
    case None => Ok(Check(false, None))
    case Some(j) =>
      if b.entities[j].color != w.color then Ok(Check(false, None))
      else match CanMove(b, w.x, w.y, dx, dy)
        case Err(f) => Err(f)
        case Ok(c) => Ok(Check(c, Some(j)))
  }

  /** The entity moved by (dx, dy). */
  function Shift(e: Entity, dx: int, dy: int): Entity
    requires e.x + dx >= 0 && e.y + dy >= 0
  {
    e.(x := e.x + dx, y := e.y + dy)
  }

  /** Only entity positions differ: terrain, cursor, worker index, and every entity's kind and colour are kept. */
  predicate Relocated(b: Board, b': Board)
  {
    b'.grid == b.grid && b'.currentX == b.currentX && b'.currentY == b.currentY &&
    b'.workers == b.workers && |b'.entities| == |b.entities| &&
    forall k :: 0 <= k < |b.entities| ==>
      b'.entities[k].kind == b.entities[k].kind && b'.entities[k].color == b.entities[k].color
  }

  /** Entity.move on entity `i`: it steps by (dx, dy) when it can move, and whether it did is returned. */
  function MoveEntity(b: Board, i: nat, dx: int, dy: int): (r: Result<(bool, Board)>)
    requires i < |b.entities|
    ensures r.Ok? ==> Relocated(b, r.value.1)
    ensures r.Ok? && !r.value.0 ==> r.value.1 == b
    ensures r.Ok? && r.value.0 ==>
      InBounds(b, b.entities[i].x + dx, b.entities[i].y + dy) &&
      r.value.1.entities == b.entities[i := Shift(b.entities[i], dx, dy)]
    ensures r.Err? <==> CanMove(b, b.entities[i].x, b.entities[i].y, dx, dy).Err?
  {
    var e := b.entities[i];
    match CanMove(b, e.x, e.y, dx, dy)
    case Err(f) => Err(f)
    case Ok(can) =>
      if can then Ok((true, b.(entities := b.entities[i := Shift(e, dx, dy)])))
      else Ok((false, b))
  }

  /** Worker.push: when the push is allowed, the box moves, then the worker tries to move. */
  function Push(b: Board, i: nat, dx: int, dy: int): (r: Result<Board>)
    requires i < |b.entities|
    ensures r.Ok? ==> Relocated(b, r.value)
    ensures CanPush(b, b.entities[i], dx, dy).Ok? && !CanPush(b, b.entities[i], dx, dy).value.ok ==> r == Ok(b)
  {
    match CanPush(b, b.entities[i], dx, dy)
    case Err(f) => Err(f)
    case Ok(c) =>
      if !c.ok then Ok(b)
      else
        var j := c.box.value;
        var b' := b.(entities := b.entities[j := Shift(b.entities[j], dx, dy)]);
        match MoveEntity(b', i, dx, dy)
        case Err(f) => Err(f)
        case Ok(moved) => Ok(moved.1)
  }

  /** Worker.pull: when the pull is allowed, the box moves onto the worker's cell, then the worker tries to move. */
  function Pull(b: Board, i: nat, dx: int, dy: int): (r: Result<Board>)
    requires i < |b.entities|
    ensures r.Ok? ==> Relocated(b, r.value)
    ensures CanPull(b, b.entities[i], dx, dy).Ok? && !CanPull(b, b.entities[i], dx, dy).value.ok ==> r == Ok(b)
  {
    match CanPull(b, b.entities[i], dx, dy)
    case Err(f) => Err(f)
    case Ok(c) =>
      if !c.ok then Ok(b)
      else
        var j := c.box.value;
        var b' := b.(entities := b.entities[j := Shift(b.entities[j], dx, dy)]);
        match MoveEntity(b', i, dx, dy)
        case Err(f) => Err(f)
        case Ok(moved) => Ok(moved.1)
  }

  /** Every colour of the worker index names a worker of that colour among the entities. */
  predicate WorkersValid(b: Board)
  {
    forall c :: c in b.workers ==>
      b.workers[c] < |b.entities| && b.entities[b.workers[c]].kind == Worker && b.entities[b.workers[c]].color == c
  }

  /** Relocating entities keeps the worker table naming workers, and relocations compose. */
  lemma RelocatedKeepsWorkers(b: Board, b': Board, b'': Board)
    requires Relocated(b, b') && Relocated(b', b'')
    ensures WorkersValid(b) ==> WorkersValid(b') && WorkersValid(b'')
    ensures Relocated(b, b'')
  {
  }

  /**
   * game.move: with `pull` only a pull is attempted; otherwise a plain move, and a push only
   * when that move did not happen. A colour without a worker raises KeyError.
   */
  function GameMove(b: Board, color: Color, dx: int, dy: int, pull: bool): (r: Result<Board>)
    requires WorkersValid(b)
    ensures r.Ok? ==> Relocated(b, r.value)
    ensures color !in b.workers <==> r == Err(KeyError)
  {
    if color !in b.workers then Err(KeyError)
    else
      var i := b.workers[color];
      if pull then Pull(b, i, dx, dy)
      else match MoveEntity(b, i, dx, dy)
        case Err(f) => Err(f)
        case Ok(moved) => if moved.0 then Ok(moved.1) else Push(b, i, dx, dy)
  }

  /** game.is_legal_move: the worker can step or push (pulling is not considered). */
  function GameIsLegalMove(b: Board, color: Color, dx: int, dy: int): (r: Result<bool>)
    requires WorkersValid(b)
    ensures color !in b.workers <==> r == Err(KeyError)
    ensures r == Ok(true) <==>
      color in b.workers &&
      (CanMove(b, b.entities[b.workers[color]].x, b.entities[b.workers[color]].y, dx, dy) == Ok(true) ||
       (CanMove(b, b.entities[b.workers[color]].x, b.entities[b.workers[color]].y, dx, dy) == Ok(false) &&
        CanPush(b, b.entities[b.workers[color]], dx, dy).Ok? && CanPush(b, b.entities[b.workers[color]], dx, dy).value.ok))
  {
    if color !in b.workers then Err(KeyError)
    else
      var w := b.entities[b.workers[color]];
      match CanMove(b, w.x, w.y, dx, dy)
      case Err(f) => Err(f)
      case Ok(can) =>
        if can then Ok(true)
        else match CanPush(b, w, dx, dy)
          case Err(f) => Err(f)
          case Ok(c) => Ok(c.ok)
  }

  /** Map.is_completed: every box stands on a dock; the first box off a dock answers early. */
  function IsCompletedFrom(g: Grid, es: seq<Entity>): (r: Result<bool>)
    ensures r.Err? ==> r.failure == IndexError
    decreases |es|
  {
    if es == [] then Ok(true)
    else if es[0].kind == Box then
      if !InGrid(g, es[0].x, es[0].y) then Err(IndexError)
      else if g[es[0].y][es[0].x] != '.' then Ok(false)
      else IsCompletedFrom(g, es[1..])
    else IsCompletedFrom(g, es[1..])
  }

  /** Map.is_completed: every box stands on a dock; a box off the terrain is an IndexError. */
  function IsCompleted(b: Board): (r: Result<bool>)
    ensures r.Err? ==> r.failure == IndexError
  {
    IsCompletedFrom(b.grid, b.entities)
  }

  /** A box on a dock: the terrain under it is '.'. */
  predicate Docked(g: Grid, e: Entity)
  {
    InGrid(g, e.x, e.y) && g[e.y][e.x] == '.'
  }

  /**
   * Where every box lies on the terrain, the goal test answers whether every box is on a
   * dock; with no boxes at all it holds vacuously.
   */
  lemma {:induction false} IsCompletedIff(g: Grid, es: seq<Entity>)
    requires forall k :: 0 <= k < |es| && es[k].kind == Box ==> InGrid(g, es[k].x, es[k].y)
    ensures IsCompletedFrom(g, es) == Ok(forall k :: 0 <= k < |es| && es[k].kind == Box ==> Docked(g, es[k]))
    decreases |es|
  {
    if es != [] {
      IsCompletedIff(g, es[1..]);
      assert forall k :: 0 < k < |es| ==> es[k] == es[1..][k - 1];
    }
  }

  /** With no boxes the goal test holds, whatever the terrain. */
  lemma {:induction false} NoBoxesIsCompleted(g: Grid, es: seq<Entity>)
    requires forall k :: 0 <= k < |es| ==> es[k].kind == Worker
    ensures IsCompletedFrom(g, es) == Ok(true)
    decreases |es|
  {
    if es != [] {
      NoBoxesIsCompleted(g, es[1..]);
    }
  }
}
