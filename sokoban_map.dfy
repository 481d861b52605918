/**
 * The Sokoban Map object: the terrain rows the parser appends to, its cursor, the entity list
 * and the colour -> worker table. The entities are values in the `entities` field; a Python
 * entity object is its index in that list (the worker table holds such indices, as the
 * Python table holds the same objects as the list). The entity methods (move, push, pull and
 * their checks) are methods of the map here, on the entity with the given index.
 */
module SokobanMaps {
  import opened SokobanBoards

  /** Appends the terrain glyph `t` to the last row, as `grid[-1].append(t)`. */
  function AppendToLastRow(g: Grid, t: char): (r: Grid)
    requires |g| > 0
    ensures |r| == |g| && r[..|g| - 1] == g[..|g| - 1] && r[|g| - 1] == g[|g| - 1] + [t]
  {
    g[|g| - 1 := g[|g| - 1] + [t]]
  }

  /** The parser's cursor stands after the last cell of the last row (column 0 of row -1 before any row). */
  predicate CursorAtEnd(b: Board)
  {
    b.currentY == |b.grid| - 1 &&
    b.currentX == (if b.grid == [] then 0 else |b.grid[|b.grid| - 1]|)
  }

  class Map {
    var grid: Grid
    var currentX: int
    var currentY: int
    var entities: seq<Entity>
    var workers: map<Color, nat>

    function Snapshot(): Board
      reads this
    {
      Board(grid, currentX, currentY, entities, workers)
    }

    /** The cursor sits after the last cell of the last row, and the worker table names workers. */
    ghost predicate Valid()
      reads this
    {
      CursorAtEnd(Snapshot()) && WorkersValid(Snapshot())
    }

    /** An empty map, before the first row: the cursor at column 0 of row -1. */
    constructor ()
      ensures Valid()
      ensures Snapshot() == Board([], 0, -1, [], map[])
    {
      grid := [];
      currentX := 0;
      currentY := -1;
      entities := [];
      workers := map[];
    }

    method AddFloor()
      requires Valid() && |grid| > 0
      modifies this`grid, this`currentX
      ensures Valid()
      ensures grid == AppendToLastRow(old(grid), ' ') && currentX == old(currentX) + 1
    {
      grid := AppendToLastRow(grid, ' ');
      currentX := currentX + 1;
    }

    method AddWall()
      requires Valid() && |grid| > 0
      modifies this`grid, this`currentX
      ensures Valid()
      ensures grid == AppendToLastRow(old(grid), '#') && currentX == old(currentX) + 1
    {
      grid := AppendToLastRow(grid, '#');
      currentX := currentX + 1;
    }

    method AddDock()
      requires Valid() && |grid| > 0
      modifies this`grid, this`currentX
      ensures Valid()
      ensures grid == AppendToLastRow(old(grid), '.') && currentX == old(currentX) + 1
    {
      grid := AppendToLastRow(grid, '.');
      currentX := currentX + 1;
    }

    /** Starts a new, empty row and moves the cursor to its first column. */
    method NextRow()
      requires Valid()
      modifies this`grid, this`currentX, this`currentY
      ensures Valid()
      ensures grid == old(grid) + [[]] && currentX == 0 && currentY == old(currentY) + 1
    {
      grid := grid + [[]];
      currentX := 0;
      currentY := currentY + 1;
    }

    /** Appends a worker at the cursor and makes it the worker of its colour. */
    method AddWorker(color: Color)
      requires Valid() && |grid| > 0
      modifies this`entities, this`workers
      ensures Valid()
      ensures entities == old(entities) + [Entity(Worker, currentX, currentY, color)]
      ensures workers == old(workers)[color := |old(entities)|]
    {
      entities := entities + [Entity(Worker, currentX, currentY, color)];
      workers := workers[color := |entities| - 1];
    }

    /** Appends a box at the cursor. */
    method AddBox(color: Color)
      requires Valid() && |grid| > 0
      modifies this`entities
      ensures Valid()
      ensures entities == old(entities) + [Entity(Box, currentX, currentY, color)]
    {
      entities := entities + [Entity(Box, currentX, currentY, color)];
    }

    /** Map.render: paints every entity over a copy of the terrain; the map itself is not changed. */
    method Render() returns (r: Result<Grid>)
      ensures r == SokobanBoards.Render(Snapshot())
    {
      var g := grid;
      var i := 0;
      while i < |entities|
        invariant 0 <= i <= |entities|
        invariant RenderFrom(g, entities[i..]) == RenderFrom(grid, entities)
      {
        var e := entities[i];
        assert entities[i..][1..] == entities[i + 1..];
        if !InGrid(g, e.x, e.y) {
          return Err(IndexError);
        }
        g := Paint(g, e);
        i := i + 1;
      }
      return Ok(g);
    }

    /** Map.is_completed: false at the first box off a dock, true when there is none. */
    method IsCompleted() returns (r: Result<bool>)
      ensures r == SokobanBoards.IsCompleted(Snapshot())
    {
      var i := 0;
      while i < |entities|
        invariant 0 <= i <= |entities|
        invariant IsCompletedFrom(grid, entities[i..]) == IsCompletedFrom(grid, entities)
      {
        var e := entities[i];
        assert entities[i..][1..] == entities[i + 1..];
        if e.kind == Box {
          if !InGrid(grid, e.x, e.y) {
            return Err(IndexError);
          }
          if grid[e.y][e.x] != '.' {
            return Ok(false);
          }
        }
        i := i + 1;
      }
      return Ok(true);
    }

    /** Map.get_worker: the worker of the colour, or KeyError. */
    method GetWorker(color: Color) returns (r: Result<nat>)
      requires Valid()
      ensures color in workers <==> r.Ok?
      ensures r.Ok? ==>
        r.value == workers[color] && r.value < |entities| &&
        entities[r.value].kind == Worker && entities[r.value].color == color
      ensures r.Err? ==> r.failure == KeyError
    {
      if color in workers {
        return Ok(workers[color]);
      }
      return Err(KeyError);
    }

    /** Map.get_box: the first box on (x, y). */
    method GetBox(x: int, y: int) returns (r: Option<nat>)
      ensures r == SokobanBoards.GetBox(entities, x, y)
    {
      var i := 0;
      while i < |entities|
        invariant 0 <= i <= |entities|
        invariant forall k :: 0 <= k < i ==> !IsBoxAt(entities[k], x, y)
      {
        if entities[i].kind == Box && entities[i].x == x && entities[i].y == y {
          return Some(i);
        }
        i := i + 1;
      }
      return None;
    }

    /** Entity.can_move for an entity on (x, y): inside the bounds, and a passable rendered glyph. */
    method CanMove(x: int, y: int, dx: int, dy: int) returns (r: Result<bool>)
      ensures r == SokobanBoards.CanMove(Snapshot(), x, y, dx, dy)
    {
      var tx := x + dx;
      var ty := y + dy;
      if currentX > tx && currentY + 1 > ty && tx >= 0 && ty >= 0 {
        var rendered := Render();
        match rendered {
          case Err(f) =>
            r := Err(f);
          case Ok(g) =>
            if ty < |g| && tx < |g[ty]| {
              r := Ok(g[ty][tx] !in Impassable);
            } else {
              r := Err(IndexError);
            }
        }
      } else {
        r := Ok(false);
      }
    }

    /** Worker.can_push for entity `i`. */
    method CanPush(i: nat, dx: int, dy: int) returns (r: Result<Check>)
      requires i < |entities|
      ensures r == SokobanBoards.CanPush(Snapshot(), entities[i], dx, dy)
    {
      var w := entities[i];
      var box := GetBox(w.x + dx, w.y + dy);
      match box {
        case None =>
          r := Ok(Check(false, None));
        case Some(j) =>
          if entities[j].color != w.color {
            r := Ok(Check(false, Some(j)));
          } else {
            var can := CanMove(entities[j].x, entities[j].y, dx, dy);
            match can {
              case Err(f) => r := Err(f);
              case Ok(c) => r := Ok(Check(c, Some(j)));
            }
          }
      }
    }

    /** Worker.can_pull for entity `i`: the box is looked for behind the worker. */
    method CanPull(i: nat, dx: int, dy: int) returns (r: Result<Check>)
      requires i < |entities|
      ensures r == SokobanBoards.CanPull(Snapshot(), entities[i], dx, dy)
    {
      var w := entities[i];
      var box := GetBox(w.x - dx, w.y - dy);
      match box {
        case None =>
          r := Ok(Check(false, None));
        case Some(j) =>
          if entities[j].color != w.color {
            r := Ok(Check(false, None));
          } else {
            var can := CanMove(w.x, w.y, dx, dy);
            match can {
              case Err(f) => r := Err(f);
              case Ok(c) => r := Ok(Check(c, Some(j)));
            }
          }
      }
    }

    /** Entity.move for entity `i`: steps when it can, and tells whether it did. */
    method Move(i: nat, dx: int, dy: int) returns (r: Result<bool>)
      requires i < |entities|
      modifies this`entities
      ensures Relocated(old(Snapshot()), Snapshot())
      ensures var f := MoveEntity(old(Snapshot()), i, dx, dy);
        if f.Ok? then r == Ok(f.value.0) && Snapshot() == f.value.1
        else r == Err(f.failure) && entities == old(entities)
    {
      var e := entities[i];
      var can := CanMove(e.x, e.y, dx, dy);
      match can {
        case Err(f) =>
          r := Err(f);
        case Ok(c) =>
          if c {
            entities := entities[i := Entity(e.kind, e.x + dx, e.y + dy, e.color)];
          }
          r := Ok(c);
      }
    }

    /** Worker.push for entity `i`: when allowed, the box steps, then the worker moves. */
    method Push(i: nat, dx: int, dy: int) returns (r: Result<()>)
      requires i < |entities|
      modifies this`entities
      ensures Relocated(old(Snapshot()), Snapshot())
      ensures var f := SokobanBoards.Push(old(Snapshot()), i, dx, dy);
        if f.Ok? then r == Ok(()) && Snapshot() == f.value else r == Err(f.failure)
    {
      ghost var b0 := Snapshot();
      var check := CanPush(i, dx, dy);
      match check {
        case Err(f) =>
          r := Err(f);
        case Ok(c) =>
          if c.ok {
            var j := c.box.value;
            entities := entities[j := Shift(entities[j], dx, dy)];
            ghost var b1 := Snapshot();
            assert b1 == b0.(entities := b0.entities[j := Shift(b0.entities[j], dx, dy)]);
            var moved := Move(i, dx, dy);
            assert SokobanBoards.Push(b0, i, dx, dy) ==
              if MoveEntity(b1, i, dx, dy).Ok? then Ok(MoveEntity(b1, i, dx, dy).value.1)
              else Err(MoveEntity(b1, i, dx, dy).failure);
            r := if moved.Ok? then Ok(()) else Err(moved.failure);
          } else {
            r := Ok(());
          }
      }
    }

    /** Worker.pull for entity `i`: when allowed, the box steps onto the worker's cell, then the worker moves. */
    method Pull(i: nat, dx: int, dy: int) returns (r: Result<()>)
      requires i < |entities|
      modifies this`entities
      ensures Relocated(old(Snapshot()), Snapshot())
      ensures var f := SokobanBoards.Pull(old(Snapshot()), i, dx, dy);
        if f.Ok? then r == Ok(()) && Snapshot() == f.value else r == Err(f.failure)
    {
      ghost var b0 := Snapshot();
      var check := CanPull(i, dx, dy);
      match check {
        case Err(f) =>
          r := Err(f);
        case Ok(c) =>
          if c.ok {
            var j := c.box.value;
            entities := entities[j := Shift(entities[j], dx, dy)];
            ghost var b1 := Snapshot();
            assert b1 == b0.(entities := b0.entities[j := Shift(b0.entities[j], dx, dy)]);
            var moved := Move(i, dx, dy);
            assert SokobanBoards.Pull(b0, i, dx, dy) ==
              if MoveEntity(b1, i, dx, dy).Ok? then Ok(MoveEntity(b1, i, dx, dy).value.1)
              else Err(MoveEntity(b1, i, dx, dy).failure);
            r := if moved.Ok? then Ok(()) else Err(moved.failure);
          } else {
            r := Ok(());
          }
      }
    }
  }
}
