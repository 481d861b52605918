/**
 * What the moves of the Sokoban board do on a well-formed board: a rectangular terrain of
 * floor, wall and dock, every entity inside it on a cell of its own and off the walls, and a
 * worker index that names workers. On such a board no move raises, every move keeps the board
 * well formed, and pushes and pulls move exactly the worker and its box.
 */
module SokobanMoves {
  import opened SokobanBoards

  /** The board a parsed level is when its rows are of one length and hold known glyphs only. */
  predicate Tidy(b: Board)
  {
    |b.grid| == Height(b) &&
    (forall y :: 0 <= y < |b.grid| ==> |b.grid[y]| == Width(b)) &&
    (forall y, x :: 0 <= y < |b.grid| && 0 <= x < |b.grid[y]| ==> b.grid[y][x] in {' ', '#', '.'}) &&
    (forall k :: 0 <= k < |b.entities| ==>
      InBounds(b, b.entities[k].x, b.entities[k].y) && b.grid[b.entities[k].y][b.entities[k].x] != '#') &&
    (forall k, l :: 0 <= k < |b.entities| && 0 <= l < |b.entities| && k != l ==>
      !At(b.entities[l], b.entities[k].x, b.entities[k].y)) &&
    WorkersValid(b)
  }

  /** A cell an entity may step onto: inside the board, not a wall, and nobody on it. */
  predicate Free(b: Board, x: int, y: int)
  {
    InBounds(b, x, y) && InGrid(b.grid, x, y) && b.grid[y][x] != '#' && !Occupied(b.entities, x, y)
  }

  lemma TidyRenders(b: Board)
    requires Tidy(b)
    ensures Render(b).Ok?
  {
    RenderSucceedsIff(b.grid, b.entities);
  }

  /** On a tidy board `can_move` never raises and answers whether the target cell is free. */
  lemma TidyCanMove(b: Board, x: int, y: int, dx: int, dy: int)
    requires Tidy(b)
    ensures CanMove(b, x, y, dx, dy) == Ok(Free(b, x + dx, y + dy))
  {
    if InBounds(b, x + dx, y + dy) {
      TidyRenders(b);
      CanMoveIffFree(b, x, y, dx, dy);
    }
  }

  /** Moving one entity onto a free cell keeps the board tidy. */
  lemma ShiftKeepsTidy(b: Board, j: nat, dx: int, dy: int)
    requires Tidy(b) && j < |b.entities|
    requires Free(b, b.entities[j].x + dx, b.entities[j].y + dy)
    ensures Tidy(b.(entities := b.entities[j := Shift(b.entities[j], dx, dy)]))
  {
    var es := b.entities;
    var es' := es[j := Shift(es[j], dx, dy)];
    forall k, l | 0 <= k < |es'| && 0 <= l < |es'| && k != l
      ensures !At(es'[l], es'[k].x, es'[k].y)
    {
      if k == j {
        assert !At(es[l], es[j].x + dx, es[j].y + dy);
      } else if l == j {
        assert !At(es[k], es[j].x + dx, es[j].y + dy);
      }
    }
  }

  /** Entity.move on a tidy board: no exception, a step exactly when the target is free, and a tidy result. */
  lemma TidyMoveEntity(b: Board, i: nat, dx: int, dy: int)
    requires Tidy(b) && i < |b.entities|
    ensures var free := Free(b, b.entities[i].x + dx, b.entities[i].y + dy);
      MoveEntity(b, i, dx, dy) ==
        Ok((free, if free then b.(entities := b.entities[i := Shift(b.entities[i], dx, dy)]) else b))
    ensures MoveEntity(b, i, dx, dy).Ok? && Tidy(MoveEntity(b, i, dx, dy).value.1)
  {
    TidyCanMove(b, b.entities[i].x, b.entities[i].y, dx, dy);
    if Free(b, b.entities[i].x + dx, b.entities[i].y + dy) {
      ShiftKeepsTidy(b, i, dx, dy);
    }
  }

  /** On a tidy board `can_push` never raises: it allows a push of the box ahead when that box has the worker's colour and the cell behind it is free. */
  lemma TidyCanPush(b: Board, w: Entity, dx: int, dy: int)
    requires Tidy(b)
    ensures var j := GetBox(b.entities, w.x + dx, w.y + dy);
      CanPush(b, w, dx, dy) ==
        Ok(Check(j.Some? && b.entities[j.value].color == w.color && Free(b, w.x + 2 * dx, w.y + 2 * dy), j))
  {
    var j := GetBox(b.entities, w.x + dx, w.y + dy);
    if j.Some? && b.entities[j.value].color == w.color {
      var box := b.entities[j.value];
      assert box.x == w.x + dx && box.y == w.y + dy;
      TidyCanMove(b, box.x, box.y, dx, dy);
      assert box.x + dx == w.x + 2 * dx && box.y + dy == w.y + 2 * dy;
    }
  }

  /** When box `j` steps onto a free cell, the cell it left is free on a tidy board. */
  lemma VacatedCellIsFree(b: Board, j: nat, dx: int, dy: int)
    requires Tidy(b) && j < |b.entities|
    requires Free(b, b.entities[j].x + dx, b.entities[j].y + dy)
    ensures var b1 := b.(entities := b.entities[j := Shift(b.entities[j], dx, dy)]);
      Tidy(b1) && Free(b1, b.entities[j].x, b.entities[j].y)
  {
    ShiftKeepsTidy(b, j, dx, dy);
    var box := b.entities[j];
    var b1 := b.(entities := b.entities[j := Shift(box, dx, dy)]);
    forall k | 0 <= k < |b1.entities|
      ensures !At(b1.entities[k], box.x, box.y)
    {
      if k != j {
        assert b1.entities[k] == b.entities[k];
      }
    }
  }

  /** Box `j`, ahead of worker `i`, steps onto a free cell; then the worker steps onto the cell the box left, and the board stays tidy. */
  lemma PushStepsBoth(b: Board, i: nat, j: nat, dx: int, dy: int)
    requires Tidy(b) && i < |b.entities| && j < |b.entities| && i != j
    requires b.entities[j].x == b.entities[i].x + dx && b.entities[j].y == b.entities[i].y + dy
    requires Free(b, b.entities[j].x + dx, b.entities[j].y + dy)
    ensures var b1 := b.(entities := b.entities[j := Shift(b.entities[j], dx, dy)]);
      MoveEntity(b1, i, dx, dy) == Ok((true, b1.(entities := b1.entities[i := Shift(b.entities[i], dx, dy)]))) &&
      Tidy(b1.(entities := b1.entities[i := Shift(b.entities[i], dx, dy)]))
  {
    VacatedCellIsFree(b, j, dx, dy);
    var b1 := b.(entities := b.entities[j := Shift(b.entities[j], dx, dy)]);
    assert b1.entities[i] == b.entities[i];
    TidyMoveEntity(b1, i, dx, dy);
  }

  /**
   * Worker.push on a tidy board never raises. When `can_push` allows it, the box and then the
   * worker step by (dx, dy), the worker onto the cell the box left; otherwise nothing changes.
   */
  lemma TidyPush(b: Board, i: nat, dx: int, dy: int)
    requires Tidy(b) && i < |b.entities| && b.entities[i].kind == Worker
    ensures CanPush(b, b.entities[i], dx, dy).Ok?
    ensures var c := CanPush(b, b.entities[i], dx, dy).value;
      Push(b, i, dx, dy) ==
        Ok(if c.ok then
             b.(entities := b.entities[c.box.value := Shift(b.entities[c.box.value], dx, dy)]
                                      [i := Shift(b.entities[i], dx, dy)])
           else b)
    ensures Push(b, i, dx, dy).Ok? && Tidy(Push(b, i, dx, dy).value)
  {
    var w := b.entities[i];
    TidyCanPush(b, w, dx, dy);
    var c := CanPush(b, w, dx, dy).value;
    if c.ok {
      PushStepsBoth(b, i, c.box.value, dx, dy);
    }
  }

  /** On a tidy board `can_pull` never raises: it allows a pull of the box behind when that box has the worker's colour and the cell ahead is free. */
  lemma TidyCanPull(b: Board, w: Entity, dx: int, dy: int)
    requires Tidy(b)
    ensures var j := GetBox(b.entities, w.x - dx, w.y - dy);
      CanPull(b, w, dx, dy) ==
        Ok(if j.Some? && b.entities[j.value].color == w.color then Check(Free(b, w.x + dx, w.y + dy), j)
           else Check(false, None))
  {
    TidyCanMove(b, w.x, w.y, dx, dy);
  }

  /** After the box behind steps onto the worker's cell, the worker's target is still free. */
  lemma TargetStaysFree(b: Board, i: nat, j: nat, dx: int, dy: int)
    requires Tidy(b) && i < |b.entities| && j < |b.entities| && i != j
    requires b.entities[j].x + dx == b.entities[i].x && b.entities[j].y + dy == b.entities[i].y
    requires Free(b, b.entities[i].x + dx, b.entities[i].y + dy)
    ensures var b1 := b.(entities := b.entities[j := Shift(b.entities[j], dx, dy)]);
      CanMove(b1, b.entities[i].x, b.entities[i].y, dx, dy) == Ok(true)
  {
    var w := b.entities[i];
    var b1 := b.(entities := b.entities[j := Shift(b.entities[j], dx, dy)]);
    forall k | 0 <= k < |b1.entities|
      ensures !At(b1.entities[k], w.x + dx, w.y + dy)
    {
      if k == j {
        assert !At(b.entities[i], w.x + dx, w.y + dy);
      } else {
        assert b1.entities[k] == b.entities[k];
      }
    }
    RenderSucceedsIff(b.grid, b.entities);
    RenderSucceedsIff(b1.grid, b1.entities);
    CanMoveIffFree(b1, w.x, w.y, dx, dy);
  }

  /**
   * Worker.pull on a tidy board never raises. When `can_pull` allows it, the box steps onto
   * the worker's cell and the worker steps on by (dx, dy); otherwise nothing changes.
   */
  lemma TidyPull(b: Board, i: nat, dx: int, dy: int)
    requires Tidy(b) && i < |b.entities| && b.entities[i].kind == Worker
    ensures CanPull(b, b.entities[i], dx, dy).Ok?
    ensures var c := CanPull(b, b.entities[i], dx, dy).value;
      Pull(b, i, dx, dy) ==
        Ok(if c.ok then
             b.(entities := b.entities[c.box.value := Shift(b.entities[c.box.value], dx, dy)]
                                      [i := Shift(b.entities[i], dx, dy)])
           else b)
    ensures var c := CanPull(b, b.entities[i], dx, dy).value;
      c.ok ==> At(Pull(b, i, dx, dy).value.entities[c.box.value], b.entities[i].x, b.entities[i].y)
    ensures Pull(b, i, dx, dy).Ok? && Tidy(Pull(b, i, dx, dy).value)
  {
    var w := b.entities[i];
    TidyCanPull(b, w, dx, dy);
    var c := CanPull(b, w, dx, dy).value;
    if c.ok {
      var j := c.box.value;
      var box := b.entities[j];
      var b1 := b.(entities := b.entities[j := Shift(box, dx, dy)]);
      assert b1.entities[i] == w;
      TargetStaysFree(b, i, j, dx, dy);
      var b2 := b1.(entities := b1.entities[i := Shift(w, dx, dy)]);
      assert MoveEntity(b1, i, dx, dy) == Ok((true, b2));
      PulledBoardIsTidy(b, i, j, dx, dy);
    }
  }

  /** The board after a successful pull, with the box on the worker's old cell, is tidy. */
  lemma PulledBoardIsTidy(b: Board, i: nat, j: nat, dx: int, dy: int)
    requires Tidy(b) && i < |b.entities| && j < |b.entities| && i != j
    requires b.entities[j].x + dx == b.entities[i].x && b.entities[j].y + dy == b.entities[i].y
    requires Free(b, b.entities[i].x + dx, b.entities[i].y + dy)
    ensures Tidy(b.(entities := b.entities[j := Shift(b.entities[j], dx, dy)][i := Shift(b.entities[i], dx, dy)]))
  {
    // The worker steps first, onto the free cell; the box then steps onto the cell it left.
    var es := b.entities;
    VacatedCellIsFree(b, i, dx, dy);
    var b1 := b.(entities := es[i := Shift(es[i], dx, dy)]);
    assert b1.entities[j] == es[j];
    ShiftKeepsTidy(b1, j, dx, dy);
    assert b1.entities[j := Shift(es[j], dx, dy)] == es[j := Shift(es[j], dx, dy)][i := Shift(es[i], dx, dy)];
  }

  /**
   * game.move on a tidy board with a worker of the colour never raises and keeps the board
   * tidy. A pull only pulls; otherwise the worker steps when the cell ahead is free and pushes
   * only when it is not.
   */
  lemma TidyGameMove(b: Board, color: Color, dx: int, dy: int, pull: bool)
    requires Tidy(b) && color in b.workers
    ensures GameMove(b, color, dx, dy, pull).Ok? && Tidy(GameMove(b, color, dx, dy, pull).value)
    ensures var i := b.workers[color];
      if pull then GameMove(b, color, dx, dy, pull) == Pull(b, i, dx, dy)
      else if Free(b, b.entities[i].x + dx, b.entities[i].y + dy) then
        GameMove(b, color, dx, dy, pull) == Ok(b.(entities := b.entities[i := Shift(b.entities[i], dx, dy)]))
      else GameMove(b, color, dx, dy, pull) == Push(b, i, dx, dy)
  {
    var i := b.workers[color];
    if pull {
      TidyPull(b, i, dx, dy);
    } else {
      TidyMoveEntity(b, i, dx, dy);
      TidyPush(b, i, dx, dy);
    }
  }
}
