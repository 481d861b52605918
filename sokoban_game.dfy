/**
 * The `game` object of the Sokoban prototype: it builds a Map from a level given as rows of
 * glyphs (the generated-level path of its constructor), checks and performs the workers'
 * moves. The level-file reader is not part of this model; a level is handed over as rows.
 */
module SokobanGames {
  import opened SokobanBoards
  import opened SokobanMoves
  import opened SokobanMaps

  /** What one glyph stands for: perhaps an entity (kind and colour), and the terrain under it. */
  datatype Cell = Cell(entity: Option<(Kind, Color)>, terrain: char)

  /** The glyphs `parse_char` acts on, as written; any other glyph is skipped. */
  function Decode(c: string): (r: Option<Cell>)
    ensures r.Some? ==> r.value.terrain in {' ', '#', '.'}
    ensures r.Some? && r.value.entity.Some? ==> r.value.terrain != '#'
    ensures r.Some? ==> |c| == 1
  {
    if c == " " then Some(Cell(None, ' '))
    else if c == "#" then Some(Cell(None, '#'))
    else if c == "@" then Some(Cell(Some((Worker, Blue)), ' '))
    else if c == "a" then Some(Cell(Some((Worker, Red)), ' '))
    else if c == "." then Some(Cell(None, '.'))
    else if c == "*" then Some(Cell(Some((Box, Blue)), '.'))
    else if c == ":" then Some(Cell(Some((Box, Blue)), '.'))
    else if c == "\"" then Some(Cell(Some((Box, Red)), '.'))
    else if c == "$" then Some(Cell(Some((Box, Blue)), ' '))
    else if c == "S" then Some(Cell(Some((Box, Blue)), ' '))
    else if c == "|" then Some(Cell(Some((Box, Red)), ' '))
    else if c == "+" then Some(Cell(Some((Worker, Blue)), '.'))
    else if c == "-" then Some(Cell(Some((Worker, Red)), '.'))
    else None
  }

  /** game.is_valid_value: exactly the glyphs the parser acts on. */
  function IsValidValue(c: string): (r: bool)
    ensures r <==> Decode(c).Some?
  {
    c == " " || c == "#" || c == "@" || c == "a" || c == "." || c == "*" || c == ":" ||
    c == "\"" || c == "$" || c == "S" || c == "|" || c == "+" || c == "-"
  }

  /** A glyph with an entity never puts it on a wall. */
  lemma EntitiesStandOffWalls(c: string)
    requires Decode(c).Some? && Decode(c).value.entity.Some?
    ensures Decode(c).value.terrain in {' ', '.'}
  {
  }

  /** The glyphs of the level generator ('BB', 'RW', 'd', ...) are not glyphs of the parser. */
  lemma GeneratorGlyphsAreSkipped(c: string)
    requires c in {"BB", "RB", "BB_d", "RB_d", "d", "BW", "RW"}
    ensures Decode(c) == None && !IsValidValue(c)
  {
  }

  /** Map.add_worker / add_box at the cursor. */
  function AddEntity(b: Board, kind: Kind, color: Color): (r: Board)
    requires b.currentX >= 0 && b.currentY >= 0
  {
    b.(entities := b.entities + [Entity(kind, b.currentX, b.currentY, color)],
       workers := if kind == Worker then b.workers[color := |b.entities|] else b.workers)
  }

  /** Map.add_floor / add_wall / add_dock. */
  function AddTerrain(b: Board, t: char): Board
    requires |b.grid| > 0
  {
    b.(grid := AppendToLastRow(b.grid, t), currentX := b.currentX + 1)
  }

  /** Map.next_row. */
  function NextRowBoard(b: Board): Board
  {
    b.(grid := b.grid + [[]], currentX := 0, currentY := b.currentY + 1)
  }

  /** parse_char on a board: the entity (if any) at the cursor, then its terrain; unknown glyphs change nothing. */
  function ParseCell(b: Board, c: string): (r: Board)
    requires CursorAtEnd(b) && |b.grid| > 0
    ensures CursorAtEnd(r) && |r.grid| == |b.grid|
    ensures WorkersValid(b) ==> WorkersValid(r)
  {
    match Decode(c)
    case None => b
    case Some(cell) =>
      var b1 := if cell.entity.Some? then AddEntity(b, cell.entity.value.0, cell.entity.value.1) else b;
      AddTerrain(b1, cell.terrain)
  }

  /** The glyphs of one row parsed from left to right. */
  function ParseRow(b: Board, row: seq<string>): (r: Board)
    requires CursorAtEnd(b) && |b.grid| > 0
    ensures CursorAtEnd(r) && |r.grid| == |b.grid|
    ensures WorkersValid(b) ==> WorkersValid(r)
    decreases |row|
  {
    if row == [] then b
    else ParseCell(ParseRow(b, row[..|row| - 1]), row[|row| - 1])
  }

  /** The `random` path of the game constructor: a new row for every row of the level, then its glyphs. */
  function ParseLevel(level: seq<seq<string>>): (r: Board)
    ensures CursorAtEnd(r) && |r.grid| == |level| && WorkersValid(r)
    decreases |level|
  {
    if level == [] then Board([], 0, -1, [], map[])
    else ParseRow(NextRowBoard(ParseLevel(level[..|level| - 1])), level[|level| - 1])
  }

  /**
   * A board while the parser builds it for a level of width `w`: all rows but the last have
   * `w` cells and the last at most `w`, the terrain is floor, wall or dock, and every entity
   * stands inside the terrain, off the walls and on a cell of its own.
   */
  ghost predicate Parsing(b: Board, w: nat)
  {
    CursorAtEnd(b) && WorkersValid(b) &&
    (forall y :: 0 <= y < |b.grid| - 1 ==> |b.grid[y]| == w) &&
    (|b.grid| > 0 ==> |b.grid[|b.grid| - 1]| <= w) &&
    (forall y, x :: 0 <= y < |b.grid| && 0 <= x < |b.grid[y]| ==> b.grid[y][x] in {' ', '#', '.'}) &&
    (forall k :: 0 <= k < |b.entities| ==>
      InGrid(b.grid, b.entities[k].x, b.entities[k].y) && b.grid[b.entities[k].y][b.entities[k].x] != '#') &&
    (forall k, l :: 0 <= k < |b.entities| && 0 <= l < |b.entities| && k != l ==>
      !At(b.entities[l], b.entities[k].x, b.entities[k].y))
  }

  /** One known glyph keeps the board being parsed well formed and fills one more cell of the row. */
  lemma ParseCellKeepsParsing(b: Board, c: string, w: nat)
    requires Parsing(b, w) && |b.grid| > 0 && b.currentX < w && Decode(c).Some?
    ensures Parsing(ParseCell(b, c), w) && ParseCell(b, c).currentX == b.currentX + 1
  {
    var cell := Decode(c).value;
    var last := |b.grid| - 1;
    var b1 := if cell.entity.Some? then AddEntity(b, cell.entity.value.0, cell.entity.value.1) else b;
    var r := AddTerrain(b1, cell.terrain);
    assert r == ParseCell(b, c);
    forall y, x | 0 <= y < |r.grid| && 0 <= x < |r.grid[y]|
      ensures r.grid[y][x] == if y == last && x == b.currentX then cell.terrain else b.grid[y][x]
    {
    }
    forall k | 0 <= k < |r.entities|
      ensures InGrid(r.grid, r.entities[k].x, r.entities[k].y) && r.grid[r.entities[k].y][r.entities[k].x] != '#'
    {
      if k == |b.entities| {
        EntitiesStandOffWalls(c);
      } else {
        assert r.entities[k] == b.entities[k];
      }
    }
    forall k, l | 0 <= k < |r.entities| && 0 <= l < |r.entities| && k != l
      ensures !At(r.entities[l], r.entities[k].x, r.entities[k].y)
    {
      if k < |b.entities| && l < |b.entities| {
        assert r.entities[k] == b.entities[k] && r.entities[l] == b.entities[l];
      } else if k < |b.entities| {
        assert r.entities[k] == b.entities[k];
        assert InGrid(b.grid, b.entities[k].x, b.entities[k].y);
      } else if l < |b.entities| {
        assert r.entities[l] == b.entities[l];
        assert InGrid(b.grid, b.entities[l].x, b.entities[l].y);
      }
    }
  }

  /** A row of known glyphs that fits the width keeps the board well formed and fills that many cells. */
  lemma {:induction false} ParseRowKeepsParsing(b: Board, row: seq<string>, w: nat)
    requires Parsing(b, w) && |b.grid| > 0 && b.currentX + |row| <= w
    requires forall i :: 0 <= i < |row| ==> IsValidValue(row[i])
    ensures Parsing(ParseRow(b, row), w) && ParseRow(b, row).currentX == b.currentX + |row|
    decreases |row|
  {
    if row != [] {
      var init := row[..|row| - 1];
      ParseRowKeepsParsing(b, init, w);
      ParseCellKeepsParsing(ParseRow(b, init), row[|row| - 1], w);
    }
  }

  /** A level whose rows all have `w` known glyphs parses into complete rows of width `w`. */
  lemma {:induction false} ParseLevelKeepsParsing(level: seq<seq<string>>, w: nat)
    requires forall r :: 0 <= r < |level| ==> |level[r]| == w
    requires forall r, i :: 0 <= r < |level| && 0 <= i < |level[r]| ==> IsValidValue(level[r][i])
    ensures Parsing(ParseLevel(level), w) && (level == [] || ParseLevel(level).currentX == w)
    decreases |level|
  {
    if level != [] {
      var init := level[..|level| - 1];
      ParseLevelKeepsParsing(init, w);
      var b := NextRowBoard(ParseLevel(init));
      assert Parsing(b, w) by {
        var p := ParseLevel(init);
        assert forall y, x :: 0 <= y < |p.grid| && 0 <= x < |p.grid[y]| ==> b.grid[y][x] == p.grid[y][x];
        forall k | 0 <= k < |b.entities|
          ensures InGrid(b.grid, b.entities[k].x, b.entities[k].y)
        {
          assert InGrid(p.grid, p.entities[k].x, p.entities[k].y);
        }
      }
      ParseRowKeepsParsing(b, level[|level| - 1], w);
    }
  }

  /**
   * A level whose rows have one length and hold only known glyphs parses into a tidy board,
   * on which (see SokobanMoves) no move raises and every move keeps the board tidy.
   */
  lemma RectangularLevelIsTidy(level: seq<seq<string>>, w: nat)
    requires forall r :: 0 <= r < |level| ==> |level[r]| == w
    requires forall r, i :: 0 <= r < |level| && 0 <= i < |level[r]| ==> IsValidValue(level[r][i])
    ensures Tidy(ParseLevel(level))
  {
    ParseLevelKeepsParsing(level, w);
    var b := ParseLevel(level);
    if level == [] {
      assert b.entities == [];
    }
  }

  /** What a parsed cell looks like once rendered on its own. */
  function RenderCell(cell: Cell): char
  {
    match cell.entity
    case None => cell.terrain
    case Some(e) => Glyph(Entity(e.0, 0, 0, e.1), cell.terrain)
  }

  /**
   * As written, the floor-box glyphs come back swapped: 'S' parses as a blue box, which renders
   * as '|', and '|' as a red box, which renders as 'S' (the front end draws 'S' as the red box
   * and '|' as the blue one).
   */
  lemma FloorBoxColoursSwapped()
    ensures Decode("S").Some? && Decode("S").value.entity == Some((Box, Blue)) && RenderCell(Decode("S").value) == '|'
    ensures Decode("|").Some? && Decode("|").value.entity == Some((Box, Red)) && RenderCell(Decode("|").value) == 'S'
    ensures Render(ParseLevel([["S"]])) == Ok([['|']])
  {
    var b0 := NextRowBoard(ParseLevel([]));
    assert [["S"]][..0] == [];
    assert ["S"][..0] == [];
    assert ParseLevel([["S"]]) == ParseCell(b0, "S");
    var e := Entity(Box, 0, 0, Blue);
    assert b0 == Board([[]], 0, 0, [], map[]);
    assert Decode("S") == Some(Cell(Some((Box, Blue)), ' '));
    var b1 := AddEntity(b0, Box, Blue);
    assert b1.entities == [e];
    assert b1.grid[0] + [' '] == [' '];
    assert AppendToLastRow(b1.grid, ' ') == [[' ']];
    assert ParseLevel([["S"]]) == Board([[' ']], 1, 0, [e], map[]);
    assert [e][1..] == [];
    assert Glyph(e, ' ') == '|';
    assert [' '][0 := '|'] == ['|'];
    assert Paint([[' ']], e) == [['|']];
  }

  /** The parser with the floor-box colours as the renderer and the front end draw them. */
  function DecodeIntended(c: string): Option<Cell>
  {
    if c == "S" then Some(Cell(Some((Box, Red)), ' '))
    else if c == "|" then Some(Cell(Some((Box, Blue)), ' '))
    else Decode(c)
  }

  /**
   * With the intended colours every glyph the renderer can produce parses back to itself:
   * terrain, workers on floor and dock, coloured boxes on floor and boxes on docks.
   */
  lemma IntendedGlyphsRoundTrip(c: string)
    requires c in {" ", "#", ".", "@", "a", "+", "-", "S", "|", "*"}
    ensures DecodeIntended(c).Some? && [RenderCell(DecodeIntended(c).value)] == c
  {
  }

  class Game {
    const sokobanMap: Map

    /** game('random', level): one new row per row of the level, then parse_char on each glyph. */
    constructor FromLevel(level: seq<seq<string>>)
      ensures fresh(sokobanMap) && sokobanMap.Valid()
      ensures sokobanMap.Snapshot() == ParseLevel(level)
    {
      sokobanMap := new Map();
      new;
      var r := 0;
      while r < |level|
        invariant 0 <= r <= |level|
        invariant fresh(sokobanMap) && sokobanMap.Valid()
        invariant sokobanMap.Snapshot() == ParseLevel(level[..r])
        modifies sokobanMap
      {
        sokobanMap.NextRow();
        assert sokobanMap.Snapshot() == NextRowBoard(ParseLevel(level[..r]));
        ParseRowChars(level[r]);
        assert level[..r + 1][..r] == level[..r];
        r := r + 1;
      }
      assert level[..r] == level;
    }

    /** The inner loop of the constructor: parse_char on each glyph of one row, left to right. */
    method ParseRowChars(row: seq<string>)
      requires sokobanMap.Valid() && |sokobanMap.grid| > 0
      modifies sokobanMap
      ensures sokobanMap.Valid() && |sokobanMap.grid| > 0
      ensures sokobanMap.Snapshot() == ParseRow(old(sokobanMap.Snapshot()), row)
    {
      ghost var start := sokobanMap.Snapshot();
      var c := 0;
      while c < |row|
        invariant 0 <= c <= |row|
        invariant sokobanMap.Valid() && |sokobanMap.grid| > 0
        invariant sokobanMap.Snapshot() == ParseRow(start, row[..c])
        modifies sokobanMap
      {
        assert row[..c + 1][..c] == row[..c];
        ParseChar(row[c]);
        c := c + 1;
      }
      assert row[..c] == row;
    }

    /** game.parse_char: adds the glyph's entity at the cursor, then its terrain; other glyphs are skipped. */
    method ParseChar(c: string)
      requires sokobanMap.Valid() && |sokobanMap.grid| > 0
      modifies sokobanMap
      ensures sokobanMap.Valid() && |sokobanMap.grid| > 0
      ensures sokobanMap.Snapshot() == ParseCell(old(sokobanMap.Snapshot()), c)
    {
      if c == " " {
        sokobanMap.AddFloor();
      } else if c == "#" {
        sokobanMap.AddWall();
      } else if c == "." {
        sokobanMap.AddDock();
      } else if c in {"@", "a", "+", "-"} {
        ParseWorkerChar(c);
      } else if c in {"*", ":", "\"", "$", "S", "|"} {
        ParseBoxChar(c);
      }
    }

    /** The worker glyphs of parse_char: the blue or red worker, then floor or a dock. */
    method ParseWorkerChar(c: string)
      requires sokobanMap.Valid() && |sokobanMap.grid| > 0 && c in {"@", "a", "+", "-"}
      modifies sokobanMap
      ensures sokobanMap.Valid() && |sokobanMap.grid| > 0
      ensures sokobanMap.Snapshot() == ParseCell(old(sokobanMap.Snapshot()), c)
    {
      ghost var b := sokobanMap.Snapshot();
      ghost var color := if c == "@" || c == "+" then Blue else Red;
      ghost var t := if c == "@" || c == "a" then ' ' else '.';
      assert Decode(c) == Some(Cell(Some((Worker, color)), t));
      assert ParseCell(b, c) == AddTerrain(AddEntity(b, Worker, color), t);
      if c == "@" || c == "+" {
        sokobanMap.AddWorker(Blue);
      } else {
        sokobanMap.AddWorker(Red);
      }
      if c == "@" || c == "a" {
        sokobanMap.AddFloor();
      } else {
        sokobanMap.AddDock();
      }
    }

    /** The box glyphs of parse_char: a blue or red box, then a dock or floor. */
    method ParseBoxChar(c: string)
      requires sokobanMap.Valid() && |sokobanMap.grid| > 0 && c in {"*", ":", "\"", "$", "S", "|"}
      modifies sokobanMap
      ensures sokobanMap.Valid() && |sokobanMap.grid| > 0
      ensures sokobanMap.Snapshot() == ParseCell(old(sokobanMap.Snapshot()), c)
    {
      if c in {"*", ":", "\""} {
        ParseBoxOnDockChar(c);
      } else {
        ParseBoxOnFloorChar(c);
      }
    }

    /** The glyphs of a box on a dock: blue for '*' and ':', red for '"'. */
    method ParseBoxOnDockChar(c: string)
      requires sokobanMap.Valid() && |sokobanMap.grid| > 0 && c in {"*", ":", "\""}
      modifies sokobanMap
      ensures sokobanMap.Valid() && |sokobanMap.grid| > 0
      ensures sokobanMap.Snapshot() == ParseCell(old(sokobanMap.Snapshot()), c)
    {
      if c == "*" || c == ":" {
        sokobanMap.AddBox(Blue);
      } else {
        sokobanMap.AddBox(Red);
      }
      sokobanMap.AddDock();
    }

    /** The glyphs of a box on floor: blue for '$' and 'S', red for '|'. */
    method ParseBoxOnFloorChar(c: string)
      requires sokobanMap.Valid() && |sokobanMap.grid| > 0 && c in {"$", "S", "|"}
      modifies sokobanMap
      ensures sokobanMap.Valid() && |sokobanMap.grid| > 0
      ensures sokobanMap.Snapshot() == ParseCell(old(sokobanMap.Snapshot()), c)
    {
      if c == "$" || c == "S" {
        sokobanMap.AddBox(Blue);
      } else {
        sokobanMap.AddBox(Red);
      }
      sokobanMap.AddFloor();
    }

    /** game.is_legal_move: the worker of the colour can step, or else push. */
    method IsLegalMove(color: Color, dx: int, dy: int) returns (r: Result<bool>)
      requires sokobanMap.Valid()
      ensures r == GameIsLegalMove(sokobanMap.Snapshot(), color, dx, dy)
    {
      var worker := sokobanMap.GetWorker(color);
      match worker {
        case Err(f) =>
          r := Err(f);
        case Ok(i) =>
          var w := sokobanMap.entities[i];
          var can := sokobanMap.CanMove(w.x, w.y, dx, dy);
          match can {
            case Err(f) =>
              r := Err(f);
            case Ok(true) =>
              r := Ok(true);
            case Ok(false) =>
              var push := sokobanMap.CanPush(i, dx, dy);
              r := if push.Ok? then Ok(push.value.ok) else Err(push.failure);
          }
      }
    }

    /** game.move: a pull when asked for; otherwise a step, and a push when the step did not happen. */
    method Move(color: Color, dx: int, dy: int, pull: bool) returns (r: Result<()>)
      requires sokobanMap.Valid()
      modifies sokobanMap`entities
      ensures sokobanMap.Valid()
      ensures var f := GameMove(old(sokobanMap.Snapshot()), color, dx, dy, pull);
        if f.Ok? then r == Ok(()) && sokobanMap.Snapshot() == f.value else r == Err(f.failure)
    {
      var worker := sokobanMap.GetWorker(color);
      match worker {
        case Err(f) =>
          r := Err(f);
        case Ok(i) =>
          if pull {
            r := sokobanMap.Pull(i, dx, dy);
          } else {
            r := StepOrPush(color, i, dx, dy);
          }
      }
    }

    /** The part of game.move without `pull`: a step, and a push when the step did not happen. */
    method StepOrPush(color: Color, i: nat, dx: int, dy: int) returns (r: Result<()>)
      requires sokobanMap.Valid() && color in sokobanMap.workers && i == sokobanMap.workers[color]
      modifies sokobanMap`entities
      ensures sokobanMap.Valid()
      ensures var f := GameMove(old(sokobanMap.Snapshot()), color, dx, dy, false);
        if f.Ok? then r == Ok(()) && sokobanMap.Snapshot() == f.value else r == Err(f.failure)
    {
      ghost var b0 := sokobanMap.Snapshot();
      var moved := sokobanMap.Move(i, dx, dy);
      ghost var b1 := sokobanMap.Snapshot();
      match moved {
        case Err(f) =>
          r := Err(f);
        case Ok(true) =>
          r := Ok(());
        case Ok(false) =>
          r := sokobanMap.Push(i, dx, dy);
          RelocatedKeepsWorkers(b0, b1, sokobanMap.Snapshot());
      }
      RelocatedKeepsWorkers(b0, sokobanMap.Snapshot(), sokobanMap.Snapshot());
    }
  }
}
