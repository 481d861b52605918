/**
 * The state space of a Sokoban level: every board reachable from the initial one by the
 * sixteen moves of the two workers, explored breadth first into a directed graph whose nodes
 * carry `initial` and `goal` flags and whose edges carry a move label.
 *
 * A successor is computed on a copy of the board, so here boards are values: `MakeMove`
 * returns a new `Board` and never changes its argument. Whether a successor is "already in
 * the graph" is decided by the boards' equality notion, which is the parameter `same`
 * (boards compared by identity never coincide, so `same` is then constantly false).
 */
module SokobanStateSpaces {
  import opened SokobanBoards
  import opened SokobanMoves

  /** One entry of the move table: a worker colour, a direction and whether to pull. */
  datatype Move = Move(color: Color, dx: int, dy: int, pull: bool)

  /** A node of the graph: its board and its two flags. */
  datatype Node = Node(board: Board, initial: bool, goal: bool)

  /** How an exploration ended: it ran out of states, a query raised, or the fuel ran out. */
  datatype Traversal = Finished | Raised(failure: Failure) | FuelSpent

  /** What `shortest_path_length` is asked for: lengths from `source` to `target`, or to every node when there is none. */
  datatype PathQuery = PathQuery(source: Board, target: Option<Board>)

  /** The four directions, in table order: down, up, right, left. */
  const Directions: seq<(int, int)> := [(0, 1), (0, -1), (1, 0), (-1, 0)]

  function DirectionName(dx: int, dy: int): string
    requires (dx, dy) in Directions
  {
    if (dx, dy) == (0, 1) then "down"
    else if (dx, dy) == (0, -1) then "up"
    else if (dx, dy) == (1, 0) then "right"
    else "left"
  }

  /** The move table: for each colour (red first), each direction, pull before push. */
  function PossibleMoves(): (r: seq<Move>)
    ensures |r| == 16
    ensures forall i :: 0 <= i < |r| ==> (r[i].dx, r[i].dy) in Directions
  {
    seq(16, i requires 0 <= i < 16 =>
      Move(if i < 8 then Red else Blue, Directions[(i % 8) / 2].0, Directions[(i % 8) / 2].1, i % 2 == 0))
  }

  /** The table holds every colour, direction and pull flag exactly once. */
  lemma PossibleMovesEnumerate(c: Color, d: nat, pull: bool)
    requires d < 4
    ensures Move(c, Directions[d].0, Directions[d].1, pull) in PossibleMoves()
    ensures forall i, j :: 0 <= i < j < 16 ==> PossibleMoves()[i] != PossibleMoves()[j]
  {
    var i := (if c == Red then 0 else 8) + 2 * d + (if pull then 0 else 1);
    assert PossibleMoves()[i] == Move(c, Directions[d].0, Directions[d].1, pull);
    forall i, j | 0 <= i < j < 16
      ensures PossibleMoves()[i] != PossibleMoves()[j]
    {
      TablePosition(i);
      TablePosition(j);
    }
  }

  /** The position of a direction in the direction list. */
  function DirectionIndex(dx: int, dy: int): (r: nat)
    requires (dx, dy) in Directions
    ensures r < 4 && Directions[r] == (dx, dy)
  {
    if (dx, dy) == (0, 1) then 0
    else if (dx, dy) == (0, -1) then 1
    else if (dx, dy) == (1, 0) then 2
    else 3
  }

  /** Where a move of the four directions sits in the move table. */
  function MoveIndex(m: Move): nat
    requires (m.dx, m.dy) in Directions
  {
    (if m.color == Red then 0 else 8) + 2 * DirectionIndex(m.dx, m.dy) + (if m.pull then 0 else 1)
  }

  /** Each entry of the move table sits at its own position: MoveIndex undoes the lookup. */
  lemma TablePosition(i: nat)
    requires i < 16
    ensures MoveIndex(PossibleMoves()[i]) == i
  {
    var d := (i % 8) / 2;
    assert Directions[0] != Directions[1] && Directions[0] != Directions[2] && Directions[0] != Directions[3];
    assert Directions[1] != Directions[2] && Directions[1] != Directions[3] && Directions[2] != Directions[3];
    assert DirectionIndex(Directions[d].0, Directions[d].1) == d;
  }

  /** A move of the table: any colour and pull flag, one of the four directions. */
  predicate InTable(m: Move)
  {
    (m.dx, m.dy) in Directions
  }

  /** The moves of the table are exactly those in it. */
  lemma InTableIsPossible(m: Move)
    ensures InTable(m) <==> m in PossibleMoves()
  {
    if InTable(m) {
      var d :| 0 <= d < 4 && Directions[d] == (m.dx, m.dy);
      PossibleMovesEnumerate(m.color, d, m.pull);
    }
  }

  /** The edge label: colour initial, direction name, and ", pull" for a pull. */
  function Label(m: Move): string
    requires (m.dx, m.dy) in Directions
  {
    (if m.color == Red then "R " else "B ") + DirectionName(m.dx, m.dy) + (if m.pull then ", pull" else "")
  }

  /** Distinct moves of the table get distinct labels, so a label names its move. */
  lemma LabelsIdentifyMoves(i: nat, j: nat)
    requires i < 16 && j < 16 && i != j
    ensures Label(PossibleMoves()[i]) != Label(PossibleMoves()[j])
  {
    PossibleMovesEnumerate(Red, 0, true);
    if i < j {
      LabelInjective(PossibleMoves()[i], PossibleMoves()[j]);
    } else {
      LabelInjective(PossibleMoves()[j], PossibleMoves()[i]);
    }
  }

  /** Two moves in the four directions with the same label are the same move. */
  lemma LabelInjective(m: Move, n: Move)
    requires InTable(m) && InTable(n) && m != n
    ensures Label(m) != Label(n)
  {
    var a, b := Label(m), Label(n);
    if m.color != n.color {
      assert a[0] != b[0];
    } else if m.pull != n.pull {
      assert |a| != |b|;
    } else if |DirectionName(m.dx, m.dy)| == |DirectionName(n.dx, n.dy)| {
      assert a[2] != b[2];
    } else {
      assert |a| != |b|;
    }
  }

  /**
   * is_legal_move: a pull asks `can_pull`; otherwise the worker may step, or else push. A
   * colour without a worker raises KeyError.
   */
  function IsLegalMove(b: Board, m: Move): (r: Result<bool>)
    requires WorkersValid(b)
    ensures m.color !in b.workers <==> r == Err(KeyError)
    ensures m.pull && m.color in b.workers ==>
      r == (match CanPull(b, b.entities[b.workers[m.color]], m.dx, m.dy)
            case Err(f) => Err(f)
            case Ok(c) => Ok(c.ok))
  {
    if m.color !in b.workers then Err(KeyError)
    else
      var w := b.entities[b.workers[m.color]];
      if m.pull then
        match CanPull(b, w, m.dx, m.dy)
        case Err(f) => Err(f)
        case Ok(c) => Ok(c.ok)
      else
        match CanMove(b, w.x, w.y, m.dx, m.dy)
        case Err(f) => Err(f)
        case Ok(can) =>
          if can then Ok(true)
          else match CanPush(b, w, m.dx, m.dy)
            case Err(f) => Err(f)
            case Ok(c) => Ok(c.ok)
  }

  /** Without pulling, the explorer's legality test is the game's own. */
  lemma IsLegalMoveMatchesGame(b: Board, m: Move)
    requires WorkersValid(b) && !m.pull
    ensures IsLegalMove(b, m) == GameIsLegalMove(b, m.color, m.dx, m.dy)
  {
  }

  /**
   * make_move: on a copy of the board, a pull pulls; otherwise the worker moves when the
   * original board lets it, and pushes when not.
   */
  function MakeMove(b: Board, m: Move): (r: Result<Board>)
    requires WorkersValid(b)
    ensures r.Ok? ==> Relocated(b, r.value)
    ensures m.color !in b.workers <==> r == Err(KeyError)
  {
    if m.color !in b.workers then Err(KeyError)
    else
      var i := b.workers[m.color];
      var w := b.entities[i];
      if m.pull then Pull(b, i, m.dx, m.dy)
      else
        match CanMove(b, w.x, w.y, m.dx, m.dy)
        case Err(f) => Err(f)
        case Ok(can) =>
          if can then
            match MoveEntity(b, i, m.dx, m.dy)
            case Err(f) => Err(f)
            case Ok(moved) => Ok(moved.1)
          else Push(b, i, m.dx, m.dy)
  }

  /** Deciding the step on the original board and applying it to the copy is the game's move. */
  lemma MakeMoveIsGameMove(b: Board, m: Move)
    requires WorkersValid(b)
    ensures MakeMove(b, m) == GameMove(b, m.color, m.dx, m.dy, m.pull)
  {
  }

  /** On a tidy board with a worker of the colour, the legality test and the move never raise, and the move keeps the board tidy. */
  lemma TidyMakeMove(b: Board, m: Move)
    requires Tidy(b) && m.color in b.workers
    ensures IsLegalMove(b, m).Ok?
    ensures MakeMove(b, m).Ok? && Tidy(MakeMove(b, m).value)
  {
    var w := b.entities[b.workers[m.color]];
    TidyCanMove(b, w.x, w.y, m.dx, m.dy);
    TidyCanPush(b, w, m.dx, m.dy);
    TidyCanPull(b, w, m.dx, m.dy);
    MakeMoveIsGameMove(b, m);
    TidyGameMove(b, m.color, m.dx, m.dy, m.pull);
  }

  /**
   * One move of the table as the explorer sees it: is_legal_move, then make_move on a copy.
   * An illegal move has no successor; a query that raises is an error. A board whose worker
   * index does not name workers never comes out of the parser, and is treated like a board
   * without the worker.
   */
  function Transition(b: Board, m: Move): (r: Result<Option<Board>>)
    ensures m.color !in b.workers ==> r == Err(KeyError)
    ensures WorkersValid(b) ==> (r == Ok(None) <==> IsLegalMove(b, m) == Ok(false))
    ensures WorkersValid(b) && r.Ok? && r.value.Some? ==>
      IsLegalMove(b, m) == Ok(true) && MakeMove(b, m) == Ok(r.value.value) &&
      WorkersValid(r.value.value) && r.value.value.workers == b.workers
  {
    if m.color !in b.workers || !WorkersValid(b) then Err(KeyError)
    else match IsLegalMove(b, m)
      case Err(f) => Err(f)
      case Ok(legal) =>
        if !legal then Ok(None)
        else match MakeMove(b, m)
          case Err(f) => Err(f)
          case Ok(c) => Ok(Some(c))
  }

  /** On a tidy board with both workers, every move of the table is answered without raising, and a successor is tidy again. */
  lemma TidyTransition(b: Board, m: Move)
    requires Tidy(b) && m.color in b.workers
    ensures Transition(b, m).Ok?
    ensures Transition(b, m).value.Some? ==> Tidy(Transition(b, m).value.value)
  {
    TidyMakeMove(b, m);
  }

  /** The rule giving a board's successor under a move: none when illegal, an error when a query raises. */
  type Rule = (Board, Move) -> Result<Option<Board>>

  /** The successor of `b` under `m` by `next`, when there is one. */
  predicate Leads(next: Rule, b: Board, m: Move, c: Board)
  {
    InTable(m) && next(b, m) == Ok(Some(c))
  }

  /** The board reached by playing the moves in order, each from the table and with a successor where it is played. */
  function Play(next: Rule, b: Board, ms: seq<Move>): (r: Option<Board>)
    ensures ms == [] ==> r == Some(b)
    decreases |ms|
  {
    if ms == [] then Some(b)
    else if InTable(ms[0]) && next(b, ms[0]).Ok? && next(b, ms[0]).value.Some? then
      Play(next, next(b, ms[0]).value.value, ms[1..])
    else None
  }

  /** Playing one more move after a sequence continues from the board it reached. */
  lemma {:induction false} PlayAppend(next: Rule, a: Board, ms: seq<Move>, m: Move, c: Board)
    requires Play(next, a, ms).Some? && Leads(next, Play(next, a, ms).value, m, c)
    ensures Play(next, a, ms + [m]) == Some(c)
    decreases |ms|
  {
    if ms == [] {
      assert [m][1..] == [];
    } else {
      assert (ms + [m])[1..] == ms[1..] + [m];
      PlayAppend(next, next(a, ms[0]).value.value, ms[1..], m, c);
    }
  }

  ghost predicate Reaches(next: Rule, a: Board, b: Board)
  {
    exists ms :: Play(next, a, ms) == Some(b)
  }

  /** What a reachable board leads to is reachable. */
  lemma ReachesStep(next: Rule, a: Board, b: Board, m: Move, c: Board)
    requires Reaches(next, a, b) && Leads(next, b, m, c)
    ensures Reaches(next, a, c)
  {
    var ms :| Play(next, a, ms) == Some(b);
    PlayAppend(next, a, ms, m, c);
  }

  /** Each node after the first was found by a table move from an earlier node, its parent. */
  ghost predicate Discovered(next: Rule, nodes: seq<Node>, parents: seq<(nat, Move)>)
  {
    |parents| == |nodes| &&
    forall k :: 1 <= k < |nodes| ==>
      parents[k].0 < k && Leads(next, nodes[parents[k].0].board, parents[k].1, nodes[k].board)
  }

  /** Following parents back to the first node shows every node's board reachable from it. */
  lemma {:induction false} DiscoveredReaches(next: Rule, nodes: seq<Node>, parents: seq<(nat, Move)>, k: nat)
    requires |nodes| >= 1 && Discovered(next, nodes, parents) && k < |nodes|
    ensures Reaches(next, nodes[0].board, nodes[k].board)
    decreases k
  {
    if k == 0 {
      assert Play(next, nodes[0].board, []) == Some(nodes[0].board);
    } else {
      var p := parents[k].0;
      DiscoveredReaches(next, nodes, parents, p);
      ReachesStep(next, nodes[0].board, nodes[p].board, parents[k].1, nodes[k].board);
    }
  }

  /** The first node whose board counts as the same as `b`, if any. */
  function FindNode(nodes: seq<Node>, same: (Board, Board) -> bool, b: Board): (r: Option<nat>)
    ensures r.Some? ==> r.value < |nodes| && same(nodes[r.value].board, b)
    ensures r.None? <==> forall n :: 0 <= n < |nodes| ==> !same(nodes[n].board, b)
    decreases |nodes|
  {
    if nodes == [] then None
    else match FindNode(nodes[..|nodes| - 1], same, b)
      case Some(n) => Some(n)
      case None => if same(nodes[|nodes| - 1].board, b) then Some(|nodes| - 1) else None
  }

  /** The indices lo, lo + 1, ..., hi - 1. */
  function Range(lo: nat, hi: nat): (r: seq<nat>)
    requires lo <= hi
    ensures |r| == hi - lo && forall k :: 0 <= k < |r| ==> r[k] == lo + k
  {
    seq(hi - lo, k requires 0 <= k < hi - lo => lo + k)
  }

  /** Consecutive ranges join. */
  lemma RangeJoin(lo: nat, mid: nat, hi: nat)
    requires lo <= mid <= hi
    ensures Range(lo, mid) + Range(mid, hi) == Range(lo, hi)
  {
  }

  /** A range starts at its low end and continues with the range above it. */
  lemma RangeTail(lo: nat, hi: nat)
    requires lo < hi
    ensures Range(lo, hi)[0] == lo && Range(lo, hi)[1..] == Range(lo + 1, hi)
  {
  }

  /** Every node's goal flag is the goal test of its board. */
  predicate Goals(nodes: seq<Node>)
  {
    forall k :: 0 <= k < |nodes| ==> nodes[k].goal == (IsCompleted(nodes[k].board) == Ok(true))
  }

  /** Board `b` is in the graph: some node holds it, or a board that counts as the same. */
  ghost predicate Represented(nodes: seq<Node>, same: (Board, Board) -> bool, b: Board)
  {
    exists n :: 0 <= n < |nodes| && (nodes[n].board == b || same(nodes[n].board, b))
  }

  /** Move `m` was tried from node `a` without raising, and its successor, if any, is in the graph. */
  ghost predicate Followed(next: Rule, nodes: seq<Node>, same: (Board, Board) -> bool, a: nat, m: Move)
    requires a < |nodes|
  {
    next(nodes[a].board, m).Ok? &&
    (next(nodes[a].board, m).value.Some? ==> Represented(nodes, same, next(nodes[a].board, m).value.value))
  }

  /** The first `k` moves of the table were followed from node `a`. */
  ghost predicate Expanded(next: Rule, nodes: seq<Node>, same: (Board, Board) -> bool, a: nat, k: nat)
    requires a < |nodes| && k <= 16
  {
    forall j :: 0 <= j < k ==> Followed(next, nodes, same, a, PossibleMoves()[j])
  }

  /** The first `p` nodes have all their successors in the graph. */
  ghost predicate Closed(next: Rule, nodes: seq<Node>, same: (Board, Board) -> bool, p: nat)
  {
    p <= |nodes| && forall a :: 0 <= a < p ==> Expanded(next, nodes, same, a, 16)
  }

  /** `same` only ever identifies equal boards. */
  ghost predicate Sound(same: (Board, Board) -> bool)
  {
    forall a, b :: same(a, b) ==> a == b
  }

  /** An edge a -> b labelled `text` records a table move from a's board whose successor is b's board. */
  ghost predicate Edge(next: Rule, nodes: seq<Node>, same: (Board, Board) -> bool, a: nat, b: nat, text: string)
  {
    a < |nodes| && b < |nodes| &&
    exists m, c :: Leads(next, nodes[a].board, m, c) && text == Label(m) && (nodes[b].board == c || same(nodes[b].board, c))
  }

  /** Every edge records a table move. */
  ghost predicate Labelled(next: Rule, nodes: seq<Node>, edges: map<(nat, nat), string>, same: (Board, Board) -> bool)
  {
    forall e :: e in edges ==> Edge(next, nodes, same, e.0, e.1, edges[e])
  }

  lemma {:induction false} RepresentedGrows(nodes: seq<Node>, nodes': seq<Node>, same: (Board, Board) -> bool, b: Board)
    requires nodes <= nodes' && Represented(nodes, same, b)
    ensures Represented(nodes', same, b)
  {
    var n :| 0 <= n < |nodes| && (nodes[n].board == b || same(nodes[n].board, b));
    assert nodes'[n] == nodes[n];
  }

  lemma {:induction false} ExpandedGrows(next: Rule, nodes: seq<Node>, nodes': seq<Node>, same: (Board, Board) -> bool, a: nat, k: nat)
    requires nodes <= nodes' && a < |nodes| && k <= 16 && Expanded(next, nodes, same, a, k)
    ensures Expanded(next, nodes', same, a, k)
  {
    assert nodes'[a] == nodes[a];
    forall j | 0 <= j < k
      ensures Followed(next, nodes', same, a, PossibleMoves()[j])
    {
      var b := nodes[a].board;
      if next(b, PossibleMoves()[j]).value.Some? {
        RepresentedGrows(nodes, nodes', same, next(b, PossibleMoves()[j]).value.value);
      }
    }
  }

  lemma {:induction false} ClosedGrows(next: Rule, nodes: seq<Node>, nodes': seq<Node>, same: (Board, Board) -> bool, p: nat)
    requires nodes <= nodes' && Closed(next, nodes, same, p)
    ensures Closed(next, nodes', same, p)
  {
    forall a | 0 <= a < p
      ensures Expanded(next, nodes', same, a, 16)
    {
      ExpandedGrows(next, nodes, nodes', same, a, 16);
    }
  }

  lemma EdgeGrows(next: Rule, nodes: seq<Node>, nodes': seq<Node>, same: (Board, Board) -> bool, a: nat, b: nat, text: string)
    requires nodes <= nodes' && Edge(next, nodes, same, a, b, text)
    ensures Edge(next, nodes', same, a, b, text)
  {
    var m, c :| Leads(next, nodes[a].board, m, c) && text == Label(m) && (nodes[b].board == c || same(nodes[b].board, c));
    assert nodes'[a] == nodes[a] && nodes'[b] == nodes[b];
  }

  lemma {:induction false} LabelledGrows(next: Rule, nodes: seq<Node>, nodes': seq<Node>, edges: map<(nat, nat), string>, same: (Board, Board) -> bool)
    requires nodes <= nodes' && Labelled(next, nodes, edges, same)
    ensures Labelled(next, nodes', edges, same)
  {
    forall e | e in edges
      ensures Edge(next, nodes', same, e.0, e.1, edges[e])
    {
      EdgeGrows(next, nodes, nodes', same, e.0, e.1, edges[e]);
    }
  }

  /**
   * In a closed graph, under an equality that identifies only equal boards, every board
   * reachable from a node's board is itself the board of some node.
   */
  lemma {:induction false} ClosedHoldsReachable(next: Rule, nodes: seq<Node>, same: (Board, Board) -> bool, n0: nat, ms: seq<Move>)
    requires Closed(next, nodes, same, |nodes|) && Sound(same) && n0 < |nodes|
    ensures Play(next, nodes[n0].board, ms).Some? ==>
      exists n :: 0 <= n < |nodes| && nodes[n].board == Play(next, nodes[n0].board, ms).value
    decreases |ms|
  {
    if ms == [] {
      assert nodes[n0].board == Play(next, nodes[n0].board, ms).value;
    } else if Play(next, nodes[n0].board, ms).Some? {
      var c := next(nodes[n0].board, ms[0]).value.value;
      InTableIsPossible(ms[0]);
      var j :| 0 <= j < 16 && PossibleMoves()[j] == ms[0];
      assert Expanded(next, nodes, same, n0, 16);
      assert Followed(next, nodes, same, n0, PossibleMoves()[j]);
      var n1 :| 0 <= n1 < |nodes| && (nodes[n1].board == c || same(nodes[n1].board, c));
      ClosedHoldsReachable(next, nodes, same, n1, ms[1..]);
    }
  }

  /**
   * An exploration that closed the graph without noticing a goal among the successors knows
   * that no reachable board is completed, except possibly the initial board itself.
   */
  lemma UnsolvedHasNoOtherGoal(next: Rule, nodes: seq<Node>, same: (Board, Board) -> bool, ms: seq<Move>)
    requires |nodes| >= 1 && Goals(nodes) && Closed(next, nodes, same, |nodes|) && Sound(same)
    requires forall k :: 1 <= k < |nodes| ==> !nodes[k].goal
    ensures Play(next, nodes[0].board, ms).Some? && IsCompleted(Play(next, nodes[0].board, ms).value) == Ok(true) ==>
      Play(next, nodes[0].board, ms).value == nodes[0].board
  {
    var r := Play(next, nodes[0].board, ms);
    if r.Some? && IsCompleted(r.value) == Ok(true) {
      ClosedHoldsReachable(next, nodes, same, 0, ms);
      var n :| 0 <= n < |nodes| && nodes[n].board == r.value;
      assert nodes[n].goal;
    }
  }

  /** The nodes: the first is the initial one, each other was found from an earlier node, and goal flags are the goal test. */
  ghost predicate Shape(next: Rule, nodes: seq<Node>, parents: seq<(nat, Move)>)
  {
    |nodes| >= 1 && Goals(nodes) &&
    nodes[0].initial && (forall k :: 1 <= k < |nodes| ==> !nodes[k].initial) &&
    Discovered(next, nodes, parents)
  }

  /** A goal node other than the first has been noticed, and a noticed goal is a completed successor of a node. */
  ghost predicate GoalNoted(next: Rule, nodes: seq<Node>, solvable: bool, goal: Option<Board>, goalParent: (nat, Move))
  {
    (forall k :: 1 <= k < |nodes| && nodes[k].goal ==> solvable) &&
    (solvable ==>
      goal.Some? && IsCompleted(goal.value) == Ok(true) && goalParent.0 < |nodes| &&
      Leads(next, nodes[goalParent.0].board, goalParent.1, goal.value))
  }

  /** No two nodes are joined by edges in both directions. */
  predicate OneWay(edges: map<(nat, nat), string>)
  {
    forall e :: e in edges && e.0 != e.1 ==> (e.1, e.0) !in edges
  }

  /** The edges after add_move records `text` for current -> target. */
  function Record(edges: map<(nat, nat), string>, current: nat, target: nat, text: string): (r: map<(nat, nat), string>)
    ensures OneWay(edges) ==> OneWay(r)
  {
    if (target, current) in edges then edges else edges[(current, target) := text]
  }

  /** The node a successor is recorded under: the one that counts as the same, or a new last node. */
  function Target(nodes: seq<Node>, same: (Board, Board) -> bool, b: Board): nat
  {
    match FindNode(nodes, same, b)
    case Some(n) => n
    case None => |nodes|
  }

  /** The nodes after a successor was met: a new node when nothing counts as the same. */
  function Insert(nodes: seq<Node>, same: (Board, Board) -> bool, b: Board): (r: seq<Node>)
    ensures nodes <= r && Target(nodes, same, b) < |r|
    ensures r[Target(nodes, same, b)].board == b || same(r[Target(nodes, same, b)].board, b)
  {
    if FindNode(nodes, same, b).None? then nodes + [Node(b, false, IsCompleted(b) == Ok(true))] else nodes
  }

  /** A new node found by a table move keeps the shape of the nodes. */
  lemma AppendKeepsShape(next: Rule, nodes: seq<Node>, parents: seq<(nat, Move)>, current: nat, m: Move, b: Board)
    requires Shape(next, nodes, parents) && current < |nodes| && Leads(next, nodes[current].board, m, b)
    ensures Shape(next, nodes + [Node(b, false, IsCompleted(b) == Ok(true))], parents + [(current, m)])
  {
    var nodes' := nodes + [Node(b, false, IsCompleted(b) == Ok(true))];
    var parents' := parents + [(current, m)];
    assert forall k :: 0 <= k < |nodes| ==> nodes'[k] == nodes[k] && parents'[k] == parents[k];
  }

  /** Growing the nodes keeps what was noticed about goals, when the new nodes are not goals or were noticed. */
  lemma InsertKeepsGoalNoted(next: Rule, nodes: seq<Node>, nodes': seq<Node>, solvable: bool, goal: Option<Board>, goalParent: (nat, Move))
    requires nodes <= nodes' && GoalNoted(next, nodes, solvable, goal, goalParent)
    requires forall k :: |nodes| <= k < |nodes'| && nodes'[k].goal ==> solvable
    ensures GoalNoted(next, nodes', solvable, goal, goalParent)
  {
    if solvable {
      assert nodes'[goalParent.0] == nodes[goalParent.0];
    }
  }

  /** Recording a table move's edge towards the node holding its successor keeps every edge labelled. */
  lemma RecordKeepsLabelled(next: Rule, nodes: seq<Node>, edges: map<(nat, nat), string>, same: (Board, Board) -> bool, current: nat, target: nat, m: Move, b: Board)
    requires Labelled(next, nodes, edges, same)
    requires current < |nodes| && target < |nodes| && Leads(next, nodes[current].board, m, b)
    requires nodes[target].board == b || same(nodes[target].board, b)
    ensures Labelled(next, nodes, Record(edges, current, target, Label(m)), same)
  {
    var edges' := Record(edges, current, target, Label(m));
    assert Edge(next, nodes, same, current, target, Label(m));
    forall e | e in edges'
      ensures Edge(next, nodes, same, e.0, e.1, edges'[e])
    {
      if e == (current, target) && (target, current) !in edges {
        assert edges'[e] == Label(m);
      } else {
        assert e in edges && edges'[e] == edges[e];
      }
    }
  }

  /** The explorer's graph, built from one initial board. */
  class StateSpace {
    /** The move rule: is_legal_move and make_move. */
    const next: Rule
    /** When a successor counts as already in the graph. */
    const same: (Board, Board) -> bool
    var nodes: seq<Node>
    var edges: map<(nat, nat), string>
    var solvable: bool
    var end: Option<Board>
    var goal: Option<Board>
    /** Which node, by which move, each node was found from. */
    ghost var parents: seq<(nat, Move)>
    /** Which node, by which move, the goal was found from. */
    ghost var goalParent: (nat, Move)

    ghost predicate Valid()
      reads this
    {
      Shape(next, nodes, parents) && GoalNoted(next, nodes, solvable, goal, goalParent) &&
      Labelled(next, nodes, edges, same) && OneWay(edges) && end == None
    }

    /** The initial node, flagged initial and, when its board is completed, goal; `solvable` stays unset. */
    constructor (initial: Board, next: Rule, same: (Board, Board) -> bool)
      ensures Valid() && this.next == next && this.same == same
      ensures nodes == [Node(initial, true, IsCompleted(initial) == Ok(true))]
      ensures edges == map[] && !solvable && end == None && goal == None
    {
      this.next := next;
      this.same := same;
      nodes := [Node(initial, true, IsCompleted(initial) == Ok(true))];
      edges := map[];
      solvable := false;
      end := None;
      goal := None;
      parents := [(0, Move(Red, 0, 1, true))];
      goalParent := (0, Move(Red, 0, 1, true));
    }

    /**
     * add_move: edge current -> target labelled with the move, unless the reverse edge is
     * already there. An existing edge current -> target gets the new label.
     */
    method AddMove(current: nat, target: nat, m: Move)
      requires (m.dx, m.dy) in Directions
      modifies this`edges
      ensures edges == Record(old(edges), current, target, Label(m))
    {
      var text := Label(m);
      if (target, current) !in edges {
        edges := edges[(current, target) := text];
      }
    }

    /** add_node for a successor not yet in the graph: a new last node, not initial, flagged by the goal test. */
    method AddNode(current: nat, m: Move, b: Board)
      requires Valid() && current < |nodes| && Leads(next, nodes[current].board, m, b)
      requires IsCompleted(b).Ok?
      modifies this`nodes, this`parents
      ensures nodes == old(nodes) + [Node(b, false, IsCompleted(b).value)] && parents == old(parents) + [(current, m)]
      ensures Shape(next, nodes, parents) && Labelled(next, nodes, edges, same)
      ensures !IsCompleted(b).value ==> GoalNoted(next, nodes, solvable, goal, goalParent)
    {
      AppendKeepsShape(next, nodes, parents, current, m, b);
      ghost var before := nodes;
      nodes := nodes + [Node(b, false, IsCompleted(b).value)];
      parents := parents + [(current, m)];
      LabelledGrows(next, before, nodes, edges, same);
      if !IsCompleted(b).value {
        InsertKeepsGoalNoted(next, before, nodes, solvable, goal, goalParent);
      }
    }

    /** A completed successor: the space is solvable and the successor is the goal. */
    method NoteGoal(current: nat, m: Move, b: Board)
      requires current < |nodes| && Leads(next, nodes[current].board, m, b) && IsCompleted(b) == Ok(true)
      modifies this`solvable, this`goal, this`goalParent
      ensures solvable && goal == Some(b) && goalParent == (current, m)
      ensures GoalNoted(next, nodes, solvable, goal, goalParent)
    {
      solvable := true;
      goal := Some(b);
      goalParent := (current, m);
    }

    /**
     * A successor `b` of node `current` enters the graph: when nothing counts as the same it
     * becomes a node and joins the queue; when it is completed it sets `solvable` and `goal`
     * and empties the queue.
     */
    method Enter(current: nat, m: Move, b: Board, q: seq<nat>) returns (queue: seq<nat>)
      requires Valid() && current < |nodes| && Leads(next, nodes[current].board, m, b) && IsCompleted(b).Ok?
      modifies this`nodes, this`solvable, this`goal, this`parents, this`goalParent
      ensures Valid() && nodes == Insert(old(nodes), same, b)
      ensures if IsCompleted(b) == Ok(true) then solvable && goal == Some(b) && queue == []
        else solvable == old(solvable) && goal == old(goal) && queue == q + Range(|old(nodes)|, |nodes|)
    {
      queue := q;
      if FindNode(nodes, same, b).None? {
        var target := |nodes|;
        AddNode(current, m, b);
        queue := queue + [target];
        assert Range(|old(nodes)|, |nodes|) == [target];
      } else {
        assert Range(|old(nodes)|, |nodes|) == [];
      }
      if IsCompleted(b).value {
        NoteGoal(current, m, b);
        queue := [];
      }
    }

    /**
     * What traverse_from_state does with a successor `b` of node `current`: it enters the
     * graph, then the edge from `current` to the node that holds it is recorded.
     */
    method Visit(current: nat, m: Move, b: Board, q: seq<nat>) returns (queue: seq<nat>)
      requires Valid() && current < |nodes| && Leads(next, nodes[current].board, m, b) && IsCompleted(b).Ok?
      modifies this`nodes, this`edges, this`solvable, this`goal, this`parents, this`goalParent
      ensures Valid() && nodes == Insert(old(nodes), same, b)
      ensures edges == Record(old(edges), current, Target(old(nodes), same, b), Label(m))
      ensures Represented(nodes, same, b)
      ensures if IsCompleted(b) == Ok(true) then solvable && goal == Some(b) && queue == []
        else solvable == old(solvable) && goal == old(goal) && queue == q + Range(|old(nodes)|, |nodes|)
    {
      var target := Target(nodes, same, b);
      queue := Enter(current, m, b, q);
      RecordKeepsLabelled(next, nodes, edges, same, current, target, m, b);
      AddMove(current, target, m);
      assert nodes[target].board == b || same(nodes[target].board, b);
    }

    /**
     * One move of the table from node `current`: nothing when it is illegal, a visit of its
     * successor when it is legal. A query that raises, including the goal test of the
     * successor, is an error.
     */
    method TryMove(current: nat, m: Move, q: seq<nat>) returns (r: Result<seq<nat>>)
      requires Valid() && current < |nodes| && InTable(m)
      requires forall k :: 0 <= k < |q| ==> q[k] < |nodes|
      modifies this`nodes, this`edges, this`solvable, this`goal, this`parents, this`goalParent
      ensures Valid() && old(nodes) <= nodes && (old(solvable) ==> solvable)
      ensures next(old(nodes)[current].board, m).Err? ==> r == Err(next(old(nodes)[current].board, m).failure)
      ensures r.Ok? ==> forall k :: 0 <= k < |r.value| ==> r.value[k] < |nodes|
      ensures r.Ok? ==> Followed(next, nodes, same, current, m)
      ensures r.Ok? && !solvable ==> r.value == q + Range(|old(nodes)|, |nodes|)
    {
      var s := next(nodes[current].board, m);
      if s.Err? {
        return Err(s.failure);
      }
      if s.value.None? {
        assert Range(|nodes|, |nodes|) == [];
        return Ok(q);
      }
      var b := s.value.value;
      var completed := IsCompleted(b);
      if completed.Err? {
        return Err(completed.failure);
      }
      var queue := Visit(current, m, b, q);
      return Ok(queue);
    }

    /**
     * Move `k` of the table from node `current`, after the first `k` were followed: on success
     * the first `k + 1` are, and the queue still holds `q` followed by every node added since
     * `n0` nodes existed, unless a goal emptied it.
     */
    method ExpandStep(current: nat, k: nat, ghost n0: nat, q: seq<nat>, queue: seq<nat>) returns (r: Result<seq<nat>>)
      requires Valid() && current < |nodes| && k < 16 && n0 <= |nodes|
      requires forall j :: 0 <= j < |queue| ==> queue[j] < |nodes|
      requires !solvable ==> queue == q + Range(n0, |nodes|)
      requires Expanded(next, nodes, same, current, k)
      modifies this`nodes, this`edges, this`solvable, this`goal, this`parents, this`goalParent
      ensures Valid() && old(nodes) <= nodes && (old(solvable) ==> solvable)
      ensures next(old(nodes)[current].board, PossibleMoves()[k]).Err? ==>
        r == Err(next(old(nodes)[current].board, PossibleMoves()[k]).failure)
      ensures r.Ok? ==> forall j :: 0 <= j < |r.value| ==> r.value[j] < |nodes|
      ensures r.Ok? && !solvable ==> r.value == q + Range(n0, |nodes|)
      ensures r.Ok? ==> Expanded(next, nodes, same, current, k + 1)
    {
      ghost var before := nodes;
      r := TryMove(current, PossibleMoves()[k], queue);
      if r.Ok? {
        ExpandedGrows(next, before, nodes, same, current, k);
        if !solvable {
          RangeJoin(n0, |before|, |nodes|);
        }
      }
    }

    /** The body of the breadth-first loop for one dequeued node: every move of the table in order. */
    method Expand(current: nat, q: seq<nat>) returns (r: Result<seq<nat>>)
      requires Valid() && current < |nodes|
      requires forall k :: 0 <= k < |q| ==> q[k] < |nodes|
      modifies this`nodes, this`edges, this`solvable, this`goal, this`parents, this`goalParent
      ensures Valid() && old(nodes) <= nodes && (old(solvable) ==> solvable)
      ensures next(old(nodes)[current].board, PossibleMoves()[0]).Err? ==>
        r == Err(next(old(nodes)[current].board, PossibleMoves()[0]).failure)
      ensures r.Ok? ==> forall k :: 0 <= k < |r.value| ==> r.value[k] < |nodes|
      ensures r.Ok? && !solvable ==> r.value == q + Range(|old(nodes)|, |nodes|)
      ensures r.Ok? ==> Expanded(next, nodes, same, current, 16)
    {
      ghost var n0 := |nodes|;
      var queue: seq<nat> := q;
      var k := 0;
      while k < 16
        invariant 0 <= k <= 16
        invariant Valid() && old(nodes) <= nodes && (old(solvable) ==> solvable) && current < |nodes|
        invariant forall j :: 0 <= j < |queue| ==> queue[j] < |nodes|
        invariant !solvable ==> queue == q + Range(n0, |nodes|)
        invariant Expanded(next, nodes, same, current, k)
      {
        var step := ExpandStep(current, k, n0, q, queue);
        if step.Err? {
          return Err(step.failure);
        }
        queue := step.value;
        k := k + 1;
      }
      return Ok(queue);
    }

    /**
     * One round of the breadth-first loop: the head of the queue is dequeued and expanded.
     * Before a goal, the queue holds the nodes from `p` on and the nodes before `p` are
     * expanded; after the round that holds for `p + 1`.
     */
    method ExpandHead(q: seq<nat>, ghost p: nat, ghost first: bool) returns (r: Result<seq<nat>>)
      requires Valid() && q != []
      requires forall k :: 0 <= k < |q| ==> q[k] < |nodes|
      requires !solvable ==> p <= |nodes| && q == Range(p, |nodes|) && Closed(next, nodes, same, p)
      requires first ==> q == [0]
      requires !first ==> Expanded(next, nodes, same, 0, 16)
      modifies this`nodes, this`edges, this`solvable, this`goal, this`parents, this`goalParent
      ensures Valid() && old(nodes) <= nodes && (old(solvable) ==> solvable)
      ensures first && next(nodes[0].board, PossibleMoves()[0]).Err? ==>
        r == Err(next(nodes[0].board, PossibleMoves()[0]).failure)
      ensures r.Ok? ==> forall k :: 0 <= k < |r.value| ==> r.value[k] < |nodes|
      ensures r.Ok? && !solvable ==> p + 1 <= |nodes| && r.value == Range(p + 1, |nodes|) && Closed(next, nodes, same, p + 1)
      ensures r.Ok? ==> Expanded(next, nodes, same, 0, 16)
    {
      var current := q[0];
      ghost var before := nodes;
      if !solvable {
        RangeTail(p, |nodes|);
      }
      r := Expand(current, q[1..]);
      if r.Err? {
        return;
      }
      if !first {
        ExpandedGrows(next, before, nodes, same, 0, 16);
      }
      if !solvable {
        ClosedGrows(next, before, nodes, same, p);
        RangeJoin(p + 1, |before|, |nodes|);
      }
    }

    /**
     * traverse_from_state from the initial node: breadth first, one dequeued node per unit of
     * fuel. Until a goal is met the queue holds exactly the nodes not yet expanded, so a run
     * that empties it without a goal has closed the graph.
     */
    method Traverse(fuel: nat) returns (t: Traversal)
      requires Valid() && |nodes| == 1 && !solvable
      modifies this`nodes, this`edges, this`solvable, this`goal, this`parents, this`goalParent
      ensures Valid() && old(nodes) <= nodes
      ensures t == Finished && !solvable ==> Closed(next, nodes, same, |nodes|)
      ensures t == Finished ==> Expanded(next, nodes, same, 0, 16)
      ensures fuel > 0 && next(nodes[0].board, PossibleMoves()[0]).Err? ==>
        t == Raised(next(nodes[0].board, PossibleMoves()[0]).failure)
    {
      var q: seq<nat> := [0];
      ghost var p: nat := 0;
      var fuelLeft: nat := fuel;
      while q != []
        invariant Valid() && old(nodes) <= nodes
        invariant forall k :: 0 <= k < |q| ==> q[k] < |nodes|
        invariant !solvable ==> p <= |nodes| && q == Range(p, |nodes|) && Closed(next, nodes, same, p)
        invariant fuelLeft < fuel ==> Expanded(next, nodes, same, 0, 16)
        invariant fuelLeft <= fuel && (fuelLeft == fuel ==> q == [0])
        decreases fuelLeft
      {
        if fuelLeft == 0 {
          return FuelSpent;
        }
        var expanded := ExpandHead(q, p, fuelLeft == fuel);
        if expanded.Err? {
          return Raised(expanded.failure);
        }
        if !solvable {
          p := p + 1;
        }
        fuelLeft := fuelLeft - 1;
        q := expanded.value;
      }
      return Finished;
    }

    /** Every node's board is reachable from the initial board by table moves with successors. */
    lemma NodesAreReachable(k: nat)
      requires Valid() && k < |nodes|
      ensures Reaches(next, nodes[0].board, nodes[k].board)
    {
      DiscoveredReaches(next, nodes, parents, k);
    }

    /**
     * shortest_path as written: an unsolvable space fails the assertion; otherwise the lengths
     * to `end`, which nothing ever sets.
     */
    method ShortestPath() returns (r: Result<PathQuery>)
      requires Valid()
      ensures r.Err? <==> !solvable
      ensures r.Err? ==> r.failure == AssertionError
      ensures r.Ok? ==> r.value.source == nodes[0].board && r.value.target == None
    {
      if !solvable {
        return Err(AssertionError);
      }
      r := Ok(PathQuery(nodes[0].board, end));
    }

    /** shortest_path as intended: the length from the initial board to the goal the exploration found. */
    method ShortestPathIntended() returns (r: Result<PathQuery>)
      requires Valid()
      ensures r.Err? <==> !solvable
      ensures r.Err? ==> r.failure == AssertionError
      ensures r.Ok? ==> r.value.source == nodes[0].board && r.value.target.Some?
      ensures r.Ok? ==> IsCompleted(r.value.target.value) == Ok(true) && Reaches(next, r.value.source, r.value.target.value)
    {
      if !solvable {
        return Err(AssertionError);
      }
      DiscoveredReaches(next, nodes, parents, goalParent.0);
      ReachesStep(next, nodes[0].board, nodes[goalParent.0].board, goalParent.1, goal.value);
      r := Ok(PathQuery(nodes[0].board, goal));
    }
  }

  /**
   * StateSpace(map): the initial node, then the exploration under the Sokoban move rule. Only
   * a finished exploration yields the graph; a raised query yields none. A level without a
   * red worker raises KeyError at once, and one without a blue worker cannot finish, because
   * the move table holds moves of both colours.
   */
  method Explore(initial: Board, same: (Board, Board) -> bool, fuel: nat) returns (space: StateSpace?, t: Traversal)
    ensures space != null <==> t == Finished
    ensures IsCompleted(initial).Err? ==> t == Raised(IndexError)
    ensures t == Finished ==> Red in initial.workers && Blue in initial.workers
    ensures IsCompleted(initial).Ok? && Red !in initial.workers && fuel > 0 ==> t == Raised(KeyError)
    ensures space != null ==> fresh(space) && space.Valid() && space.same == same && space.next == Transition
    ensures space != null ==> space.nodes[0].board == initial
    ensures space != null && !space.solvable && Sound(same) ==>
      forall ms :: Play(Transition, initial, ms).Some? && IsCompleted(Play(Transition, initial, ms).value) == Ok(true) ==>
        Play(Transition, initial, ms).value == initial
  {
    var completed := IsCompleted(initial);
    if completed.Err? {
      return null, Raised(completed.failure);
    }
    var s := new StateSpace(initial, Transition, same);
    assert PossibleMoves()[0].color == Red && PossibleMoves()[8].color == Blue;
    t := s.Traverse(fuel);
    if t != Finished {
      return null, t;
    }
    assert Followed(Transition, s.nodes, same, 0, PossibleMoves()[8]);
    if !s.solvable && Sound(same) {
      forall ms | Play(Transition, initial, ms).Some? && IsCompleted(Play(Transition, initial, ms).value) == Ok(true)
        ensures Play(Transition, initial, ms).value == initial
      {
        UnsolvedHasNoOtherGoal(Transition, s.nodes, same, ms);
      }
    }
    space := s;
  }
}
