/**
 * Player colours of SynergyQuest: which coloured objects may interact, and the
 * cycle used to hand out colours to players in the lobby.
 */
module PlayerColors {

  /** The numeric values are shared with the controller clients (Red = 0 ... Any = 4). */
  datatype PlayerColor = Red | Blue | Green | Yellow | Any

  /** Numeric value of a colour, as the enum declares it. */
  function Index(c: PlayerColor): (n: nat)
    ensures n <= 4
    ensures n == 4 <==> c == Any
  {
    match c
    case Red => 0
    case Blue => 1
    case Green => 2
    case Yellow => 3
    case Any => 4
  }

  /** Objects of two colours may interact iff one of them is Any or they are equal. */
  predicate IsCompatibleWith(thisColor: PlayerColor, otherColor: PlayerColor)
    ensures thisColor == Any || otherColor == Any ==> IsCompatibleWith(thisColor, otherColor)
    ensures thisColor != Any && otherColor != Any ==> (IsCompatibleWith(thisColor, otherColor) <==> thisColor == otherColor)
  {
    thisColor == Any || otherColor == Any || thisColor == otherColor
  }

  /**
   * Next colour in the lobby cycle for `numPlayers` players. Each case falls through to
   * the Yellow case (Red) when there are not enough players for the next colour.
   */
  function NextColor(color: PlayerColor, numPlayers: int): (r: PlayerColor)
    ensures r == Any <==> color == Any
    ensures color != Any ==>
      Index(r) == if Index(color) + 1 < numPlayers && Index(color) < 3 then Index(color) + 1 else 0
  {
    match color
    case Any => Any
    case Red => if numPlayers > 1 then Blue else Red
    case Blue => if numPlayers > 2 then Green else Red
    case Green => if numPlayers > 3 then Yellow else Red
    case Yellow => Red
  }

  lemma CompatibilityIsReflexiveAndSymmetric(a: PlayerColor, b: PlayerColor)
    ensures IsCompatibleWith(a, a)
    ensures IsCompatibleWith(a, b) <==> IsCompatibleWith(b, a)
  {
  }

  lemma AnyIsCompatibleWithEverything(c: PlayerColor)
    ensures IsCompatibleWith(Any, c) && IsCompatibleWith(c, Any)
  {
  }

  lemma ConcreteColorsCompatibleIffEqual(a: PlayerColor, b: PlayerColor)
    requires a != Any && b != Any
    ensures IsCompatibleWith(a, b) <==> a == b
  {
  }

  lemma NextColorFixedPoints(n: int)
    ensures NextColor(Any, n) == Any
    ensures NextColor(Yellow, n) == Red
  {
  }

  /** With four or more players the cycle is Red -> Blue -> Green -> Yellow -> Red. */
  lemma FullCycle(c: PlayerColor, n: int)
    requires n >= 4 && c != Any
    ensures Index(NextColor(c, n)) == (Index(c) + 1) % 4
  {
  }

  /**
   * With n >= 1 players, a colour among the first n colours is mapped to a colour among
   * the first n colours: the next one if it exists, Red otherwise.
   */
  lemma CycleStaysAmongFirstColors(c: PlayerColor, n: int)
    requires n >= 1 && Index(c) < n && c != Any
    ensures Index(NextColor(c, n)) < n
    ensures Index(NextColor(c, n)) == if Index(c) + 1 < n && Index(c) < 3 then Index(c) + 1 else 0
  {
  }

  /** Iterating the cycle from Red visits exactly the first n colours, for 1 <= n <= 4. */
  function Iterate(c: PlayerColor, n: int, k: nat): PlayerColor
  {
    if k == 0 then c else NextColor(Iterate(c, n, k - 1), n)
  }

  lemma {:induction false} IterateFromRed(n: int, k: nat)
    requires 1 <= n <= 4
    ensures Index(Iterate(Red, n, k)) == k % n
  {
    if k > 0 {
      IterateFromRed(n, k - 1);
      var prev := Iterate(Red, n, k - 1);
      CycleStaysAmongFirstColors(prev, n);
    }
  }

  lemma NextColorOfConcreteIsConcrete(c: PlayerColor, n: int)
    requires c != Any
    ensures NextColor(c, n) != Any
  {
  }
}
