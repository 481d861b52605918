/**
 * Collection helpers of SynergyQuest. Lists and dictionaries that the C# extension methods
 * change in place are classes holding a `seq` or a `map`; the methods that return new
 * arrays or read-only results are functions on sequences and maps.
 */
module CollectionsExtensions {

  datatype Outcome = Done | ArgumentOutOfRange

  /** A List<T> that Resize and EnsureMinSize change in place. */
  class ListBuffer<T> {
    var items: seq<T>

    constructor (initial: seq<T>)
      ensures items == initial
    {
      items := initial;
    }

    /**
     * Grows the list with `dflt` (the C# default(T)) or cuts it to `newSize` elements.
     * A negative size makes RemoveRange throw and leaves the list unchanged.
     */
    method Resize(newSize: int, dflt: T) returns (outcome: Outcome)
      modifies this
      ensures outcome == (if newSize < 0 then ArgumentOutOfRange else Done)
      ensures newSize < 0 ==> items == old(items)
      ensures newSize >= 0 ==> |items| == newSize
      ensures newSize >= 0 ==> items[..Min(|old(items)|, newSize)] == old(items)[..Min(|old(items)|, newSize)]
      ensures forall k :: |old(items)| <= k < |items| ==> items[k] == dflt
    {
      if newSize > |items| {
        items := items + seq(newSize - |items|, _ => dflt);
        outcome := Done;
      } else if newSize < |items| {
        if newSize < 0 {
          outcome := ArgumentOutOfRange;
        } else {
          items := items[..newSize];
          outcome := Done;
        }
      } else {
        outcome := Done;
      }
    }

    /** Grows the list to at least `minSize` elements; never shrinks it. */
    method EnsureMinSize(minSize: int, dflt: T)
      modifies this
      ensures |items| == Max(|old(items)|, minSize)
      ensures items[..|old(items)|] == old(items)
      ensures forall k :: |old(items)| <= k < |items| ==> items[k] == dflt
    {
      if minSize > |items| {
        var _ := Resize(minSize, dflt);
      }
    }
  }

  function Min(a: int, b: int): int { if a < b then a else b }
  function Max(a: int, b: int): int { if a < b then b else a }

  function Reverse<T>(s: seq<T>): (r: seq<T>)
    ensures |r| == |s|
    ensures forall k :: 0 <= k < |s| ==> r[k] == s[|s| - 1 - k]
  {
    if s == [] then [] else Reverse(s[1..]) + [s[0]]
  }

  /** Linq Skip: the elements after the first `n`, none when there are not more than `n`. */
  function Skip<T>(s: seq<T>, n: nat): (r: seq<T>)
    ensures |r| == if n >= |s| then 0 else |s| - n
    ensures forall k :: 0 <= k < |r| ==> r[k] == s[n + k]
  {
    if n >= |s| then [] else s[n..]
  }

  /** All but the last element, computed as the source does: reverse, skip one, reverse. */
  function Init<T>(s: seq<T>): (r: seq<T>)
    ensures |r| == if s == [] then 0 else |s| - 1
  {
    Reverse(Skip(Reverse(s), 1))
  }

  lemma InitDropsLast<T>(s: seq<T>)
    ensures s == [] ==> Init(s) == []
    ensures s != [] ==> Init(s) == s[..|s| - 1]
  {
    if s != [] {
      var r := Init(s);
      assert |r| == |s| - 1;
      forall k | 0 <= k < |r| ensures r[k] == s[k] {
      }
    }
  }

  /** The stored value when the key is present, the default otherwise. */
  function GetOrDefault<K, V>(dictionary: map<K, V>, key: K, defaultValue: V): (r: V)
    ensures key in dictionary ==> r == dictionary[key]
    ensures key !in dictionary ==> r == defaultValue
  {
    if key in dictionary then dictionary[key] else defaultValue
  }

  /** A Dictionary<K, V> that GetOrAdd extends in place. */
  class Dictionary<K(==), V> {
    var entries: map<K, V>

    constructor (initial: map<K, V>)
      ensures entries == initial
    {
      entries := initial;
    }

    /**
     * Returns the value stored under `key`; an absent key is first added with `value`
     * (the value of the source's Lazy<V>, forced only in that case).
     */
    method GetOrAdd(key: K, value: V) returns (r: V)
      modifies this
      ensures key in old(entries) ==> r == old(entries)[key] && entries == old(entries)
      ensures key !in old(entries) ==> r == value && entries == old(entries)[key := value]
      ensures key in entries && entries[key] == r
    {
      if key in entries {
        r := entries[key];
      } else {
        entries := entries[key := value];
        r := value;
      }
    }
  }

  /** A new array with `newElement` appended. */
  function Plus<T>(xs: seq<T>, newElement: T): (r: seq<T>)
    ensures |r| == |xs| + 1
    ensures r[..|xs|] == xs && r[|xs|] == newElement
  {
    xs + [newElement]
  }

  /** A new array with `newElement` prepended. */
  function Prepend<T>(xs: seq<T>, newElement: T): (r: seq<T>)
    ensures |r| == |xs| + 1
    ensures r[0] == newElement && r[1..] == xs
  {
    [newElement] + xs
  }

  /** What the array helpers can throw. */
  datatype ArrayException = OverflowException | ArgumentOutOfRangeException | ArgumentException

  /** A new array, or the exception thrown instead of returning it. */
  datatype ArrayResult<T> = Returned(elements: seq<T>) | Threw(exception: ArrayException)

  /**
   * A new array without the element at `index`. Allocating an array of length -1 throws
   * OverflowException, so an empty array fails whatever the index; otherwise the first
   * Array.Copy throws ArgumentOutOfRangeException for a negative index and
   * ArgumentException for an index that does not fit the new array.
   */
  function RemoveAt<T>(xs: seq<T>, index: int): (r: ArrayResult<T>)
    ensures r.Returned? <==> 0 <= index < |xs|
    ensures |xs| == 0 ==> r == Threw(OverflowException)
    ensures |xs| > 0 && index < 0 ==> r == Threw(ArgumentOutOfRangeException)
    ensures |xs| > 0 && index >= |xs| ==> r == Threw(ArgumentException)
    ensures r.Returned? ==> |r.elements| == |xs| - 1
    ensures r.Returned? ==> forall k :: 0 <= k < index ==> r.elements[k] == xs[k]
    ensures r.Returned? ==> forall k :: index <= k < |r.elements| ==> r.elements[k] == xs[k + 1]
  {
    if |xs| == 0 then Threw(OverflowException)
    else if index < 0 then Threw(ArgumentOutOfRangeException)
    else if index > |xs| - 1 then Threw(ArgumentException)
    else Returned(xs[..index] + xs[index + 1..])
  }

  /** Array.IndexOf: the first index holding `value`, or -1. */
  function IndexOf<T(==)>(xs: seq<T>, value: T): (idx: int)
    ensures -1 <= idx < |xs|
    ensures idx == -1 <==> value !in xs
    ensures idx >= 0 ==> xs[idx] == value && value !in xs[..idx]
  {
    if xs == [] then -1
    else if xs[0] == value then 0
    else
      var rest := IndexOf(xs[1..], value);
      if rest == -1 then -1
      else
        assert xs[1..][..rest] == xs[1..rest + 1];
        rest + 1
  }

  /** Removes the first occurrence of `value`; an array without it is returned as it is. */
  function RemoveFirst<T(==)>(xs: seq<T>, value: T): (r: seq<T>)
    ensures value !in xs ==> r == xs
    ensures value in xs ==> |r| == |xs| - 1
  {
    var idx := IndexOf(xs, value);
    if idx >= 0 then RemoveAt(xs, idx).elements else xs
  }

  lemma RemoveFirstRemovesOnlyFirstOccurrence<T>(xs: seq<T>, value: T)
    ensures value !in xs ==> RemoveFirst(xs, value) == xs
    ensures value in xs ==>
      exists i :: 0 <= i < |xs| && xs[i] == value && value !in xs[..i] &&
                  RemoveFirst(xs, value) == xs[..i] + xs[i + 1..]
    ensures value in xs ==> multiset(RemoveFirst(xs, value)) == multiset(xs) - multiset{value}
  {
    if value in xs {
      var i := IndexOf(xs, value);
      assert xs == xs[..i] + [xs[i]] + xs[i + 1..];
    }
  }
}
