/**
 * Switchable: observes a list of switches and is activated iff all of them are on. The
 * values of the switches are cached in `switchValues`, one slot per switch. With
 * `noDeactivation`, an activation that has once become true stays true. Invocations of
 * OnActivationChanged are recorded in the `activationEvents` log; which slots have a
 * registered change handler is recorded in `subscribed`.
 */
module Switchables {

  /** An entry of the serialized switch array; GetComponent may yield null. */
  datatype SwitchRef = Null | Ref(id: nat)

  /** Enumerable.Distinct: the first occurrence of every element, in order. */
  function Distinct(s: seq<SwitchRef>): (r: seq<SwitchRef>)
    ensures forall x :: x in r <==> x in s
    ensures forall i, j :: 0 <= i < j < |r| ==> r[i] != r[j]
    ensures |r| <= |s|
  {
    if s == [] then []
    else
      var prefix := Distinct(s[..|s| - 1]);
      assert forall x :: x in s <==> x in s[..|s| - 1] || x == s[|s| - 1];
      if s[|s| - 1] in prefix then prefix else prefix + [s[|s| - 1]]
  }

  /**
   * Distinct keeps the order of first occurrences: an element earlier in the result occurs in
   * the input before every occurrence of a later one.
   */
  lemma {:induction false} DistinctKeepsFirstOccurrenceOrder(s: seq<SwitchRef>, i: nat, j: nat, k: nat)
    requires i < j < |Distinct(s)| && k < |s| && s[k] == Distinct(s)[j]
    ensures Distinct(s)[i] in s[..k]
  {
    var init := s[..|s| - 1];
    var prefix := Distinct(init);
    if j < |prefix| {
      if k < |init| {
        DistinctKeepsFirstOccurrenceOrder(init, i, j, k);
        assert init[..k] == s[..k];
      } else {
        assert prefix[i] in init;
        assert init == s[..k];
      }
    } else {
      assert Distinct(s)[j] == s[|s| - 1] && s[|s| - 1] !in prefix;
      assert forall k' :: 0 <= k' < |init| ==> init[k'] != s[|s| - 1];
      assert prefix[i] in init;
      assert init == s[..k];
    }
  }

  /** A list without duplicates is left as it is, so acquiring switches again adds none. */
  lemma {:induction false} DistinctKeepsDuplicateFree(s: seq<SwitchRef>)
    requires forall i, j :: 0 <= i < j < |s| ==> s[i] != s[j]
    ensures Distinct(s) == s
  {
    if s != [] {
      var init := s[..|s| - 1];
      DistinctKeepsDuplicateFree(init);
      assert s[|s| - 1] !in init;
      assert init + [s[|s| - 1]] == s;
    }
  }

  /** Distinct is idempotent. */
  lemma DistinctIsIdempotent(s: seq<SwitchRef>)
    ensures Distinct(Distinct(s)) == Distinct(s)
  {
    DistinctKeepsDuplicateFree(Distinct(s));
  }

  /** `All(v => v)` over the cached values. */
  predicate AllOn(values: seq<bool>)
  {
    forall i :: 0 <= i < |values| ==> values[i]
  }

  class Switchable {
    var switches: seq<SwitchRef>
    const noDeactivation: bool
    var hasBeenActivatedOnce: bool
    var activation: bool
    var switchValues: array<bool>
    /** Indices of the switches this component has a change handler registered on. */
    var subscribed: set<nat>
    /** The values OnActivationChanged was invoked with, in order. */
    var activationEvents: seq<bool>

    /**
     * One cached value per switch, and the latch: with noDeactivation, having been
     * activated once means being activated.
     */
    ghost predicate Valid()
      reads this
    {
      switchValues.Length == |switches| &&
      (noDeactivation && hasBeenActivatedOnce ==> activation) &&
      (forall i :: i in subscribed ==> i < |switches| && switches[i] != Null)
    }

    /** Instantiation followed by Awake, which runs AcquireSwitches. */
    constructor (configured: seq<SwitchRef>, discovered: seq<SwitchRef>, noDeactivation: bool)
      ensures Valid()
      ensures switches == Distinct(discovered + configured)
      ensures fresh(switchValues) && forall i :: 0 <= i < switchValues.Length ==> !switchValues[i]
      ensures activation && !hasBeenActivatedOnce && this.noDeactivation == noDeactivation
      ensures subscribed == {} && activationEvents == []
    {
      this.noDeactivation := noDeactivation;
      hasBeenActivatedOnce := false;
      activation := true;
      subscribed := {};
      activationEvents := [];
      var all := Distinct(discovered + configured);
      switches := all;
      switchValues := new bool[|all|](_ => false);
    }

    /**
     * The switches found by tag (`discovered`) followed by the configured ones, without
     * duplicates; the cache is reallocated to match. Its callers (Awake and AddSwitches, after
     * OnDisable) hold no handler registrations at that point.
     */
    method AcquireSwitches(discovered: seq<SwitchRef>)
      requires noDeactivation && hasBeenActivatedOnce ==> activation
      requires subscribed == {}
      modifies this
      ensures Valid()
      ensures switches == Distinct(discovered + old(switches))
      ensures fresh(switchValues) && switchValues.Length == |switches|
      ensures forall i :: 0 <= i < switchValues.Length ==> !switchValues[i]
      ensures activation == old(activation) && hasBeenActivatedOnce == old(hasBeenActivatedOnce)
      ensures subscribed == {} && activationEvents == old(activationEvents)
    {
      switches := Distinct(discovered + switches);
      switchValues := new bool[|switches|](_ => false);
    }

    /**
     * Recomputes the activation from the cached values unless the latch holds it; the event
     * is raised only when the activation changed and callbacks are not suppressed.
     */
    method ComputeActivation(suppressCallbacks: bool)
      requires Valid()
      modifies this
      ensures Valid()
      ensures !noDeactivation || !old(hasBeenActivatedOnce) ==>
        activation == AllOn(switchValues[..]) && hasBeenActivatedOnce == (activation || old(hasBeenActivatedOnce))
      ensures noDeactivation && old(hasBeenActivatedOnce) ==> activation && hasBeenActivatedOnce
      ensures activationEvents ==
        if !suppressCallbacks && old(activation) != activation then old(activationEvents) + [activation]
        else old(activationEvents)
      ensures switches == old(switches) && switchValues == old(switchValues) && subscribed == old(subscribed)
    {
      var oldActivation := activation;
      if !noDeactivation || !hasBeenActivatedOnce {
        activation := AllOn(switchValues[..]);
        hasBeenActivatedOnce := activation || hasBeenActivatedOnce;
      }
      if !suppressCallbacks && oldActivation != activation {
        activationEvents := activationEvents + [activation];
      }
    }

    /**
     * Resets the cached value of every non-null switch to off, registers a handler on it and
     * recomputes the activation without raising the event.
     */
    method OnEnable()
      requires Valid()
      modifies this, switchValues
      ensures Valid()
      ensures switches == old(switches) && switchValues == old(switchValues)
      ensures forall i :: 0 <= i < switchValues.Length ==>
        switchValues[i] == (if switches[i] == Null then old(switchValues[i]) else false)
      ensures subscribed == old(subscribed) + set i | 0 <= i < |switches| && switches[i] != Null
      ensures !noDeactivation || !old(hasBeenActivatedOnce) ==> activation == AllOn(switchValues[..])
      ensures noDeactivation && old(hasBeenActivatedOnce) ==> activation
      ensures activationEvents == old(activationEvents)
    {
      var i := 0;
      while i < |switches|
        invariant 0 <= i <= |switches| && Valid()
        invariant switches == old(switches) && switchValues == old(switchValues)
        invariant activation == old(activation) && hasBeenActivatedOnce == old(hasBeenActivatedOnce)
        invariant activationEvents == old(activationEvents)
        invariant forall k :: 0 <= k < i ==>
          switchValues[k] == (if switches[k] == Null then old(switchValues[k]) else false)
        invariant forall k :: i <= k < switchValues.Length ==> switchValues[k] == old(switchValues[k])
        invariant subscribed == old(subscribed) + set k | 0 <= k < i && switches[k] != Null
      {
        if switches[i] != Null {
          switchValues[i] := false;
          subscribed := subscribed + {i};
        }
        i := i + 1;
      }
      ComputeActivation(true);
    }

    /** Unregisters the change handlers of all non-null switches. */
    method OnDisable()
      requires Valid()
      modifies this
      ensures Valid()
      ensures subscribed == {}
      ensures switches == old(switches) && switchValues == old(switchValues)
      ensures activation == old(activation) && hasBeenActivatedOnce == old(hasBeenActivatedOnce)
      ensures activationEvents == old(activationEvents)
    {
      var i := 0;
      while i < |switches|
        invariant 0 <= i <= |switches| && Valid()
        invariant switches == old(switches) && switchValues == old(switchValues)
        invariant activation == old(activation) && hasBeenActivatedOnce == old(hasBeenActivatedOnce)
        invariant activationEvents == old(activationEvents)
        invariant forall k :: k in subscribed ==> k >= i
      {
        if switches[i] != Null {
          subscribed := subscribed - {i};
        }
        i := i + 1;
      }
    }

    /** The handler registered on switch `switchIdx`: store its value and recompute. */
    method OnSwitchValueChanged(switchIdx: nat, value: bool)
      requires Valid() && switchIdx < switchValues.Length
      modifies this, switchValues
      ensures Valid()
      ensures switches == old(switches) && switchValues == old(switchValues) && subscribed == old(subscribed)
      ensures switchValues[..] == old(switchValues[..])[switchIdx := value]
      ensures !noDeactivation || !old(hasBeenActivatedOnce) ==> activation == AllOn(switchValues[..])
      ensures noDeactivation && old(hasBeenActivatedOnce) ==> activation
      ensures activationEvents ==
        if old(activation) != activation then old(activationEvents) + [activation] else old(activationEvents)
    {
      switchValues[switchIdx] := value;
      ComputeActivation(false);
    }

    /** Adds switches: unregister, extend the configured list, re-acquire and re-enable. */
    method AddSwitches(additionalSwitches: seq<SwitchRef>, discovered: seq<SwitchRef>)
      requires Valid()
      modifies this
      ensures Valid()
      ensures switches == Distinct(discovered + (old(switches) + additionalSwitches))
      ensures fresh(switchValues) && switchValues.Length == |switches|
      ensures forall i :: 0 <= i < switchValues.Length ==> !switchValues[i]
      ensures subscribed == set i | 0 <= i < |switches| && switches[i] != Null
      ensures !noDeactivation || !old(hasBeenActivatedOnce) ==> activation == AllOn(switchValues[..])
      ensures !noDeactivation || !old(hasBeenActivatedOnce) ==> (activation <==> |switches| == 0)
      ensures noDeactivation && old(hasBeenActivatedOnce) ==> activation
      ensures activationEvents == old(activationEvents)
    {
      OnDisable();
      switches := switches + additionalSwitches;
      AcquireSwitches(discovered);
      OnEnable();
      if |switches| > 0 {
        assert !switchValues[..][0];
      }
    }
  }
}
