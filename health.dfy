/**
 * Health: the health points of an object. The stored value lives in a health saver; the
 * model keeps the default saver's value in `healthPoints`, initialised to the maximum as the
 * default saver does. Invocations of OnHealthChanged and OnDeath are recorded in `events`.
 */
module HealthPoints {

  datatype HealthEvent = Changed(value: int) | Death

  /** OnDeath is raised after a change to a value of at most 0. */
  function DeathIf(value: int): seq<HealthEvent>
  {
    if value <= 0 then [Death] else []
  }

  /**
   * The effect of the Value setter on a saver holding `hp` with maximum `maxValue`: the new
   * stored value and the events raised, in order. A value above the maximum is first stored,
   * then the setter re-enters with the maximum, and only afterwards reports the value it
   * was given.
   */
  function Assign(hp: int, maxValue: int, value: int): (r: (int, seq<HealthEvent>))
    decreases if value > maxValue then 1 else 0
  {
    if value == hp then (hp, [])
    else if value > maxValue then
      var inner := Assign(value, maxValue, maxValue);
      (inner.0, inner.1 + [Changed(value)] + DeathIf(value))
    else (value, [Changed(value)] + DeathIf(value))
  }

  /** Assigning the current value stores nothing and raises nothing. */
  lemma AssignSameIsNoOp(hp: int, maxValue: int)
    ensures Assign(hp, maxValue, hp) == (hp, [])
  {
  }

  /** After a change the stored value is the assigned value clamped to the maximum. */
  lemma {:induction false} AssignClamps(hp: int, maxValue: int, value: int)
    requires value != hp
    ensures Assign(hp, maxValue, value).0 == (if value > maxValue then maxValue else value)
    ensures Assign(hp, maxValue, value).0 <= maxValue
  {
    if value > maxValue {
      assert Assign(value, maxValue, maxValue).0 == maxValue;
    }
  }

  /**
   * A change to a value above the maximum reports twice: first the maximum, then the
   * unclamped value; OnDeath follows each report of a value of at most 0.
   */
  lemma {:induction false} AboveMaxReportsTwice(hp: int, maxValue: int, value: int)
    requires value != hp && value > maxValue
    ensures Assign(hp, maxValue, value).1 ==
      [Changed(maxValue)] + DeathIf(maxValue) + [Changed(value)] + DeathIf(value)
  {
    assert Assign(value, maxValue, maxValue).1 == [Changed(maxValue)] + DeathIf(maxValue);
  }

  /** A change within the maximum reports once, followed by OnDeath iff the value is at most 0. */
  lemma WithinMaxReportsOnce(hp: int, maxValue: int, value: int)
    requires value != hp && value <= maxValue
    ensures Assign(hp, maxValue, value) == (value, [Changed(value)] + DeathIf(value))
    ensures Death in Assign(hp, maxValue, value).1 <==> value <= 0
  {
  }

  class Health {
    var maxValue: int
    var healthPoints: int
    var events: seq<HealthEvent>

    /** Health never exceeds the maximum. */
    ghost predicate Valid()
      reads this
    {
      healthPoints <= maxValue
    }

    /** The component with its inspector maximum, after Awake initialised the saver. */
    constructor (maxValue: int)
      ensures Valid()
      ensures this.maxValue == maxValue && healthPoints == maxValue && events == []
    {
      this.maxValue := maxValue;
      healthPoints := maxValue;
      events := [];
    }

    function Value(): (r: int)
      reads this
      ensures Valid() ==> r <= maxValue
    {
      healthPoints
    }

    predicate IsDead()
      reads this
    {
      Value() <= 0
    }

    /** The Value setter, re-entering itself to clamp a value above the maximum. */
    method SetValue(value: int)
      modifies this
      decreases if value > maxValue then 1 else 0
      ensures maxValue == old(maxValue)
      ensures healthPoints == Assign(old(healthPoints), maxValue, value).0
      ensures events == old(events) + Assign(old(healthPoints), maxValue, value).1
      ensures value != old(healthPoints) ==> Valid()
      ensures value == old(healthPoints) ==> healthPoints == old(healthPoints) && events == old(events)
    {
      if value != healthPoints {
        healthPoints := value;
        if value > maxValue {
          SetValue(maxValue);
        }
        events := events + [Changed(value)];
        if value <= 0 {
          events := events + [Death];
        }
        AssignClamps(old(healthPoints), maxValue, value);
      }
    }

    /** The MaxValue setter: health above the new maximum is lowered to it. */
    method SetMaxValue(value: int)
      modifies this
      ensures maxValue == value && Valid()
      ensures old(healthPoints) > value ==>
        healthPoints == value && events == old(events) + [Changed(value)] + DeathIf(value)
      ensures old(healthPoints) <= value ==> healthPoints == old(healthPoints) && events == old(events)
    {
      maxValue := value;
      if Value() > maxValue {
        SetValue(maxValue);
      }
    }

    /**
     * An attack: instagib kills outright when a player deals positive damage; otherwise the
     * damage is subtracted, so negative damage heals, up to the maximum.
     */
    method OnAttack(damage: int, instagib: bool, attackerIsPlayer: bool)
      requires Valid()
      modifies this
      ensures Valid() && maxValue == old(maxValue)
      ensures var target := if instagib && damage > 0 && attackerIsPlayer then 0 else old(healthPoints) - damage;
        var r := Assign(old(healthPoints), maxValue, target);
        healthPoints == r.0 && events == old(events) + r.1
    {
      if instagib && damage > 0 && attackerIsPlayer {
        SetValue(0);
      } else {
        SetValue(Value() - damage);
      }
    }

    /** Reset: back to full health. */
    method Reset()
      requires Valid()
      modifies this
      ensures Valid() && maxValue == old(maxValue)
      ensures healthPoints == maxValue
      ensures !IsDead() <==> maxValue > 0
      ensures events == old(events) + Assign(old(healthPoints), maxValue, maxValue).1
    {
      SetValue(maxValue);
    }
  }
}
