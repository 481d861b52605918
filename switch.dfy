/**
 * Switch: a boolean that players activate or deactivate. Setting `Value` to a different
 * value raises OnValueChanged (recorded in the `valueChangedEvents` log) and, for a switch
 * persistent across scenes, saves the value in the DungeonDataKeeper under the switch's guid.
 */
module Switches {
  import opened DungeonData

  datatype Option<T> = None | Some(value: T)

  class Switch {
    var value: bool
    var isPersistentAcrossScenes: bool
    /** The Guid component of the game object, if it has one. */
    var guid: Option<Guid>
    /** The values OnValueChanged was invoked with, in order. */
    var valueChangedEvents: seq<bool>
    /** Number of "cannot make switch persistent" errors logged by OnValidate. */
    var errorLogs: nat
    /** DungeonDataKeeper.Instance. */
    const keeper: DungeonDataKeeper

    /** A persistent switch always has a guid to save its value under. */
    ghost predicate Valid()
      reads this
    {
      isPersistentAcrossScenes ==> guid.Some?
    }

    /**
     * Instantiation followed by Awake: the persistence flag from the inspector is kept only
     * when the object has a Guid component.
     */
    constructor (initialValue: bool, persistentSetting: bool, guidComponent: Option<Guid>, keeper: DungeonDataKeeper)
      ensures Valid()
      ensures value == initialValue && guid == guidComponent && this.keeper == keeper
      ensures isPersistentAcrossScenes <==> guidComponent.Some? && persistentSetting
      ensures valueChangedEvents == [] && errorLogs == 0
    {
      value := initialValue;
      guid := guidComponent;
      this.keeper := keeper;
      valueChangedEvents := [];
      errorLogs := 0;
      isPersistentAcrossScenes := guidComponent.Some? && persistentSetting;
    }

    /** The Value getter: the last value assigned. */
    function GetValue(): bool
      reads this
    {
      value
    }

    /**
     * The Value setter. Only a real change raises the event (once, with the new value) and,
     * when the switch is persistent, saves the new value.
     */
    method SetValue(newValue: bool)
      requires Valid()
      modifies this, keeper
      ensures Valid()
      ensures GetValue() == newValue
      ensures guid == old(guid) && isPersistentAcrossScenes == old(isPersistentAcrossScenes)
      ensures errorLogs == old(errorLogs)
      ensures valueChangedEvents ==
        if old(value) != newValue then old(valueChangedEvents) + [newValue] else old(valueChangedEvents)
      ensures keeper.persistentSwitchValues ==
        if old(value) != newValue && isPersistentAcrossScenes
        then old(keeper.persistentSwitchValues)[guid.value := newValue]
        else old(keeper.persistentSwitchValues)
      ensures keeper.persistentChestValues == old(keeper.persistentChestValues)
      ensures keeper.objectPositions == old(keeper.objectPositions)
      ensures keeper.destroyedObjects == old(keeper.destroyedObjects)
      ensures keeper.collectedKeys == old(keeper.collectedKeys)
    {
      var oldValue := value;
      value := newValue;
      if oldValue != value {
        if isPersistentAcrossScenes {
          keeper.SaveSwitchActivation(guid.value, value);
        }
        valueChangedEvents := valueChangedEvents + [newValue];
      }
    }

    /**
     * Start: a persistent switch takes its saved value, defaulting to its current one, through
     * the setter, so a saved value that differs from the current one raises OnValueChanged once.
     */
    method Start()
      requires Valid()
      modifies this, keeper
      ensures Valid()
      ensures isPersistentAcrossScenes == old(isPersistentAcrossScenes) && guid == old(guid)
      ensures old(isPersistentAcrossScenes) ==>
        value == old(keeper.HasSwitchBeenActivated(guid.value, value))
      ensures valueChangedEvents == if value != old(value) then old(valueChangedEvents) + [value] else old(valueChangedEvents)
      ensures !isPersistentAcrossScenes ==> value == old(value)
      ensures keeper.persistentSwitchValues == old(keeper.persistentSwitchValues)
      ensures keeper.persistentChestValues == old(keeper.persistentChestValues)
      ensures keeper.objectPositions == old(keeper.objectPositions)
      ensures keeper.destroyedObjects == old(keeper.destroyedObjects)
      ensures keeper.collectedKeys == old(keeper.collectedKeys)
      ensures errorLogs == old(errorLogs)
    {
      if isPersistentAcrossScenes {
        var saved := keeper.HasSwitchBeenActivated(guid.value, value);
        SetValue(saved);
      }
    }

    /** OnValidate (editor time): persistence without a Guid component is switched off with an error. */
    method OnValidate(guidComponent: Option<Guid>)
      modifies this
      ensures isPersistentAcrossScenes == (old(isPersistentAcrossScenes) && guidComponent.Some?)
      ensures errorLogs == if old(isPersistentAcrossScenes) && guidComponent.None? then old(errorLogs) + 1 else old(errorLogs)
      ensures value == old(value) && guid == old(guid) && valueChangedEvents == old(valueChangedEvents)
    {
      if isPersistentAcrossScenes && guidComponent.None? {
        isPersistentAcrossScenes := false;
        errorLogs := errorLogs + 1;
      }
    }
  }

  /** Assigning the current value raises nothing and saves nothing. */
  method SetSameValueIsSilent(s: Switch)
    requires s.Valid()
    modifies s, s.keeper
    ensures s.valueChangedEvents == old(s.valueChangedEvents)
    ensures s.keeper.persistentSwitchValues == old(s.keeper.persistentSwitchValues)
  {
    s.SetValue(s.GetValue());
  }
}
