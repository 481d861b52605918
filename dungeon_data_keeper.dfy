/**
 * DungeonDataKeeper: dungeon data that survives scene changes. Objects are identified by
 * their guid strings; five independent stores hold switch values, opened chests, saved
 * positions, collected keys and persistently destroyed objects.
 */
module DungeonData {

  type Guid = string

  /** A Unity Vector3; it is only stored and handed back. */
  datatype Vector3 = Vector3(x: real, y: real, z: real)

  class DungeonDataKeeper {
    var persistentSwitchValues: map<Guid, bool>
    var persistentChestValues: map<Guid, bool>
    var objectPositions: map<Guid, Vector3>
    var destroyedObjects: set<Guid>
    var collectedKeys: set<Guid>

    constructor ()
      ensures persistentSwitchValues == map[] && persistentChestValues == map[]
      ensures objectPositions == map[] && destroyedObjects == {} && collectedKeys == {}
    {
      persistentSwitchValues := map[];
      persistentChestValues := map[];
      objectPositions := map[];
      destroyedObjects := {};
      collectedKeys := {};
    }

    /** The saved value of a switch, or `defaultValue` when none was saved. */
    function HasSwitchBeenActivated(switchGuid: Guid, defaultValue: bool): (r: bool)
      reads this
      ensures switchGuid in persistentSwitchValues ==> r == persistentSwitchValues[switchGuid]
      ensures switchGuid !in persistentSwitchValues ==> r == defaultValue
    {
      if switchGuid in persistentSwitchValues then persistentSwitchValues[switchGuid] else defaultValue
    }

    /** Stores the switch's current value; only the switch store changes. */
    method SaveSwitchActivation(switchGuid: Guid, value: bool)
      modifies this
      ensures persistentSwitchValues == old(persistentSwitchValues)[switchGuid := value]
      ensures persistentChestValues == old(persistentChestValues) && objectPositions == old(objectPositions)
      ensures destroyedObjects == old(destroyedObjects) && collectedKeys == old(collectedKeys)
      ensures forall d :: HasSwitchBeenActivated(switchGuid, d) == value
    {
      persistentSwitchValues := persistentSwitchValues[switchGuid := value];
    }

    /** Whether a chest has been opened, or `defaultValue` when nothing was saved. */
    function HasChestBeenOpened(chestGuid: Guid, defaultValue: bool): (r: bool)
      reads this
      ensures chestGuid in persistentChestValues ==> r == persistentChestValues[chestGuid]
      ensures chestGuid !in persistentChestValues ==> r == defaultValue
    {
      if chestGuid in persistentChestValues then persistentChestValues[chestGuid] else defaultValue
    }

    method SaveChestActivation(chestGuid: Guid, value: bool)
      modifies this
      ensures persistentChestValues == old(persistentChestValues)[chestGuid := value]
      ensures persistentSwitchValues == old(persistentSwitchValues) && objectPositions == old(objectPositions)
      ensures destroyedObjects == old(destroyedObjects) && collectedKeys == old(collectedKeys)
      ensures forall d :: HasChestBeenOpened(chestGuid, d) == value
    {
      persistentChestValues := persistentChestValues[chestGuid := value];
    }

    /** TryGetValue on the position store: (found, position). */
    function GetSavedPosition(objectGuid: Guid): (r: (bool, Vector3))
      reads this
      ensures r.0 <==> objectGuid in objectPositions
      ensures r.0 ==> r.1 == objectPositions[objectGuid]
      ensures !r.0 ==> r.1 == Vector3(0.0, 0.0, 0.0)
    {
      if objectGuid in objectPositions then (true, objectPositions[objectGuid])
      else (false, Vector3(0.0, 0.0, 0.0))
    }

    /** Stores the object's current position (a parameter here), overwriting an earlier one. */
    method SavePosition(objectGuid: Guid, position: Vector3)
      modifies this
      ensures objectPositions == old(objectPositions)[objectGuid := position]
      ensures persistentSwitchValues == old(persistentSwitchValues) && persistentChestValues == old(persistentChestValues)
      ensures destroyedObjects == old(destroyedObjects) && collectedKeys == old(collectedKeys)
      ensures GetSavedPosition(objectGuid) == (true, position)
    {
      objectPositions := objectPositions[objectGuid := position];
    }

    /** Dictionary.Remove: true iff a position had been stored; afterwards none is. */
    method RemovePosition(objectGuid: Guid) returns (removed: bool)
      modifies this
      ensures removed <==> objectGuid in old(objectPositions)
      ensures objectPositions == old(objectPositions) - {objectGuid}
      ensures persistentSwitchValues == old(persistentSwitchValues) && persistentChestValues == old(persistentChestValues)
      ensures destroyedObjects == old(destroyedObjects) && collectedKeys == old(collectedKeys)
      ensures !GetSavedPosition(objectGuid).0
    {
      removed := objectGuid in objectPositions;
      objectPositions := objectPositions - {objectGuid};
    }

    method MarkKeyAsCollected(keyGuid: Guid)
      modifies this
      ensures collectedKeys == old(collectedKeys) + {keyGuid}
      ensures persistentSwitchValues == old(persistentSwitchValues) && persistentChestValues == old(persistentChestValues)
      ensures objectPositions == old(objectPositions) && destroyedObjects == old(destroyedObjects)
      ensures HasKeyBeenCollected(keyGuid)
    {
      collectedKeys := collectedKeys + {keyGuid};
    }

    predicate HasKeyBeenCollected(keyGuid: Guid)
      reads this
    {
      keyGuid in collectedKeys
    }

    method MarkAsDestroyed(objectGuid: Guid)
      modifies this
      ensures destroyedObjects == old(destroyedObjects) + {objectGuid}
      ensures persistentSwitchValues == old(persistentSwitchValues) && persistentChestValues == old(persistentChestValues)
      ensures objectPositions == old(objectPositions) && collectedKeys == old(collectedKeys)
      ensures HasObjectBeenDestroyed(objectGuid)
    {
      destroyedObjects := destroyedObjects + {objectGuid};
    }

    predicate HasObjectBeenDestroyed(objectGuid: Guid)
      reads this
    {
      objectGuid in destroyedObjects
    }
  }

  /**
   * Marking twice is the same as marking once: HashSet.Add of a present element changes
   * nothing.
   */
  method MarkTwice(keeper: DungeonDataKeeper, keyGuid: Guid, objectGuid: Guid)
    modifies keeper
    ensures keeper.collectedKeys == old(keeper.collectedKeys) + {keyGuid}
    ensures keeper.destroyedObjects == old(keeper.destroyedObjects) + {objectGuid}
  {
    keeper.MarkKeyAsCollected(keyGuid);
    keeper.MarkKeyAsCollected(keyGuid);
    keeper.MarkAsDestroyed(objectGuid);
    keeper.MarkAsDestroyed(objectGuid);
  }

  /** Saving a position and removing it again reports a removal and leaves no entry. */
  method SaveThenRemove(keeper: DungeonDataKeeper, objectGuid: Guid, position: Vector3) returns (removed: bool)
    modifies keeper
    ensures removed
    ensures keeper.objectPositions == old(keeper.objectPositions) - {objectGuid}
  {
    keeper.SavePosition(objectGuid, position);
    removed := keeper.RemovePosition(objectGuid);
  }
}
