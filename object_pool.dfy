/**
 * ObjectPool: instances of a prefab are handed out by GetInstance and handed back by
 * ReturnInstance, which keeps them on a stack of unused instances for reuse.
 * Only a game object's active flag is modelled; instantiating the prefab allocates a
 * fresh object whose active flag is the prefab's.
 */
module ObjectPools {

  class GameObject {
    var active: bool

    constructor (active: bool)
      ensures this.active == active
    {
      this.active := active;
    }
  }

  class ObjectPool {
    /** Whether instances of the prefab start out active. */
    const prefabActive: bool
    /** The stack of unused instances; its last element is the top. */
    var unusedInstances: seq<GameObject>

    constructor (prefabActive: bool)
      ensures this.prefabActive == prefabActive && unusedInstances == []
    {
      this.prefabActive := prefabActive;
      unusedInstances := [];
    }

    function Top(): set<GameObject>
      reads this
    {
      if unusedInstances == [] then {} else {unusedInstances[|unusedInstances| - 1]}
    }

    /**
     * Pops the most recently returned instance, or instantiates the prefab when the pool
     * is empty; with `activate` the instance is switched on.
     */
    method GetInstance(activate: bool) returns (instance: GameObject)
      modifies this, Top()
      ensures old(unusedInstances) != [] ==>
        instance == old(unusedInstances)[|old(unusedInstances)| - 1] &&
        unusedInstances == old(unusedInstances)[..|old(unusedInstances)| - 1]
      ensures old(unusedInstances) == [] ==>
        fresh(instance) && unusedInstances == [] && (activate || instance.active == prefabActive)
      ensures activate ==> instance.active
      ensures !activate && old(unusedInstances) != [] ==> instance.active == old(instance.active)
    {
      if unusedInstances != [] {
        instance := unusedInstances[|unusedInstances| - 1];
        unusedInstances := unusedInstances[..|unusedInstances| - 1];
      } else {
        instance := new GameObject(prefabActive);
      }
      if activate {
        instance.active := true;
      }
    }

    /** Pushes `instance` onto the stack, switching it off when `deactivate` is set. */
    method ReturnInstance(instance: GameObject, deactivate: bool)
      modifies this, instance
      ensures unusedInstances == old(unusedInstances) + [instance]
      ensures deactivate ==> !instance.active
      ensures !deactivate ==> instance.active == old(instance.active)
    {
      if deactivate {
        instance.active := false;
      }
      unusedInstances := unusedInstances + [instance];
    }
  }

  /** Returning an instance and getting one back hands out that same instance (LIFO). */
  method ReturnThenGet(pool: ObjectPool, g: GameObject) returns (same: bool)
    modifies pool, g
    ensures same
    ensures pool.unusedInstances == old(pool.unusedInstances)
  {
    pool.ReturnInstance(g, true);
    var h := pool.GetInstance(false);
    same := h == g && !h.active;
  }
}
