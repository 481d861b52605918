/**
 * SharedResource<T>: a reference-counted handle. All copies of a handle share one
 * SharedState holding the resource, its destructor and the number of live handles; the
 * destructor runs when a Dispose brings that number to zero. Running the destructor is
 * recorded in the shared state's `destructorRuns` log, and the error that Dispose logs
 * when the count goes negative in its `errorLogs` counter.
 */
module SharedResources {

  class SharedState<T> {
    const reference: T
    var count: int
    /** Resources the destructor has been invoked on, in order. */
    var destructorRuns: seq<T>
    /** Number of "disposed more often than copied" errors logged. */
    var errorLogs: nat

    constructor (reference: T, count: int)
      ensures this.reference == reference && this.count == count
      ensures destructorRuns == [] && errorLogs == 0
    {
      this.reference := reference;
      this.count := count;
      destructorRuns := [];
      errorLogs := 0;
    }
  }

  class SharedResource<T> {
    const state: SharedState<T>

    /** A fresh handle owning `instance`; the reference count starts at 1. */
    constructor (instance: T)
      ensures fresh(state)
      ensures state.reference == instance && state.count == 1
      ensures state.destructorRuns == [] && state.errorLogs == 0
    {
      state := new SharedState(instance, 1);
    }

    /** The copy constructor's success path: share `other`'s state, one more handle. */
    constructor FromLive(other: SharedResource<T>)
      requires other.state.count != 0
      modifies other.state
      ensures state == other.state
      ensures state.count == old(other.state.count) + 1
      ensures state.destructorRuns == old(other.state.destructorRuns) && state.errorLogs == old(other.state.errorLogs)
    {
      state := other.state;
      new;
      state.count := state.count + 1;
    }

    function GetResource(): T
    {
      state.reference
    }

    /**
     * Copies the handle. Copying a handle whose count is 0 throws ApplicationException
     * (modelled as None) and changes nothing.
     */
    method Copy() returns (r: Option<SharedResource<T>>)
      modifies state
      ensures old(state.count) == 0 ==> r.None? && state.count == 0
      ensures old(state.count) != 0 ==>
        r.Some? && fresh(r.value) && r.value.state == state && state.count == old(state.count) + 1
      ensures state.destructorRuns == old(state.destructorRuns) && state.errorLogs == old(state.errorLogs)
    {
      if state.count == 0 {
        r := None;
      } else {
        var copy := new SharedResource.FromLive(this);
        r := Some(copy);
      }
    }

    /**
     * Releases this handle: the count drops by exactly one; reaching zero runs the destructor
     * once, dropping below zero logs an error instead.
     */
    method Dispose()
      modifies state
      ensures state.count == old(state.count) - 1
      ensures state.destructorRuns ==
        if state.count == 0 then old(state.destructorRuns) + [state.reference] else old(state.destructorRuns)
      ensures state.errorLogs == if state.count < 0 then old(state.errorLogs) + 1 else old(state.errorLogs)
    {
      state.count := state.count - 1;
      if state.count == 0 {
        state.destructorRuns := state.destructorRuns + [state.reference];
      } else if state.count < 0 {
        state.errorLogs := state.errorLogs + 1;
      }
    }
  }

  datatype Option<T> = None | Some(value: T)

  /**
   * A client: copies of one handle return the same resource; the destructor runs exactly
   * once, when the last of the two handles is disposed.
   */
  method CopyThenDisposeBoth<T>(instance: T) returns (runs: seq<T>)
    ensures runs == [instance]
  {
    var a := new SharedResource(instance);
    var b := a.Copy();
    var c := b.value;
    assert c.GetResource() == a.GetResource() == instance;
    a.Dispose();
    assert a.state.destructorRuns == [];
    c.Dispose();
    runs := a.state.destructorRuns;
  }
}
