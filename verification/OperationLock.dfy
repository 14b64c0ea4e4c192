/** The in-process lock with one release handle per successful acquisition. */
module OperationLock {
  import opened Wrappers

  /** A release handle: the key it was issued for and whether it was used. */
  datatype Handle = Handle(key: string, released: bool)

  datatype LockState = LockState(busyKeys: set<string>, handles: seq<Handle>)

  const UNLOCKED := LockState({}, [])

  function Acquire(s: LockState, key: string): (LockState, Option<nat>) {
    if key in s.busyKeys then (s, None)
    else (LockState(s.busyKeys + {key}, s.handles + [Handle(key, false)]), Some(|s.handles|))
  }

  function Release(s: LockState, handle: nat): LockState {
    if handle >= |s.handles| || s.handles[handle].released then s else
    var key := s.handles[handle].key;
    LockState(s.busyKeys - {key}, s.handles[handle := Handle(key, true)])
  }

  /** A key is busy exactly while one handle for it is unreleased, and never two are. */
  ghost predicate Consistent(s: LockState) {
    && (forall key :: key in s.busyKeys <==> exists i :: Holds(s, i, key))
    && (forall i, j, key :: Holds(s, i, key) && Holds(s, j, key) ==> i == j)
  }

  ghost predicate Holds(s: LockState, handle: nat, key: string) {
    handle < |s.handles| && s.handles[handle] == Handle(key, false)
  }

  datatype Call = AcquireCall(key: string) | ReleaseCall(handle: nat)

  function Do(s: LockState, call: Call): LockState {
    match call
    case AcquireCall(key) => Acquire(s, key).0
    case ReleaseCall(handle) => Release(s, handle)
  }

  function DoAll(s: LockState, calls: seq<Call>): LockState {
    if calls == [] then s else Do(DoAll(s, calls[..|calls| - 1]), calls[|calls| - 1])
  }

  lemma AcquireConsistent(s: LockState, key: string)
    requires Consistent(s)
    ensures Consistent(Acquire(s, key).0)
  {
    var s' := Acquire(s, key).0;
    if key !in s.busyKeys {
      assert Holds(s', |s.handles|, key);
      assert forall i, k :: Holds(s', i, k) <==> Holds(s, i, k) || (i == |s.handles| && k == key);
    }
  }

  lemma ReleaseConsistent(s: LockState, handle: nat)
    requires Consistent(s)
    ensures Consistent(Release(s, handle))
  {
    var s' := Release(s, handle);
    if s' != s {
      var key := s.handles[handle].key;
      assert Holds(s, handle, key);
      assert forall i, k :: Holds(s', i, k) <==> Holds(s, i, k) && i != handle;
    }
  }

  /** Who asks for a free key gets a handle for it, and nobody gets one for a busy key. */
  lemma AcquiredExactlyWhenFree(s: LockState, key: string)
    ensures var (s', handle) := Acquire(s, key);
            if key in s.busyKeys then handle == None && s' == s else
              && handle == Some(|s.handles|) && Holds(s', |s.handles|, key)
              && s'.handles[..|s.handles|] == s.handles && s'.busyKeys == s.busyKeys + {key}
  {
  }

  /** The first release of a handle frees its key and no other; a handle that is used up or unknown frees none. */
  lemma ReleasedOnce(s: LockState, handle: nat)
    ensures var s' := Release(s, handle);
            if handle < |s.handles| && !s.handles[handle].released then
              && s'.busyKeys == s.busyKeys - {s.handles[handle].key} && |s'.handles| == |s.handles|
              && s'.handles[handle] == Handle(s.handles[handle].key, true)
              && forall i :: 0 <= i < |s.handles| && i != handle ==> s'.handles[i] == s.handles[i]
            else s' == s
  {
  }

  /** Over every sequence of acquisitions and (late, repeated) releases, each key has at most one holder. */
  lemma {:induction false} OneHolderPerKey(calls: seq<Call>)
    ensures Consistent(DoAll(UNLOCKED, calls))
  {
    if calls != [] {
      var front, last := calls[..|calls| - 1], calls[|calls| - 1];
      OneHolderPerKey(front);
      match last
      case AcquireCall(key) => AcquireConsistent(DoAll(UNLOCKED, front), key);
      case ReleaseCall(handle) => ReleaseConsistent(DoAll(UNLOCKED, front), handle);
    }
  }

  /** Releasing a handle again, at any later time, never frees a key that somebody else took meanwhile. */
  lemma {:induction false} LateReleaseIsHarmless(s: LockState, handle: nat, later: seq<Call>)
    requires handle < |s.handles|
    ensures var after := DoAll(Release(s, handle), later);
            handle < |after.handles| && after.handles[handle].released && Release(after, handle) == after
  {
    if later != [] {
      LateReleaseIsHarmless(s, handle, later[..|later| - 1]);
    }
  }

  class AdeDocumentOperationLock {
    var busyKeys: set<string>
    var handles: seq<Handle>

    ghost function State(): LockState
      reads this
    {
      LockState(busyKeys, handles)
    }

    constructor ()
      ensures State() == UNLOCKED
    {
      busyKeys, handles := {}, [];
    }

    method TryAcquire(key: string) returns (handle: Option<nat>)
      requires Consistent(State())
      modifies this
      ensures Consistent(State())
      ensures (State(), handle) == Acquire(old(State()), key)
      ensures handle.Some? <==> key !in old(busyKeys)
      ensures busyKeys == old(busyKeys) + {key}
      ensures handle.Some? ==> Holds(State(), handle.value, key) && handles[..handle.value] == old(handles)
    {
      AcquireConsistent(State(), key);
      if key in busyKeys {
        return None;
      }
      busyKeys := busyKeys + {key};
      handles := handles + [Handle(key, false)];
      handle := Some(|handles| - 1);
    }

    method ReleaseHandle(handle: nat)
      requires Consistent(State()) && handle < |handles|
      modifies this
      ensures Consistent(State())
      ensures State() == Release(old(State()), handle)
      ensures !old(handles)[handle].released ==> busyKeys == old(busyKeys) - {old(handles)[handle].key}
      ensures old(handles)[handle].released ==> State() == old(State())
    {
      ReleaseConsistent(State(), handle);
      if handles[handle].released {
        return;
      }
      var key := handles[handle].key;
      handles := handles[handle := Handle(key, true)];
      busyKeys := busyKeys - {key};
    }
  }
}
