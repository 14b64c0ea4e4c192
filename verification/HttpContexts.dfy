/** The HTTP client's contexts: the same cache discipline as the browser pool, in a second class. */
module HttpContexts {
  import opened Wrappers
  import opened LruMap
  import opened PoolAccounts

  type Api = Held<()>

  datatype HttpError = LoadFailed | FingerprintUnreadable

  datatype Outcome = Outcome(
    entries: seq<Entry<Api>>, context: Result<ContextId, HttpError>, created: seq<ContextId>, disposed: seq<ContextId>)

  /** One call: the session file's fingerprint, None when unreadable, and the new context, None when creation fails. */
  datatype Fetch = Fetch(path: string, fingerprint: Option<string>, created: Option<ContextId>)

  predicate Reuses(l: seq<Entry<Api>>, f: Fetch) {
    var found := IndexOf(l, f.path);
    found.Some? && Some(l[found.value].value.fingerprint) == f.fingerprint
  }

  /** The second half of `contextForSession`, on contexts without the path. */
  function CreateContext(l: seq<Entry<Api>>, max: int, f: Fetch): Outcome
    requires f.fingerprint.Some?
  {
    if f.created.None? then Outcome(l, Err(LoadFailed), [], [])
    else
      var all := l + [Entry(f.path, Held(f.fingerprint.value, f.created.value, ()))];
      var n := Overflow(all, f.path, max);
      Outcome(all[n..], Ok(f.created.value), [f.created.value], ContextsOf(all[..n]))
  }

  /** `contextForSession`: an unreadable session file fails first; a changed one replaces its context. */
  function ContextFor(l: seq<Entry<Api>>, max: int, f: Fetch): Outcome {
    if f.fingerprint.None? then Outcome(l, Err(FingerprintUnreadable), [], [])
    else if Reuses(l, f) then
      var existing := l[IndexOf(l, f.path).value];
      Outcome(Without(l, f.path) + [existing], Ok(existing.value.context), [], [])
    else
      var made := CreateContext(Without(l, f.path), max, f);
      made.(disposed := Dropped(l, f.path) + made.disposed)
  }

  /** The second client follows the same discipline: success is one use of the list cache. */
  lemma ContextIsOneUse(l: seq<Entry<Api>>, max: int, f: Fetch)
    requires DistinctKeys(l) && NoEmptyKey(l) && |l| <= Limit(max) && ContextFor(l, max, f).context.Ok?
    ensures var r := ContextFor(l, max, f);
            && r.entries != [] && f.fingerprint.Some?
            && var last := r.entries[|r.entries| - 1];
               && last == Entry(f.path, Held(f.fingerprint.value, r.context.value, ()))
               && r.entries == Used(l, last, max) && DistinctKeys(r.entries) && |r.entries| <= Limit(max)
  {
    WithoutIsGone(l, f.path);
    if Reuses(l, f) {
      var existing := l[IndexOf(l, f.path).value];
      assert existing.value.handle == ();
      assert existing == Entry(f.path, Held(f.fingerprint.value, existing.value.context, ()));
    } else {
      CutIsOneUse(Without(l, f.path), Entry(f.path, Held(f.fingerprint.value, f.created.value, ())), max);
    }
  }

  /** The context stored under the path, made from the session file as it is now. */
  ghost predicate Fits(l: seq<Entry<Api>>, f: Fetch, context: ContextId) {
    f.fingerprint.Some?
    && exists i :: 0 <= i < |l| && l[i] == Entry(f.path, Held(f.fingerprint.value, context, ()))
  }

  /** A fitting context is handed out again. */
  lemma FittingContextIsReused(l: seq<Entry<Api>>, max: int, f: Fetch, context: ContextId)
    requires DistinctKeys(l) && Fits(l, f, context)
    ensures ContextFor(l, max, f) ==
              Outcome(Without(l, f.path) + [Entry(f.path, Held(f.fingerprint.value, context, ()))], Ok(context), [], [])
  {
  }

  /** Otherwise an unreadable file fails at once; a stored context is disposed first and a new one is asked for. */
  lemma OtherwiseCreated(l: seq<Entry<Api>>, max: int, f: Fetch)
    requires DistinctKeys(l) && forall context :: !Fits(l, f, context)
    ensures var r := ContextFor(l, max, f);
            if f.fingerprint.None? then r == Outcome(l, Err(FingerprintUnreadable), [], []) else
              && r.context == (if f.created.Some? then Ok(f.created.value) else Err(LoadFailed))
              && r.created == (if f.created.Some? then [f.created.value] else [])
              && (forall i :: 0 <= i < |l| && l[i].key == f.path ==>
                    r.disposed != [] && r.disposed[0] == l[i].value.context)
              && (f.created.Some? ==>
                    r.entries != [] && r.entries[|r.entries| - 1]
                                       == Entry(f.path, Held(f.fingerprint.value, f.created.value, ())))
  {
    if Reuses(l, f) {
      var existing := l[IndexOf(l, f.path).value];
      assert existing.value.handle == ();
      assert Fits(l, f, existing.value.context);
    }
    if f.fingerprint.Some? && f.created.Some? {
      var all := Without(l, f.path) + [Entry(f.path, Held(f.fingerprint.value, f.created.value, ()))];
      WithoutIsGone(l, f.path);
      OverflowStops(all, f.path, max);
    }
  }

  lemma CreationConserves(l: seq<Entry<Api>>, max: int, f: Fetch)
    requires f.fingerprint.Some?
    ensures var r := CreateContext(l, max, f);
            multiset(ContextsOf(l)) + multiset(r.created) == multiset(ContextsOf(r.entries)) + multiset(r.disposed)
  {
    if f.created.Some? {
      var e := Entry(f.path, Held(f.fingerprint.value, f.created.value, ()));
      CreatedContexts(l, e, Overflow(l + [e], f.path, max));
    }
  }

  /** What was owned or created is afterwards owned or disposed, each exactly once. */
  lemma ContextsAreConserved(l: seq<Entry<Api>>, max: int, f: Fetch)
    ensures var r := ContextFor(l, max, f);
            multiset(ContextsOf(l)) + multiset(r.created) == multiset(ContextsOf(r.entries)) + multiset(r.disposed)
  {
    if f.fingerprint.Some? {
      if Reuses(l, f) {
        TouchedContexts(l, l[IndexOf(l, f.path).value]);
      } else {
        var rest, dropped := Without(l, f.path), Dropped(l, f.path);
        var made := CreateContext(rest, max, f);
        WithoutContexts(l, f.path);
        CreationConserves(rest, max, f);
        Balance(multiset(ContextsOf(l)), multiset(ContextsOf(rest)), multiset(dropped), multiset(made.created),
                multiset(ContextsOf(made.entries)), multiset(made.disposed), multiset{});
        assert multiset(dropped + made.disposed) == multiset(dropped) + multiset(made.disposed);
      }
    }
  }

  // ---------------------------------------------------------------------------------------------
  // Histories
  // ---------------------------------------------------------------------------------------------

  /** A call, the reset after a 401 or 403 or a failed submission, or the one at shutdown. */
  datatype Step = Get(fetch: Fetch) | Reset(key: string) | ResetAll

  function Next(a: Account<()>, max: int, step: Step): Account<()> {
    match step
    case Get(fetch) =>
      var r := ContextFor(a.entries, max, fetch);
      a.(entries := r.entries, created := a.created + r.created, closed := a.closed + r.disposed)
    case Reset(key) => Forgotten(a, key)
    case ResetAll => AllForgotten(a)
  }

  const EMPTY: Account<()> := Account([], [], [], [])

  function Run(max: int, steps: seq<Step>): Account<()> {
    if steps == [] then EMPTY else Next(Run(max, steps[..|steps| - 1]), max, steps[|steps| - 1])
  }

  /** An unreadable session file leaves the contexts alone; any other failure drops its path. */
  function GetEvent(l: seq<Entry<Api>>, max: int, f: Fetch): KeyEvent {
    if f.fingerprint.None? then Untouched
    else if ContextFor(l, max, f).context.Ok? then KeyUsed(f.path) else KeyGone(f.path)
  }

  function EventOf(a: Account<()>, max: int, step: Step): KeyEvent {
    match step
    case Get(fetch) => GetEvent(a.entries, max, fetch)
    case Reset(key) => KeyGone(key)
    case ResetAll => AllGone
  }

  function Events(max: int, steps: seq<Step>): (r: seq<KeyEvent>)
    ensures |r| == |steps|
  {
    if steps == [] then [] else
    Events(max, steps[..|steps| - 1]) + [EventOf(Run(max, steps[..|steps| - 1]), max, steps[|steps| - 1])]
  }

  lemma GetKeepsKeys(l: seq<Entry<Api>>, max: int, f: Fetch)
    requires DistinctKeys(l)
    ensures DistinctKeys(ContextFor(l, max, f).entries)
  {
    WithoutIsGone(l, f.path);
  }

  lemma GetKeepsNames(l: seq<Entry<Api>>, max: int, f: Fetch)
    requires NoEmptyKey(l) && f.path != ""
    ensures NoEmptyKey(ContextFor(l, max, f).entries)
  {
  }

  lemma NextKeepsAccount(a: Account<()>, max: int, step: Step)
    requires DistinctKeys(a.entries) && Accounted(a)
    ensures DistinctKeys(Next(a, max, step).entries) && Accounted(Next(a, max, step))
            && Next(a, max, step).leaked == a.leaked
  {
    match step
    case Get(fetch) =>
      var r := ContextFor(a.entries, max, fetch);
      GetKeepsKeys(a.entries, max, fetch);
      ContextsAreConserved(a.entries, max, fetch);
      AccountsAdd(multiset(ContextsOf(a.entries)), multiset(ContextsOf(r.entries)), a.created, a.closed, a.leaked,
                  r.created, r.disposed, []);
      assert a.leaked + [] == a.leaked;
    case Reset(key) =>
      WithoutIsGone(a.entries, key);
      ForgettingKeepsAccount(a, key);
    case ResetAll => ForgettingKeepsAccount(a, "");
  }

  lemma {:induction false} RunKeepsAccount(max: int, steps: seq<Step>)
    ensures DistinctKeys(Run(max, steps).entries) && Accounted(Run(max, steps)) && Run(max, steps).leaked == []
  {
    if steps != [] {
      RunKeepsAccount(max, steps[..|steps| - 1]);
      NextKeepsAccount(Run(max, steps[..|steps| - 1]), max, steps[|steps| - 1]);
    }
  }

  /** In every history with fresh contexts each one is owned or disposed, and disposed at most once; none leaks. */
  lemma DisposedAtMostOnce(max: int, steps: seq<Step>)
    requires Once(Run(max, steps).created)
    ensures Once(Run(max, steps).closed) && Once(ContextsOf(Run(max, steps).entries)) && Run(max, steps).leaked == []
    ensures forall c :: InOnePlace(Run(max, steps), c)
  {
    RunKeepsAccount(max, steps);
    OwnedOrClosedOnce(Run(max, steps));
  }

  predicate NamedKey(step: Step) {
    step.Get? ==> step.fetch.path != ""
  }

  ghost predicate NamedKeys(steps: seq<Step>) {
    forall i :: 0 <= i < |steps| ==> NamedKey(steps[i])
  }

  /** A failed call drops the context under its path - unless the session file could not even be read. */
  lemma FailureDropsOnlyItsPath(l: seq<Entry<Api>>, max: int, f: Fetch)
    requires DistinctKeys(l) && ContextFor(l, max, f).context.Err?
    ensures ContextFor(l, max, f).entries == if f.fingerprint.None? then l else Without(l, f.path)
    ensures |ContextFor(l, max, f).entries| <= |l|
  {
    WithoutIsGone(l, f.path);
  }

  lemma SuccessIsCacheStep(l: seq<Entry<Api>>, max: int, f: Fetch)
    requires DistinctKeys(l) && NoEmptyKey(l) && |l| <= Limit(max) && ContextFor(l, max, f).context.Ok?
    ensures var after := ContextFor(l, max, f).entries;
            |after| <= Limit(max) && Keys(after) == CacheStep(Keys(l), max, KeyUsed(f.path))
  {
    var after := ContextFor(l, max, f).entries;
    ContextIsOneUse(l, max, f);
    UsedKeys(l, after[|after| - 1], max);
  }

  lemma GetIsCacheStep(l: seq<Entry<Api>>, max: int, f: Fetch)
    requires DistinctKeys(l) && NoEmptyKey(l) && |l| <= Limit(max)
    ensures var after := ContextFor(l, max, f).entries;
            |after| <= Limit(max) && Keys(after) == CacheStep(Keys(l), max, GetEvent(l, max, f))
  {
    if ContextFor(l, max, f).context.Ok? {
      SuccessIsCacheStep(l, max, f);
    } else {
      FailureDropsOnlyItsPath(l, max, f);
      KeysWithout(l, f.path);
    }
  }

  lemma NextIsCacheStep(a: Account<()>, max: int, step: Step)
    requires DistinctKeys(a.entries) && NoEmptyKey(a.entries) && |a.entries| <= Limit(max) && NamedKey(step)
    ensures var a' := Next(a, max, step);
            && NoEmptyKey(a'.entries) && |a'.entries| <= Limit(max)
            && Keys(a'.entries) == CacheStep(Keys(a.entries), max, EventOf(a, max, step))
  {
    match step
    case Get(fetch) =>
      GetKeepsNames(a.entries, max, fetch);
      GetIsCacheStep(a.entries, max, fetch);
    case Reset(key) =>
      WithoutIsGone(a.entries, key);
      KeysWithout(a.entries, key);
    case ResetAll =>
  }

  lemma {:induction false} PoolIsListCache(max: int, steps: seq<Step>)
    requires NamedKeys(steps)
    ensures var l := Run(max, steps).entries;
            NoEmptyKey(l) && |l| <= Limit(max) && Keys(l) == CacheKeys(max, Events(max, steps))
  {
    if steps != [] {
      var before, last := steps[..|steps| - 1], steps[|steps| - 1];
      assert NamedKeys(before) && NamedKey(last);
      PoolIsListCache(max, before);
      RunKeepsAccount(max, before);
      NextIsCacheStep(Run(max, before), max, last);
      assert Events(max, steps)[..|steps| - 1] == Events(max, before);
    }
  }

  /** Over every history the client holds the most recently used of the paths served and not dropped since. */
  lemma HoldsMostRecent(max: int, steps: seq<Step>)
    requires NamedKeys(steps)
    ensures var l, live := Run(max, steps).entries, LiveKeys(Events(max, steps));
            && |l| <= Limit(max) && IsSuffix(Keys(l), live) && NoRepeats(live)
            && (OnlyUses(Events(max, steps)) ==> Keys(l) == TakeLast(live, Limit(max)))
  {
    PoolIsListCache(max, steps);
    CacheIsMostRecent(max, Events(max, steps));
    if OnlyUses(Events(max, steps)) {
      CacheIsFull(max, Events(max, steps));
    }
  }

  // ---------------------------------------------------------------------------------------------
  // The client
  // ---------------------------------------------------------------------------------------------

  class AdeDcoHttpClient {
    var contexts: seq<Entry<Api>>
    const maxContexts: int
    ghost var created: seq<ContextId>
    ghost var disposed: seq<ContextId>

    ghost predicate Valid()
      reads this
    {
      DistinctKeys(contexts)
    }

    ghost function State(): Account<()>
      reads this
    {
      Account(contexts, created, disposed, [])
    }

    constructor (maxContexts: int)
      ensures Valid() && State() == EMPTY && this.maxContexts == maxContexts
    {
      this.maxContexts, contexts, created, disposed := maxContexts, [], [], [];
    }

    method ResetKey(key: string)
      requires Valid()
      modifies this`contexts, this`disposed
      ensures Valid() && State() == Next(old(State()), maxContexts, Reset(key))
    {
      var found := IndexOf(contexts, key);
      if found.None? {
        return;
      }
      WithoutIsGone(contexts, key);
      disposed := disposed + [contexts[found.value].value.context];
      contexts := RemoveAt(contexts, found.value);
    }

    method ResetEverything()
      requires Valid()
      modifies this`contexts, this`disposed
      ensures Valid() && State() == Next(old(State()), maxContexts, ResetAll)
    {
      var all := contexts;
      contexts := [];
      for i := 0 to |all|
        invariant disposed == old(disposed) + ContextsOf(all[..i])
        invariant contexts == []
      {
        PrefixContexts(all, i);
        disposed := disposed + [all[i].value.context];
      }
      assert all[..|all|] == all;
    }

    method Touch(path: string, value: Api)
      requires Valid() && IndexOf(contexts, path).Some?
      modifies this`contexts
      ensures Valid()
      ensures contexts == Without(old(contexts), path) + [Entry(path, value)]
    {
      WithoutIsGone(contexts, path);
      contexts := Without(contexts, path);
      contexts := contexts + [Entry(path, value)];
    }

    method DropOldest()
      requires Valid() && contexts != []
      modifies this`contexts, this`disposed
      ensures Valid()
      ensures contexts == old(contexts)[1..] && disposed == old(disposed) + [old(contexts)[0].value.context]
    {
      FirstIsOldest(contexts);
      ResetKey(contexts[0].key);
    }

    method EvictOverflow(currentKey: string)
      requires Valid()
      modifies this`contexts, this`disposed
      ensures Valid()
      ensures var n := Overflow(old(contexts), currentKey, maxContexts);
              contexts == old(contexts)[n..] && disposed == old(disposed) + ContextsOf(old(contexts)[..n])
    {
      ghost var all, before, i := contexts, disposed, 0;
      ghost var n := Overflow(contexts, currentKey, maxContexts);
      while |contexts| > maxContexts
        invariant Valid()
        invariant 0 <= i <= |all| && contexts == all[i..]
        invariant n == i + Overflow(contexts, currentKey, maxContexts)
        invariant disposed == before + ContextsOf(all[..i])
        decreases |contexts|
      {
        if contexts == [] || contexts[0].key == "" || (contexts[0].key == currentKey && |contexts| == 1) {
          return;
        }
        PrefixContexts(all, i);
        DropOldest();
        i := i + 1;
      }
    }

    method StoreContext(f: Fetch) returns (context: Result<ContextId, HttpError>)
      requires Valid() && f.fingerprint.Some? && IndexOf(contexts, f.path).None?
      modifies this
      ensures Valid()
      ensures var r := CreateContext(old(contexts), maxContexts, f);
              && contexts == r.entries && context == r.context
              && created == old(created) + r.created && disposed == old(disposed) + r.disposed
    {
      if f.created.None? {
        return Err(LoadFailed);
      }
      created := created + [f.created.value];
      contexts := contexts + [Entry(f.path, Held(f.fingerprint.value, f.created.value, ()))];
      EvictOverflow(f.path);
      context := Ok(f.created.value);
    }

    method ContextForSession(f: Fetch) returns (context: Result<ContextId, HttpError>)
      requires Valid()
      modifies this
      ensures Valid()
      ensures context == ContextFor(old(contexts), maxContexts, f).context
      ensures State() == Next(old(State()), maxContexts, Get(f))
    {
      if f.fingerprint.None? {
        return Err(FingerprintUnreadable);
      }
      WithoutIsGone(contexts, f.path);
      var found := IndexOf(contexts, f.path);
      if found.Some? && contexts[found.value].value.fingerprint == f.fingerprint.value {
        var existing := contexts[found.value].value;
        Touch(f.path, existing);
        return Ok(existing.context);
      }
      if found.Some? {
        ResetKey(f.path);
      }
      context := StoreContext(f);
    }
  }
}
