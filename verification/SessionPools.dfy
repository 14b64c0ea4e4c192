/** The pool of browser sessions: a page per session file, least recently used out first. */
module SessionPools {
  import opened Wrappers
  import opened LruMap
  import opened PoolAccounts

  type PageId(==, !new, 0) = nat

  type Session = Held<PageId>

  datatype PoolError = CreateFailed | OnPageFailed

  datatype Request = Request(key: string, fingerprint: string)

  /** What the outside answers during one `getPage`: None and false stand for a rejected promise or a throw. */
  datatype Outside = Outside(
    pageClosed: bool, newPage: Option<PageId>, onNewPageOk: bool, created: Option<(ContextId, PageId)>,
    onCreatedOk: bool)

  datatype Outcome = Outcome(
    entries: seq<Entry<Session>>, page: Result<PageId, PoolError>,
    created: seq<ContextId>, closed: seq<ContextId>, leaked: seq<ContextId>)

  /** The page to hand out without creating a session: the pooled one, or a new page of the pooled context. */
  function Reusable(l: seq<Entry<Session>>, q: Request, o: Outside): Option<Session> {
    var found := IndexOf(l, q.key);
    if found.None? || l[found.value].value.fingerprint != q.fingerprint then None
    else if !o.pageClosed then Some(l[found.value].value)
    else if o.newPage.Some? && o.onNewPageOk then Some(l[found.value].value.(handle := o.newPage.value))
    else None
  }

  /** The second half of `getPage`, on a pool without the key: create, announce the page, store, evict. */
  function CreatePage(l: seq<Entry<Session>>, max: int, q: Request, o: Outside): Outcome {
    if o.created.None? then Outcome(l, Err(CreateFailed), [], [], [])
    else
      var (context, page) := o.created.value;
      if !o.onCreatedOk then Outcome(l, Err(OnPageFailed), [context], [], [context])
      else
        var all := l + [Entry(q.key, Held(q.fingerprint, context, page))];
        var n := Overflow(all, q.key, max);
        Outcome(all[n..], Ok(page), [context], ContextsOf(all[..n]), [])
  }

  /** `getPage`, as a function of the pool and of what the outside answers. */
  function GetPage(l: seq<Entry<Session>>, max: int, q: Request, o: Outside): Outcome {
    var reused, rest := Reusable(l, q, o), Without(l, q.key);
    if reused.Some? then Outcome(rest + [Entry(q.key, reused.value)], Ok(reused.value.handle), [], [], [])
    else
      var made := CreatePage(rest, max, q, o);
      made.(closed := Dropped(l, q.key) + made.closed)
  }

  // ---------------------------------------------------------------------------------------------
  // What one call does
  // ---------------------------------------------------------------------------------------------

  /** The pool ends with an entry for the request, carrying the fingerprint asked for and the page handed out. */
  ghost predicate EndsWith(l: seq<Entry<Session>>, q: Request, page: PageId) {
    && l != []
    && l[|l| - 1].key == q.key && l[|l| - 1].value.fingerprint == q.fingerprint && l[|l| - 1].value.handle == page
  }

  lemma ReuseIsOneUse(l: seq<Entry<Session>>, max: int, q: Request, o: Outside)
    requires DistinctKeys(l) && |l| <= Limit(max) && Reusable(l, q, o).Some?
    ensures var after, page := GetPage(l, max, q, o).entries, GetPage(l, max, q, o).page;
            && page.Ok? && EndsWith(after, q, page.value)
            && after == Used(l, after[|after| - 1], max) && DistinctKeys(after) && |after| <= Limit(max)
  {
    WithoutIsGone(l, q.key);
  }

  lemma CreationIsOneUse(l: seq<Entry<Session>>, max: int, q: Request, o: Outside)
    requires DistinctKeys(l) && NoEmptyKey(l) && Reusable(l, q, o).None? && GetPage(l, max, q, o).page.Ok?
    ensures var after, page := GetPage(l, max, q, o).entries, GetPage(l, max, q, o).page;
            && EndsWith(after, q, page.value)
            && after == Used(l, after[|after| - 1], max) && DistinctKeys(after) && |after| <= Limit(max)
  {
    var rest := Without(l, q.key);
    WithoutIsGone(l, q.key);
    CutIsOneUse(rest, Entry(q.key, Held(q.fingerprint, o.created.value.0, o.created.value.1)), max);
  }

  /**
   * A successful call is one use of the list cache; the entry it returns is the last, and has the fingerprint asked
   * for.
   */
  lemma SuccessIsOneUse(l: seq<Entry<Session>>, max: int, q: Request, o: Outside)
    requires DistinctKeys(l) && NoEmptyKey(l) && |l| <= Limit(max)
    requires GetPage(l, max, q, o).page.Ok?
    ensures var after := GetPage(l, max, q, o).entries;
            && EndsWith(after, q, GetPage(l, max, q, o).page.value)
            && after == Used(l, after[|after| - 1], max) && DistinctKeys(after) && |after| <= Limit(max)
  {
    if Reusable(l, q, o).Some? {
      ReuseIsOneUse(l, max, q, o);
    } else {
      CreationIsOneUse(l, max, q, o);
    }
  }

  /** A failed call drops the session under its key, if any, and touches nothing else. */
  lemma FailureDropsOnlyItsKey(l: seq<Entry<Session>>, max: int, q: Request, o: Outside)
    requires DistinctKeys(l) && GetPage(l, max, q, o).page.Err?
    ensures GetPage(l, max, q, o).entries == Without(l, q.key)
    ensures DistinctKeys(GetPage(l, max, q, o).entries) && |GetPage(l, max, q, o).entries| <= |l|
    ensures NoEmptyKey(l) ==> NoEmptyKey(GetPage(l, max, q, o).entries)
    ensures q.key !in Keys(GetPage(l, max, q, o).entries)
  {
    WithoutIsGone(l, q.key);
  }

  /**
   * The empty key defeats eviction: it is taken for "no oldest key". Whatever the limit, a pool whose oldest
   * entry is stored under it is never cut again while that entry stays oldest.
   */
  lemma EmptyKeyStopsEviction(l: seq<Entry<Session>>, max: int, q: Request, o: Outside)
    requires DistinctKeys(l) && l != [] && l[0].key == "" && q.key != ""
    requires Reusable(l, q, o).None? && o.created.Some? && o.onCreatedOk
    ensures GetPage(l, max, q, o).entries
            == Without(l, q.key) + [Entry(q.key, Held(q.fingerprint, o.created.value.0, o.created.value.1))]
    ensures IndexOf(l, q.key).None? ==> |GetPage(l, max, q, o).entries| == |l| + 1
  {
    WithoutIsGone(l, q.key);
  }

  /** Exactly when a newly created session leaves the pool within its limit. */
  lemma WithinLimitExactly(l: seq<Entry<Session>>, max: int, q: Request, o: Outside)
    requires DistinctKeys(l) && Reusable(l, q, o).None? && o.created.Some? && o.onCreatedOk
    ensures |GetPage(l, max, q, o).entries| <= Limit(max) <==>
              forall i :: 0 <= i < |Without(l, q.key)| + 1 - Limit(max) ==> Without(l, q.key)[i].key != ""
  {
    WithoutIsGone(l, q.key);
    var rest := Without(l, q.key);
    var all := rest + [Entry(q.key, Held(q.fingerprint, o.created.value.0, o.created.value.1))];
    CutExactly(all, q.key, max);
    assert forall i :: 0 <= i < |rest| ==> all[i] == rest[i];
  }

  /** The session stored under the key, if it was made from the same session file. */
  ghost predicate Fits(l: seq<Entry<Session>>, q: Request, held: Session) {
    exists i :: 0 <= i < |l| && l[i] == Entry(q.key, held) && held.fingerprint == q.fingerprint
  }

  /** A fitting session is handed out again, with its page if that is open, else with the new page it could open. */
  lemma FittingSessionIsReused(l: seq<Entry<Session>>, max: int, q: Request, o: Outside, held: Session)
    requires DistinctKeys(l) && Fits(l, q, held) && (!o.pageClosed || (o.newPage.Some? && o.onNewPageOk))
    ensures var r, page := GetPage(l, max, q, o), if o.pageClosed then o.newPage.value else held.handle;
            && r.page == Ok(page) && r.created == [] && r.closed == [] && r.leaked == []
            && r.entries == Without(l, q.key) + [Entry(q.key, Held(q.fingerprint, held.context, page))]
  {
  }

  /**
   * In every other case a new session is asked for: whatever was stored under the key is closed first, and the call
   * ends with the new page, or with the failure of the creation or of the announcement.
   */
  lemma OtherwiseCreated(l: seq<Entry<Session>>, max: int, q: Request, o: Outside)
    requires DistinctKeys(l)
    requires forall held :: !Fits(l, q, held) || (o.pageClosed && !(o.newPage.Some? && o.onNewPageOk))
    ensures var r := GetPage(l, max, q, o);
            && r.page == (if o.created.None? then Err(CreateFailed)
                          else if !o.onCreatedOk then Err(OnPageFailed) else Ok(o.created.value.1))
            && r.created == (if o.created.Some? then [o.created.value.0] else [])
            && (forall i :: 0 <= i < |l| && l[i].key == q.key ==> r.closed != [] && r.closed[0] == l[i].value.context)
            && (r.page.Ok? ==> r.entries != [] && r.entries[|r.entries| - 1]
                               == Entry(q.key, Held(q.fingerprint, o.created.value.0, o.created.value.1)))
  {
    if Reusable(l, q, o).Some? {
      var held := l[IndexOf(l, q.key).value].value;
      assert Fits(l, q, held);
    }
    if o.created.Some? && o.onCreatedOk {
      var rest := Without(l, q.key);
      var all := rest + [Entry(q.key, Held(q.fingerprint, o.created.value.0, o.created.value.1))];
      WithoutIsGone(l, q.key);
      OverflowStops(all, q.key, max);
    }
  }

  // ---------------------------------------------------------------------------------------------
  // Ownership
  // ---------------------------------------------------------------------------------------------

  lemma CreationConserves(l: seq<Entry<Session>>, max: int, q: Request, o: Outside)
    ensures var r := CreatePage(l, max, q, o);
            multiset(ContextsOf(l)) + multiset(r.created)
            == multiset(ContextsOf(r.entries)) + multiset(r.closed) + multiset(r.leaked)
  {
    if o.created.Some? && o.onCreatedOk {
      var e := Entry(q.key, Held(q.fingerprint, o.created.value.0, o.created.value.1));
      CreatedContexts(l, e, Overflow(l + [e], q.key, max));
    }
  }

  /** No context is lost: what was owned or created is afterwards owned, closed or leaked, each exactly once. */
  lemma ContextsAreConserved(l: seq<Entry<Session>>, max: int, q: Request, o: Outside)
    ensures var r := GetPage(l, max, q, o);
            multiset(ContextsOf(l)) + multiset(r.created)
            == multiset(ContextsOf(r.entries)) + multiset(r.closed) + multiset(r.leaked)
  {
    if Reusable(l, q, o).Some? {
      TouchedContexts(l, Entry(q.key, Reusable(l, q, o).value));
    } else {
      var rest := Without(l, q.key);
      var made, dropped := CreatePage(rest, max, q, o), Dropped(l, q.key);
      WithoutContexts(l, q.key);
      CreationConserves(rest, max, q, o);
      Balance(multiset(ContextsOf(l)), multiset(ContextsOf(rest)), multiset(dropped), multiset(made.created),
              multiset(ContextsOf(made.entries)), multiset(made.closed), multiset(made.leaked));
      assert multiset(dropped + made.closed) == multiset(dropped) + multiset(made.closed);
    }
  }

  /** A context is leaked exactly when it was created and the page callback then threw. */
  lemma LeaksExactly(l: seq<Entry<Session>>, max: int, q: Request, o: Outside)
    ensures GetPage(l, max, q, o).leaked ==
              if Reusable(l, q, o).None? && o.created.Some? && !o.onCreatedOk then [o.created.value.0] else []
  {
  }

  // ---------------------------------------------------------------------------------------------
  // Histories
  // ---------------------------------------------------------------------------------------------

  /** A call, or one of the resets that the browser service and its shutdown perform. */
  datatype Step = Get(request: Request, outside: Outside) | Reset(key: string) | ResetAll

  function Next(a: Account<PageId>, max: int, step: Step): Account<PageId> {
    match step
    case Get(request, outside) =>
      var r := GetPage(a.entries, max, request, outside);
      Account(r.entries, a.created + r.created, a.closed + r.closed, a.leaked + r.leaked)
    case Reset(key) => Forgotten(a, key)
    case ResetAll => AllForgotten(a)
  }

  const EMPTY: Account<PageId> := Account([], [], [], [])

  function Run(max: int, steps: seq<Step>): Account<PageId> {
    if steps == [] then EMPTY else Next(Run(max, steps[..|steps| - 1]), max, steps[|steps| - 1])
  }

  /** A served call uses its key; a failed call and a reset drop it. */
  function EventOf(a: Account<PageId>, max: int, step: Step): KeyEvent {
    match step
    case Get(request, outside) =>
      if GetPage(a.entries, max, request, outside).page.Ok? then KeyUsed(request.key) else KeyGone(request.key)
    case Reset(key) => KeyGone(key)
    case ResetAll => AllGone
  }

  function Events(max: int, steps: seq<Step>): (r: seq<KeyEvent>)
    ensures |r| == |steps|
  {
    if steps == [] then [] else
    Events(max, steps[..|steps| - 1]) + [EventOf(Run(max, steps[..|steps| - 1]), max, steps[|steps| - 1])]
  }

  lemma GetKeepsKeys(l: seq<Entry<Session>>, max: int, q: Request, o: Outside)
    requires DistinctKeys(l)
    ensures DistinctKeys(GetPage(l, max, q, o).entries)
  {
    WithoutIsGone(l, q.key);
  }

  lemma GetKeepsNames(l: seq<Entry<Session>>, max: int, q: Request, o: Outside)
    requires NoEmptyKey(l) && q.key != ""
    ensures NoEmptyKey(GetPage(l, max, q, o).entries)
  {
  }

  lemma NextKeepsAccount(a: Account<PageId>, max: int, step: Step)
    requires DistinctKeys(a.entries) && Accounted(a)
    ensures DistinctKeys(Next(a, max, step).entries) && Accounted(Next(a, max, step))
  {
    match step
    case Get(request, outside) =>
      var r := GetPage(a.entries, max, request, outside);
      GetKeepsKeys(a.entries, max, request, outside);
      ContextsAreConserved(a.entries, max, request, outside);
      AccountsAdd(multiset(ContextsOf(a.entries)), multiset(ContextsOf(r.entries)), a.created, a.closed, a.leaked,
                  r.created, r.closed, r.leaked);
    case Reset(key) =>
      WithoutIsGone(a.entries, key);
      ForgettingKeepsAccount(a, key);
    case ResetAll => ForgettingKeepsAccount(a, "");
  }

  /** From the empty pool, every sequence of calls and resets keeps one entry per key and the account of contexts. */
  lemma {:induction false} RunKeepsAccount(max: int, steps: seq<Step>)
    ensures DistinctKeys(Run(max, steps).entries) && Accounted(Run(max, steps))
  {
    if steps != [] {
      RunKeepsAccount(max, steps[..|steps| - 1]);
      NextKeepsAccount(Run(max, steps[..|steps| - 1]), max, steps[|steps| - 1]);
    }
  }

  /** In every history with fresh contexts each one is owned, closed or leaked, and closed at most once. */
  lemma ClosedAtMostOnce(max: int, steps: seq<Step>)
    requires Once(Run(max, steps).created)
    ensures Once(Run(max, steps).closed) && Once(ContextsOf(Run(max, steps).entries))
    ensures forall c :: InOnePlace(Run(max, steps), c)
  {
    RunKeepsAccount(max, steps);
    OwnedOrClosedOnce(Run(max, steps));
  }

  predicate NamedKey(step: Step) {
    step.Get? ==> step.request.key != ""
  }

  ghost predicate NamedKeys(steps: seq<Step>) {
    forall i :: 0 <= i < |steps| ==> NamedKey(steps[i])
  }

  lemma GetIsCacheStep(l: seq<Entry<Session>>, max: int, q: Request, o: Outside)
    requires DistinctKeys(l) && NoEmptyKey(l) && |l| <= Limit(max)
    ensures var r := GetPage(l, max, q, o);
            && |r.entries| <= Limit(max)
            && Keys(r.entries) == CacheStep(Keys(l), max, if r.page.Ok? then KeyUsed(q.key) else KeyGone(q.key))
  {
    var r := GetPage(l, max, q, o);
    if r.page.Ok? {
      SuccessIsOneUse(l, max, q, o);
      UsedKeys(l, r.entries[|r.entries| - 1], max);
    } else {
      FailureDropsOnlyItsKey(l, max, q, o);
      KeysWithout(l, q.key);
    }
  }

  lemma NextIsCacheStep(a: Account<PageId>, max: int, step: Step)
    requires DistinctKeys(a.entries) && NoEmptyKey(a.entries) && |a.entries| <= Limit(max) && NamedKey(step)
    ensures var a' := Next(a, max, step);
            && NoEmptyKey(a'.entries) && |a'.entries| <= Limit(max)
            && Keys(a'.entries) == CacheStep(Keys(a.entries), max, EventOf(a, max, step))
  {
    match step
    case Get(request, outside) =>
      GetKeepsNames(a.entries, max, request, outside);
      GetIsCacheStep(a.entries, max, request, outside);
    case Reset(key) =>
      WithoutIsGone(a.entries, key);
      KeysWithout(a.entries, key);
    case ResetAll =>
  }

  /** The pool is the list cache, whatever calls fail and whatever is reset, and it never holds too many entries. */
  lemma {:induction false} PoolIsListCache(max: int, steps: seq<Step>)
    requires NamedKeys(steps)
    ensures var l := Run(max, steps).entries;
            && NoEmptyKey(l) && |l| <= Limit(max)
            && Keys(l) == CacheKeys(max, Events(max, steps))
  {
    if steps != [] {
      var before, last := steps[..|steps| - 1], steps[|steps| - 1];
      assert NamedKeys(before) && NamedKey(last);
      PoolIsListCache(max, before);
      RunKeepsAccount(max, before);
      NextIsCacheStep(Run(max, before), max, last);
      assert Events(max, steps)[..|steps| - 1] == Events(max, before);
    }
  }

  /**
   * Over every history the pool holds the most recently used of the keys served and not dropped since, in that
   * order; while nothing is dropped it is as full as its limit allows.
   */
  lemma HoldsMostRecent(max: int, steps: seq<Step>)
    requires NamedKeys(steps)
    ensures var l, live := Run(max, steps).entries, LiveKeys(Events(max, steps));
            && |l| <= Limit(max) && IsSuffix(Keys(l), live) && NoRepeats(live)
            && (OnlyUses(Events(max, steps)) ==> Keys(l) == TakeLast(live, Limit(max)))
  {
    PoolIsListCache(max, steps);
    CacheIsMostRecent(max, Events(max, steps));
    if OnlyUses(Events(max, steps)) {
      CacheIsFull(max, Events(max, steps));
    }
  }

  // ---------------------------------------------------------------------------------------------
  // The browser pool
  // ---------------------------------------------------------------------------------------------

  class AdeReusableBrowserSessionPool {
    var entries: seq<Entry<Session>>
    const maxEntries: int
    ghost var created: seq<ContextId>
    ghost var closed: seq<ContextId>
    ghost var leaked: seq<ContextId>

    ghost predicate Valid()
      reads this
    {
      DistinctKeys(entries)
    }

    ghost function State(): Account<PageId>
      reads this
    {
      Account(entries, created, closed, leaked)
    }

    constructor (maxEntries: int)
      ensures Valid() && State() == EMPTY && this.maxEntries == maxEntries
    {
      this.maxEntries := maxEntries;
      entries, created, closed, leaked := [], [], [], [];
    }

    method ResetKey(key: string)
      requires Valid()
      modifies this`entries, this`closed
      ensures Valid()
      ensures State() == Next(old(State()), maxEntries, Reset(key))
    {
      var found := IndexOf(entries, key);
      if found.None? {
        return;
      }
      var entry := entries[found.value];
      WithoutIsGone(entries, key);
      entries := RemoveAt(entries, found.value);
      closed := closed + [entry.value.context];
    }

    method ResetEverything()
      requires Valid()
      modifies this`entries, this`closed
      ensures Valid()
      ensures State() == Next(old(State()), maxEntries, ResetAll)
    {
      var all := entries;
      entries := [];
      for i := 0 to |all|
        invariant closed == old(closed) + ContextsOf(all[..i])
        invariant entries == []
      {
        PrefixContexts(all, i);
        closed := closed + [all[i].value.context];
      }
      assert all[..|all|] == all;
    }

    method Touch(key: string, value: Session)
      requires Valid() && IndexOf(entries, key).Some?
      modifies this`entries
      ensures Valid()
      ensures entries == Without(old(entries), key) + [Entry(key, value)]
    {
      WithoutIsGone(entries, key);
      entries := Without(entries, key);
      entries := entries + [Entry(key, value)];
    }

    method DropOldest()
      requires Valid() && entries != []
      modifies this`entries, this`closed
      ensures Valid()
      ensures entries == old(entries)[1..] && closed == old(closed) + [old(entries)[0].value.context]
    {
      FirstIsOldest(entries);
      ResetKey(entries[0].key);
    }

    method EvictOverflow(currentKey: string)
      requires Valid()
      modifies this`entries, this`closed
      ensures Valid()
      ensures var n := Overflow(old(entries), currentKey, maxEntries);
              entries == old(entries)[n..] && closed == old(closed) + ContextsOf(old(entries)[..n])
    {
      ghost var all, before, i := entries, closed, 0;
      ghost var n := Overflow(entries, currentKey, maxEntries);
      while |entries| > maxEntries
        invariant Valid()
        invariant 0 <= i <= |all| && entries == all[i..]
        invariant n == i + Overflow(entries, currentKey, maxEntries)
        invariant closed == before + ContextsOf(all[..i])
        decreases |entries|
      {
        if entries == [] || entries[0].key == "" || (entries[0].key == currentKey && |entries| == 1) {
          return;
        }
        PrefixContexts(all, i);
        DropOldest();
        i := i + 1;
      }
    }

    /** The first half of `getPage`: hand out a page of the pooled session, or drop that session. */
    method ReusePage(q: Request, o: Outside) returns (page: Option<PageId>)
      requires Valid()
      modifies this`entries, this`closed
      ensures Valid()
      ensures var reused := Reusable(old(entries), q, o);
              if reused.Some? then
                page == Some(reused.value.handle) && closed == old(closed)
                && entries == Without(old(entries), q.key) + [Entry(q.key, reused.value)]
              else
                page == None && closed == old(closed) + Dropped(old(entries), q.key)
                && entries == Without(old(entries), q.key)
    {
      var found := IndexOf(entries, q.key);
      if found.None? {
        return None;
      }
      var existing := entries[found.value].value;
      if existing.fingerprint != q.fingerprint {
        ResetKey(q.key);
        return None;
      }
      if !o.pageClosed {
        Touch(q.key, existing);
        return Some(existing.handle);
      }
      if o.newPage.Some? && o.onNewPageOk {
        Touch(q.key, existing.(handle := o.newPage.value));
        return Some(o.newPage.value);
      }
      ResetKey(q.key);
      page := None;
    }

    method StorePage(q: Request, o: Outside) returns (page: Result<PageId, PoolError>)
      requires Valid() && IndexOf(entries, q.key).None?
      modifies this
      ensures Valid()
      ensures var r := CreatePage(old(entries), maxEntries, q, o);
              && entries == r.entries && page == r.page
              && created == old(created) + r.created && closed == old(closed) + r.closed
                 && leaked == old(leaked) + r.leaked
    {
      if o.created.None? {
        return Err(CreateFailed);
      }
      var (context, newest) := o.created.value;
      created := created + [context];
      if !o.onCreatedOk {
        leaked := leaked + [context];
        return Err(OnPageFailed);
      }
      var e := Entry(q.key, Held(q.fingerprint, context, newest));
      entries := entries + [e];
      EvictOverflow(q.key);
      page := Ok(newest);
    }

    method GetPageFor(q: Request, o: Outside) returns (page: Result<PageId, PoolError>)
      requires Valid()
      modifies this
      ensures Valid()
      ensures page == GetPage(old(entries), maxEntries, q, o).page
      ensures State() == Next(old(State()), maxEntries, Get(q, o))
    {
      ghost var before := entries;
      var reused := ReusePage(q, o);
      if reused.Some? {
        return Ok(reused.value);
      }
      WithoutIsGone(before, q.key);
      page := StorePage(q, o);
    }
  }
}
