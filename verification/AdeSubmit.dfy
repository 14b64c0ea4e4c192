/**
 * The submit service: HTTP fast path, browser fallback, one session refresh, a second transport attempt and a
 * last browser fallback, with a bounded memory of the operations that may have reached the tax authority.
 */
module AdeSubmit {
  import opened Wrappers
  import opened AdeErrors
  import opened SubmitInput
  import opened OperationLock
  import FastSubmit

  /** What the service does to the outside world, in order. */
  datatype Effect = HttpPost | ProcediClick | SessionRefresh | FastPathTried | BrowserTried

  predicate Irreversible(e: Effect) {
    e.HttpPost? || e.ProcediClick?
  }

  /** A browser submit: what fails before the click, or what happens after it. */
  datatype BrowserWorld = BrowserWorld(beforeClick: Result<(), EarlyException>, afterClick: Result<(), Exception>)

  /** One use of the configured transport. */
  datatype TransportWorld = TransportWorld(
    fastSession: Result<(), EarlyException>, http: FastSubmit.HttpWorld,
    browserSession: Result<(), EarlyException>, browser: BrowserWorld)

  datatype World = World(
    first: TransportWorld, refresh: Result<(), EarlyException>, second: TransportWorld,
    lastSession: Result<(), EarlyException>, lastBrowser: BrowserWorld)

  datatype Config = Config(submitEnabled: bool, entryUrlValid: bool, httpFastSubmitEnabled: bool)

  datatype Transport = Browser | HttpFast

  datatype SubmitResult = SubmitResult(operationId: string, transport: Transport, grossTotalCents: int)

  type Answer = Result<SubmitResult, Exception>

  // ---------------------------------------------------------------------------------------------
  // The memory of attempted operations
  // ---------------------------------------------------------------------------------------------

  const MEMORY_SIZE: nat := 2_000

  /** Adding to an insertion-ordered set, then dropping the oldest element when it grew too large. */
  function Remember(memory: seq<string>, operationId: string): seq<string> {
    if operationId in memory then memory else
    var grown := memory + [operationId];
    if |grown| <= MEMORY_SIZE then grown else grown[1..]
  }

  // ---------------------------------------------------------------------------------------------
  // One run, as a function of the world: its effects and its answer
  // ---------------------------------------------------------------------------------------------

  predicate ShouldRefreshSession(e: Exception) {
    && e.AdeAutomation? && !e.submitAttempted
    && (e.code == SessionRequired || e.code == SessionInvalid
        || (e.code == FlowMismatch && e.message == DCO_ENTRY_UNAVAILABLE_MESSAGE))
  }

  predicate CanFallbackFromFastPath(e: Exception) {
    e.AdeAutomation? && !e.submitAttempted && (e.code == FastPathUnavailable || e.code == NavigationFailed)
  }

  datatype Outcome = Outcome(effects: seq<Effect>, answer: Answer)

  function BrowserOutcome(session: Result<(), EarlyException>, w: BrowserWorld, r: SubmitRequest): Outcome {
    if session.Err? then Outcome([], Err(session.error))
    else if w.beforeClick.Err? then Outcome([BrowserTried], Err(w.beforeClick.error))
    else Outcome([BrowserTried, ProcediClick],
                 match w.afterClick
                 case Ok(_) => Ok(SubmitResult(r.operationId, Browser, r.grossTotalCents))
                 case Err(e) => if Attempted(e) then Err(e) else Err(RaiseAttempted(SubmitUnknown)))
  }

  function FastOutcome(session: Result<(), EarlyException>, w: FastSubmit.HttpWorld, r: SubmitRequest): Outcome {
    if session.Err? then Outcome([], Err(session.error)) else
    var e := FastSubmit.PerformSubmit(w, r.grossTotalCents);
    Outcome([FastPathTried] + if e.posts == 0 then [] else [HttpPost],
            match e.result
            case Ok(_) => Ok(SubmitResult(r.operationId, HttpFast, r.grossTotalCents))
            case Err(error) => Err(error))
  }

  function Then(first: Outcome, second: Outcome): Outcome {
    Outcome(first.effects + second.effects, second.answer)
  }

  function TransportOutcome(w: TransportWorld, httpFast: bool, r: SubmitRequest): Outcome {
    if !httpFast then BrowserOutcome(w.browserSession, w.browser, r) else
    var fast := FastOutcome(w.fastSession, w.http, r);
    if fast.answer.Err? && CanFallbackFromFastPath(fast.answer.error)
    then Then(fast, BrowserOutcome(w.browserSession, w.browser, r))
    else fast
  }

  /** The second attempt, with a freshly authenticated session. */
  function RetryOutcome(w: World, httpFast: bool, r: SubmitRequest): Outcome {
    var second := TransportOutcome(w.second, httpFast, r);
    if httpFast && second.answer.Err? && second.answer.error.AdeAutomation?
       && second.answer.error.code == SessionInvalid && !second.answer.error.submitAttempted
    then Then(second, BrowserOutcome(w.lastSession, w.lastBrowser, r))
    else second
  }

  function RefreshOutcome(w: World, httpFast: bool, r: SubmitRequest): Outcome {
    if w.refresh.Err? then Outcome([SessionRefresh], Err(w.refresh.error)) else
    var retry := RetryOutcome(w, httpFast, r);
    Outcome([SessionRefresh] + retry.effects, retry.answer)
  }

  /** The part of a run that holds the operation lock. */
  function LockedOutcome(w: World, httpFast: bool, r: SubmitRequest): Outcome {
    var first := TransportOutcome(w.first, httpFast, r);
    if first.answer.Ok? || Attempted(first.answer.error) || !ShouldRefreshSession(first.answer.error) then first
    else Then(first, RefreshOutcome(w, httpFast, r))
  }

  // ---------------------------------------------------------------------------------------------
  // At most one irreversible step
  // ---------------------------------------------------------------------------------------------

  ghost predicate NoneIrreversible(effects: seq<Effect>) {
    forall i :: 0 <= i < |effects| ==> !Irreversible(effects[i])
  }

  ghost predicate Crossed(effects: seq<Effect>) {
    effects != [] && Irreversible(effects[|effects| - 1])
  }

  /**
   * Either nothing irreversible happened and the error does not claim it, or the very last effect is the only
   * irreversible one and the answer is a confirmation or an error that says so.
   */
  ghost predicate AtMostOnce(o: Outcome) {
    || (NoneIrreversible(o.effects) && o.answer.Err? && !Attempted(o.answer.error))
    || (&& Crossed(o.effects) && NoneIrreversible(o.effects[..|o.effects| - 1])
        && (o.answer.Ok? || Attempted(o.answer.error)))
  }

  lemma ThenAtMostOnce(first: Outcome, second: Outcome)
    requires NoneIrreversible(first.effects) && AtMostOnce(second)
    ensures AtMostOnce(Then(first, second))
  {
    var both := Then(first, second);
    if Crossed(second.effects) {
      var n := |both.effects| - 1;
      assert both.effects[n] == second.effects[|second.effects| - 1];
      forall i | 0 <= i < n
        ensures !Irreversible(both.effects[..n][i])
      {
        if i >= |first.effects| {
          assert both.effects[i] == second.effects[..|second.effects| - 1][i - |first.effects|];
        }
      }
    }
  }

  lemma TransportAtMostOnce(w: TransportWorld, httpFast: bool, r: SubmitRequest)
    ensures AtMostOnce(TransportOutcome(w, httpFast, r))
  {
    if httpFast {
      FastSubmit.FlagTellsThePost(w.http, r.grossTotalCents);
      var fast := FastOutcome(w.fastSession, w.http, r);
      assert AtMostOnce(fast);
      if fast.answer.Err? && CanFallbackFromFastPath(fast.answer.error) {
        ThenAtMostOnce(fast, BrowserOutcome(w.browserSession, w.browser, r));
      }
    }
  }

  lemma RefreshAtMostOnce(w: World, httpFast: bool, r: SubmitRequest)
    ensures AtMostOnce(RefreshOutcome(w, httpFast, r))
  {
    TransportAtMostOnce(w.second, httpFast, r);
    var second, retry := TransportOutcome(w.second, httpFast, r), RetryOutcome(w, httpFast, r);
    if second.answer.Err? && !Attempted(second.answer.error) {
      ThenAtMostOnce(second, BrowserOutcome(w.lastSession, w.lastBrowser, r));
    }
    ThenAtMostOnce(Outcome([SessionRefresh], retry.answer), retry);
  }

  /** For every behaviour of the session, the refresh, the service and the browser. */
  lemma LockedAtMostOnce(w: World, httpFast: bool, r: SubmitRequest)
    ensures AtMostOnce(LockedOutcome(w, httpFast, r))
  {
    var first := TransportOutcome(w.first, httpFast, r);
    TransportAtMostOnce(w.first, httpFast, r);
    RefreshAtMostOnce(w, httpFast, r);
    if first.answer.Err? && !Attempted(first.answer.error) {
      ThenAtMostOnce(first, RefreshOutcome(w, httpFast, r));
    }
  }

  ghost function CountOf(effects: seq<Effect>, e: Effect): nat {
    multiset(effects)[e]
  }

  lemma FastTries(session: Result<(), EarlyException>, w: FastSubmit.HttpWorld, r: SubmitRequest)
    ensures var es := FastOutcome(session, w, r).effects;
            CountOf(es, SessionRefresh) == 0 && CountOf(es, FastPathTried) <= 1 && CountOf(es, BrowserTried) == 0
  {
    assert FastOutcome(session, w, r).effects in {[], [FastPathTried], [FastPathTried, HttpPost]} by {
      assert [FastPathTried] + [] == [FastPathTried];
      assert [FastPathTried] + [HttpPost] == [FastPathTried, HttpPost];
    }
  }

  lemma BrowserTries(session: Result<(), EarlyException>, w: BrowserWorld, r: SubmitRequest)
    ensures var es := BrowserOutcome(session, w, r).effects;
            CountOf(es, SessionRefresh) == 0 && CountOf(es, FastPathTried) == 0 && CountOf(es, BrowserTried) <= 1
  {
  }

  lemma TransportTries(w: TransportWorld, httpFast: bool, r: SubmitRequest)
    ensures var es := TransportOutcome(w, httpFast, r).effects;
            CountOf(es, SessionRefresh) == 0 && CountOf(es, FastPathTried) <= 1 && CountOf(es, BrowserTried) <= 1
  {
    FastTries(w.fastSession, w.http, r);
    BrowserTries(w.browserSession, w.browser, r);
  }

  lemma RetryTries(w: World, httpFast: bool, r: SubmitRequest)
    ensures var es := RetryOutcome(w, httpFast, r).effects;
            CountOf(es, SessionRefresh) == 0 && CountOf(es, FastPathTried) <= 1 && CountOf(es, BrowserTried) <= 2
  {
    TransportTries(w.second, httpFast, r);
    BrowserTries(w.lastSession, w.lastBrowser, r);
  }

  /**
   * One run refreshes the session at most once, tries the fast path at most twice and the browser at most three times.
   */
  lemma BoundedEffort(w: World, httpFast: bool, r: SubmitRequest)
    ensures var es := LockedOutcome(w, httpFast, r).effects;
            CountOf(es, SessionRefresh) <= 1 && CountOf(es, FastPathTried) <= 2 && CountOf(es, BrowserTried) <= 3
  {
    TransportTries(w.first, httpFast, r);
    RetryTries(w, httpFast, r);
  }

  // ---------------------------------------------------------------------------------------------
  // A whole run, with the memory
  // ---------------------------------------------------------------------------------------------

  datatype RunEffect = RunEffect(effects: seq<Effect>, answer: Answer, memory: seq<string>)

  function RunOutcome(config: Config, input: Option<SubmitRequest>, memory: seq<string>, lockFree: bool, w: World)
    : RunEffect
  {
    if !config.submitEnabled then RunEffect([], Err(Raise(SubmitDisabled)), memory)
    else if !config.entryUrlValid then RunEffect([], Err(Raise(ConfigurationInvalid)), memory)
    else if input.None? then RunEffect([], Err(Raise(InputInvalid)), memory)
    else
      var r := input.value;
      if r.operationId in memory then RunEffect([], Err(RaiseAttempted(DuplicateOperation)), memory)
      else if !lockFree then RunEffect([], Err(Raise(SubmitBusy)), memory)
      else
        var o := LockedOutcome(w, config.httpFastSubmitEnabled, r);
        RunEffect(o.effects, o.answer,
                  if o.answer.Ok? || Attempted(o.answer.error) then Remember(memory, r.operationId) else memory)
  }

  ghost predicate MemoryOk(memory: seq<string>) {
    && |memory| <= MEMORY_SIZE
    && (forall i, j :: 0 <= i < j < |memory| ==> memory[i] != memory[j])
  }

  lemma RememberKeeps(memory: seq<string>, operationId: string)
    requires MemoryOk(memory)
    ensures MemoryOk(Remember(memory, operationId)) && operationId in Remember(memory, operationId)
  {
    if operationId !in memory {
      var grown := memory + [operationId];
      assert grown[|grown| - 1] == operationId;
      if |grown| > MEMORY_SIZE {
        assert grown[1..][|grown| - 2] == operationId;
      }
    }
  }

  /**
   * A run starts at most one irreversible step and nothing follows it; whenever it started, the operation is
   * remembered on exit, and only then does the memory change.
   */
  lemma RunAtMostOnce(config: Config, input: Option<SubmitRequest>, memory: seq<string>, lockFree: bool, w: World)
    requires MemoryOk(memory)
    ensures var run := RunOutcome(config, input, memory, lockFree, w);
            && MemoryOk(run.memory)
            && (Crossed(run.effects) || NoneIrreversible(run.effects))
            && (Crossed(run.effects) ==>
                  NoneIrreversible(run.effects[..|run.effects| - 1]) && input.Some?
                    && input.value.operationId in run.memory
                  && input.value.operationId !in memory && run.memory == Remember(memory, input.value.operationId)
                  && (run.answer.Ok? || Attempted(run.answer.error)))
            && (!Crossed(run.effects) ==> run.memory == memory && run.answer.Err?)
            && (input.Some? && input.value.operationId in memory ==> run.effects == [] && run.answer.Err?)
  {
    if input.Some? {
      LockedAtMostOnce(w, config.httpFastSubmitEnabled, input.value);
      RememberKeeps(memory, input.value.operationId);
    }
  }

  // ---------------------------------------------------------------------------------------------
  // Many runs, one after the other
  // ---------------------------------------------------------------------------------------------

  datatype Call = Call(config: Config, input: Option<SubmitRequest>, lockFree: bool, world: World)

  /** The memory, and the operations whose irreversible step was started, oldest first. */
  datatype History = History(memory: seq<string>, crossed: seq<string>)

  ghost function AfterCall(h: History, call: Call): History {
    var run := RunOutcome(call.config, call.input, h.memory, call.lockFree, call.world);
    History(run.memory,
            if Crossed(run.effects) && call.input.Some? then h.crossed + [call.input.value.operationId] else h.crossed)
  }

  ghost function AfterCalls(calls: seq<Call>): History {
    if calls == [] then History([], []) else AfterCall(AfterCalls(calls[..|calls| - 1]), calls[|calls| - 1])
  }

  ghost function LastOf(s: seq<string>, n: nat): seq<string> {
    if |s| <= n then s else s[|s| - n..]
  }

  lemma InWindow(s: seq<string>, i: nat, n: nat)
    requires i < |s|
    ensures |s| - i <= n ==> s[i] in LastOf(s, n)
  {
    if n < |s| && |s| - i <= n {
      assert s[i] == s[|s| - n..][i - (|s| - n)];
    }
  }

  /** The same operation crosses again only after 2000 others. */
  ghost predicate FarApart(crossed: seq<string>) {
    forall i, j :: 0 <= i < j < |crossed| && crossed[i] == crossed[j] ==> j - i > 2_000
  }

  /** The memory is exactly the window of the last 2000 crossings, and a repeat is at least 2001 crossings later. */
  lemma {:induction false} MemoryIsWindow(calls: seq<Call>)
    ensures var h := AfterCalls(calls);
            MemoryOk(h.memory) && h.memory == LastOf(h.crossed, 2_000) && FarApart(h.crossed)
  {
    if calls != [] {
      var h, call := AfterCalls(calls[..|calls| - 1]), calls[|calls| - 1];
      MemoryIsWindow(calls[..|calls| - 1]);
      RunAtMostOnce(call.config, call.input, h.memory, call.lockFree, call.world);
      var h' := AfterCall(h, call);
      if h'.crossed != h.crossed {
        var id := call.input.value.operationId;
        var n := |h.crossed|;
        assert h'.crossed == h.crossed + [id];
        assert LastOf(h'.crossed, MEMORY_SIZE) == Remember(h.memory, id);
        forall i | 0 <= i < n
          ensures h.crossed[i] == id ==> n - i > MEMORY_SIZE
        {
          InWindow(h.crossed, i, MEMORY_SIZE);
        }
      }
    }
  }

  /** An operation that crossed the boundary is refused without any effect until 2000 others have crossed it. */
  lemma RefusedUntilForgotten(calls: seq<Call>, k: nat, call: Call)
    requires var crossed := AfterCalls(calls).crossed;
             k < |crossed| && |crossed| - k <= 2_000
             && call.input.Some? && call.input.value.operationId == crossed[k]
    ensures var run := RunOutcome(call.config, call.input, AfterCalls(calls).memory, call.lockFree, call.world);
            run.effects == [] && run.answer.Err?
  {
    MemoryIsWindow(calls);
    InWindow(AfterCalls(calls).crossed, k, MEMORY_SIZE);
  }

  // ---------------------------------------------------------------------------------------------
  // The service
  // ---------------------------------------------------------------------------------------------

  class AdeDocumentSubmitService {
    var attemptedOperationIds: seq<string>
    const operationLock: AdeDocumentOperationLock
    ghost var effects: seq<Effect>

    constructor (operationLock: AdeDocumentOperationLock)
      ensures this.operationLock == operationLock && attemptedOperationIds == [] && effects == []
    {
      this.operationLock := operationLock;
      attemptedOperationIds := [];
      effects := [];
    }

    method RememberAttempt(operationId: string)
      modifies this`attemptedOperationIds
      ensures attemptedOperationIds == Remember(old(attemptedOperationIds), operationId)
    {
      if operationId !in attemptedOperationIds {
        attemptedOperationIds := attemptedOperationIds + [operationId];
        if |attemptedOperationIds| <= MEMORY_SIZE {
          return;
        }
        attemptedOperationIds := attemptedOperationIds[1..];
      }
    }

    /** The browser flow; `submitAttempted` is set just before the click and decides what an error becomes. */
    method BrowserSubmit(w: BrowserWorld) returns (result: Result<(), Exception>)
      modifies this`effects
      ensures effects == old(effects) + if w.beforeClick.Err? then [BrowserTried] else [BrowserTried, ProcediClick]
      ensures result == if w.beforeClick.Err? then Err(w.beforeClick.error)
                        else if w.afterClick.Err? && !Attempted(w.afterClick.error)
                        then Err(RaiseAttempted(SubmitUnknown))
                        else w.afterClick
    {
      var submitAttempted := false;
      effects := effects + [BrowserTried];
      if w.beforeClick.Err? {
        result := Err(w.beforeClick.error);
      } else {
        submitAttempted := true;
        effects := effects + [ProcediClick];
        result := w.afterClick;
      }
      if submitAttempted && result.Err? && !Attempted(result.error) {
        result := Err(RaiseAttempted(SubmitUnknown));
      }
    }

    method RunBrowser(session: Result<(), EarlyException>, w: BrowserWorld, r: SubmitRequest) returns (answer: Answer)
      modifies this`effects, this`attemptedOperationIds
      ensures var o := BrowserOutcome(session, w, r);
              answer == o.answer && effects == old(effects) + o.effects
      ensures attemptedOperationIds ==
              if answer.Ok? then Remember(old(attemptedOperationIds), r.operationId) else old(attemptedOperationIds)
    {
      if session.Err? {
        return Err(session.error);
      }
      var result := BrowserSubmit(w);
      if result.Err? {
        return Err(result.error);
      }
      RememberAttempt(r.operationId);
      answer := Ok(SubmitResult(r.operationId, Browser, r.grossTotalCents));
    }

    method RunHttpFast(session: Result<(), EarlyException>, w: FastSubmit.HttpWorld, r: SubmitRequest)
      returns (answer: Answer)
      modifies this`effects, this`attemptedOperationIds
      ensures var o := FastOutcome(session, w, r);
              answer == o.answer && effects == old(effects) + o.effects
      ensures attemptedOperationIds ==
              if answer.Ok? then Remember(old(attemptedOperationIds), r.operationId) else old(attemptedOperationIds)
    {
      if session.Err? {
        return Err(session.error);
      }
      var e := FastSubmit.PerformSubmit(w, r.grossTotalCents);
      effects := effects + ([FastPathTried] + if e.posts == 0 then [] else [HttpPost]);
      if e.result.Err? {
        return Err(e.result.error);
      }
      RememberAttempt(r.operationId);
      answer := Ok(SubmitResult(r.operationId, HttpFast, r.grossTotalCents));
    }

    method RunConfiguredTransport(w: TransportWorld, httpFast: bool, r: SubmitRequest) returns (answer: Answer)
      modifies this`effects, this`attemptedOperationIds
      ensures var o := TransportOutcome(w, httpFast, r);
              answer == o.answer && effects == old(effects) + o.effects
      ensures attemptedOperationIds ==
              if answer.Ok? then Remember(old(attemptedOperationIds), r.operationId) else old(attemptedOperationIds)
    {
      if !httpFast {
        answer := RunBrowser(w.browserSession, w.browser, r);
        return;
      }
      answer := RunHttpFast(w.fastSession, w.http, r);
      if answer.Err? && CanFallbackFromFastPath(answer.error) {
        answer := RunBrowser(w.browserSession, w.browser, r);
      }
    }

    /** The inner try block, after the session was refreshed. */
    method RunRefreshed(w: World, httpFast: bool, r: SubmitRequest) returns (answer: Answer)
      modifies this`effects, this`attemptedOperationIds
      ensures var o := RetryOutcome(w, httpFast, r);
              answer == o.answer && effects == old(effects) + o.effects
      ensures attemptedOperationIds ==
              if answer.Ok? then Remember(old(attemptedOperationIds), r.operationId) else old(attemptedOperationIds)
    {
      answer := RunConfiguredTransport(w.second, httpFast, r);
      if httpFast && answer.Err? && answer.error.AdeAutomation? && answer.error.code == SessionInvalid
         && !answer.error.submitAttempted
      {
        answer := RunBrowser(w.lastSession, w.lastBrowser, r);
      }
    }

    /** One session refresh, then the second attempt. */
    method RunRefresh(w: World, httpFast: bool, r: SubmitRequest) returns (answer: Answer)
      modifies this`effects, this`attemptedOperationIds
      ensures var o := RefreshOutcome(w, httpFast, r);
              answer == o.answer && effects == old(effects) + o.effects
      ensures attemptedOperationIds ==
              if answer.Ok? then Remember(old(attemptedOperationIds), r.operationId) else old(attemptedOperationIds)
    {
      effects := effects + [SessionRefresh];
      if w.refresh.Err? {
        return Err(w.refresh.error);
      }
      answer := RunRefreshed(w, httpFast, r);
      assert old(effects) + [SessionRefresh] + RetryOutcome(w, httpFast, r).effects
          == old(effects) + ([SessionRefresh] + RetryOutcome(w, httpFast, r).effects);
    }

    lemma AppendThen(before: seq<Effect>, first: Outcome, second: Outcome)
      ensures before + Then(first, second).effects == before + first.effects + second.effects
      ensures Then(first, second).answer == second.answer
    {
    }

    /** The body of the outer try block. */
    method RunLocked(w: World, httpFast: bool, r: SubmitRequest) returns (answer: Answer)
      modifies this`effects, this`attemptedOperationIds
      ensures var o := LockedOutcome(w, httpFast, r);
              answer == o.answer && effects == old(effects) + o.effects
      ensures
        || attemptedOperationIds == Remember(old(attemptedOperationIds), r.operationId)
        || (attemptedOperationIds == old(attemptedOperationIds) && answer.Err?)
      ensures answer.Err? && !Attempted(answer.error) ==> attemptedOperationIds == old(attemptedOperationIds)
    {
      answer := RunConfiguredTransport(w.first, httpFast, r);
      if answer.Err? {
        if Attempted(answer.error) {
          RememberAttempt(r.operationId);
        } else if ShouldRefreshSession(answer.error) {
          answer := RunRefresh(w, httpFast, r);
          AppendThen(old(effects), TransportOutcome(w.first, httpFast, r), RefreshOutcome(w, httpFast, r));
        }
      }
    }

    /** Adding twice is adding once. */
    lemma RememberTwice(memory: seq<string>, operationId: string)
      requires MemoryOk(memory)
      ensures Remember(Remember(memory, operationId), operationId) == Remember(memory, operationId)
    {
      RememberKeeps(memory, operationId);
    }

    /** The part of a run that holds the lock, with the remembering of the outermost catch block. */
    method RunAndRemember(w: World, httpFast: bool, r: SubmitRequest) returns (answer: Answer)
      requires MemoryOk(attemptedOperationIds)
      modifies this`effects, this`attemptedOperationIds
      ensures var o := LockedOutcome(w, httpFast, r);
              answer == o.answer && effects == old(effects) + o.effects
      ensures attemptedOperationIds ==
              if answer.Ok? || Attempted(answer.error) then Remember(old(attemptedOperationIds), r.operationId)
              else old(attemptedOperationIds)
      ensures MemoryOk(attemptedOperationIds)
    {
      RememberKeeps(attemptedOperationIds, r.operationId);
      RememberTwice(attemptedOperationIds, r.operationId);
      answer := RunLocked(w, httpFast, r);
      if answer.Err? && Attempted(answer.error) {
        RememberAttempt(r.operationId);
      }
    }

    method Run(config: Config, raw: RawInput, w: World) returns (answer: Answer, ghost input: Option<SubmitRequest>)
      requires MemoryOk(attemptedOperationIds) && Consistent(operationLock.State())
      modifies this`effects, this`attemptedOperationIds, operationLock
      ensures MemoryOk(attemptedOperationIds)
      ensures Consistent(operationLock.State()) && operationLock.busyKeys == old(operationLock.busyKeys)
      ensures input.Some? ==> ValidRequest(input.value) && Carries(raw, input.value)
      ensures input.None? && config.submitEnabled && config.entryUrlValid ==>
                forall r :: Carries(raw, r) ==> !ValidRequest(r)
      ensures var lockFree := input.Some? && input.value.fiscalId !in old(operationLock.busyKeys);
              var run := RunOutcome(config, input, old(attemptedOperationIds), lockFree, w);
              answer == run.answer && effects == old(effects) + run.effects && attemptedOperationIds == run.memory
    {
      input := None;
      if !config.submitEnabled {
        return Err(Raise(SubmitDisabled)), input;
      }
      if !config.entryUrlValid {
        return Err(Raise(ConfigurationInvalid)), input;
      }
      var normalized := NormalizeInput(raw);
      input := normalized;
      if normalized.None? {
        return Err(Raise(InputInvalid)), input;
      }
      if normalized.value.operationId in attemptedOperationIds {
        return Err(RaiseAttempted(DuplicateOperation)), input;
      }
      var handle := operationLock.TryAcquire(normalized.value.fiscalId);
      if handle.None? {
        return Err(Raise(SubmitBusy)), input;
      }
      answer := RunAndRemember(w, config.httpFastSubmitEnabled, normalized.value);
      operationLock.ReleaseHandle(handle.value);
    }
  }
}
