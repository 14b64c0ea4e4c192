/**
 * When a submission takes its second chances: the browser after the fast path, one refresh of the session, the second
 * transport, the last browser attempt. Stated on the codes and flags of what the world answered.
 */
module AdeRecourse {
  import opened Wrappers
  import opened AdeErrors
  import opened SubmitInput
  import opened AdeSubmit
  import FastSubmit

  /** An error before the irreversible step, with one of the codes. */
  ghost predicate Early(e: Exception, codes: set<Code>) {
    e.AdeAutomation? && !e.submitAttempted && e.code in codes
  }

  /** The errors that a fresh login may cure. */
  ghost predicate LoginExpired(e: Exception) {
    Early(e, {SessionRequired, SessionInvalid})
    || (Early(e, {FlowMismatch}) && e.message == "Documento Commerciale on line non disponibile.")
  }

  // ---------------------------------------------------------------------------------------------
  // One attempt
  // ---------------------------------------------------------------------------------------------

  /** The error a fast-path attempt ends with, if it does. */
  ghost function FastError(session: Result<(), EarlyException>, w: FastSubmit.HttpWorld, cents: int): Option<Exception>
  {
    if session.Err? then Some(session.error)
    else if FastSubmit.PerformSubmit(w, cents).result.Err? then Some(FastSubmit.PerformSubmit(w, cents).result.error)
    else None
  }

  /** A fast-path attempt: posted exactly when login, preflight and POST context are fine; answered as the POST was. */
  lemma FastAttempt(session: Result<(), EarlyException>, w: FastSubmit.HttpWorld, r: SubmitRequest)
    ensures var o := FastOutcome(session, w, r);
            && (FastPathTried in o.effects <==> session.Ok?)
            && (HttpPost in o.effects <==> session.Ok? && w.preflight.Ok? && w.postContext.Ok?)
            && ProcediClick !in o.effects && BrowserTried !in o.effects && SessionRefresh !in o.effects
            && (session.Ok? && w.preflight.Err? ==> o.answer == Err(w.preflight.error))
            && (session.Ok? && w.preflight.Ok? && w.postContext.Err? ==> o.answer == Err(w.postContext.error))
            && var e := FastError(session, w, r.grossTotalCents);
               o.answer == (if e.Some? then Err(e.value)
                            else Ok(SubmitResult(r.operationId, HttpFast, r.grossTotalCents)))
  {
    assert [FastPathTried] + [] == [FastPathTried];
  }

  /** A browser attempt: clicked exactly when nothing fails before; afterwards an error always carries the flag. */
  lemma BrowserAttempt(session: Result<(), EarlyException>, w: BrowserWorld, r: SubmitRequest)
    ensures var o := BrowserOutcome(session, w, r);
            && (BrowserTried in o.effects <==> session.Ok?)
            && (ProcediClick in o.effects <==> session.Ok? && w.beforeClick.Ok?)
            && HttpPost !in o.effects && FastPathTried !in o.effects && SessionRefresh !in o.effects
            && (o.answer == Ok(SubmitResult(r.operationId, Browser, r.grossTotalCents)) <==>
                  session.Ok? && w.beforeClick.Ok? && w.afterClick.Ok?)
            && (session.Err? ==> o.answer == Err(session.error))
            && (session.Ok? && w.beforeClick.Err? ==> o.answer == Err(w.beforeClick.error))
            && (session.Ok? && w.beforeClick.Ok? && w.afterClick.Err? ==>
                  && o.answer.Err? && o.answer.error.AdeAutomation? && o.answer.error.submitAttempted
                  && (if w.afterClick.error.AdeAutomation? && w.afterClick.error.submitAttempted
                      then o.answer.error == w.afterClick.error else o.answer.error.code == SubmitUnknown))
  {
  }

  /** The fast path's error is one that the browser may still cure. */
  ghost predicate FallsBack(w: TransportWorld, cents: int) {
    var e := FastError(w.fastSession, w.http, cents);
    e.Some? && Early(e.value, {FastPathUnavailable, NavigationFailed})
  }

  /** When the browser follows the fast path, and whose answer counts. */
  lemma BrowserFollowsExactlyWhen(w: TransportWorld, httpFast: bool, r: SubmitRequest)
    ensures var o, fast, browser := TransportOutcome(w, httpFast, r), FastOutcome(w.fastSession, w.http, r),
                                    BrowserOutcome(w.browserSession, w.browser, r);
            && (!httpFast ==> o == browser)
            && (httpFast && !FallsBack(w, r.grossTotalCents) ==> o == fast)
            && (httpFast && FallsBack(w, r.grossTotalCents) ==>
                  o.effects == fast.effects + browser.effects && o.answer == browser.answer)
            && (BrowserTried in o.effects <==>
                  w.browserSession.Ok? && (!httpFast || FallsBack(w, r.grossTotalCents)))
  {
    FastAttempt(w.fastSession, w.http, r);
    BrowserAttempt(w.browserSession, w.browser, r);
  }

  // ---------------------------------------------------------------------------------------------
  // The refresh
  // ---------------------------------------------------------------------------------------------

  lemma NoRefreshInside(w: TransportWorld, httpFast: bool, r: SubmitRequest)
    ensures SessionRefresh !in TransportOutcome(w, httpFast, r).effects
  {
    FastAttempt(w.fastSession, w.http, r);
    BrowserAttempt(w.browserSession, w.browser, r);
    BrowserFollowsExactlyWhen(w, httpFast, r);
  }

  /** The first attempt ended with an error that a fresh login may cure. */
  ghost predicate Refreshes(w: World, httpFast: bool, r: SubmitRequest) {
    var first := TransportOutcome(w.first, httpFast, r).answer;
    first.Err? && LoginExpired(first.error)
  }

  /** The second attempt, made with a fresh login, is still told that its session is invalid. */
  ghost predicate StillInvalid(w: World, httpFast: bool, r: SubmitRequest) {
    var second := TransportOutcome(w.second, httpFast, r).answer;
    httpFast && second.Err? && Early(second.error, {SessionInvalid})
  }

  /** What the refresh leads to. */
  lemma AfterRefresh(w: World, httpFast: bool, r: SubmitRequest)
    ensures var o, second, last := RefreshOutcome(w, httpFast, r), TransportOutcome(w.second, httpFast, r),
                                   BrowserOutcome(w.lastSession, w.lastBrowser, r);
            && o.effects != [] && o.effects[0] == SessionRefresh
            && (w.refresh.Err? ==> o == Outcome([SessionRefresh], Err(w.refresh.error)))
            && (w.refresh.Ok? && !StillInvalid(w, httpFast, r) ==>
                  o == Outcome([SessionRefresh] + second.effects, second.answer))
            && (w.refresh.Ok? && StillInvalid(w, httpFast, r) ==>
                  o == Outcome([SessionRefresh] + (second.effects + last.effects), last.answer))
  {
  }

  /**
   * The session is refreshed exactly when the first attempt ends with an expired login; otherwise that answer stands.
   */
  lemma RefreshesExactlyWhen(w: World, httpFast: bool, r: SubmitRequest)
    ensures var o, first, refresh :=
              LockedOutcome(w, httpFast, r), TransportOutcome(w.first, httpFast, r), RefreshOutcome(w, httpFast, r);
            && (SessionRefresh in o.effects <==> Refreshes(w, httpFast, r))
            && (if Refreshes(w, httpFast, r) then o == Outcome(first.effects + refresh.effects, refresh.answer)
                else o == first)
  {
    NoRefreshInside(w.first, httpFast, r);
    AfterRefresh(w, httpFast, r);
    var first, refresh := TransportOutcome(w.first, httpFast, r), RefreshOutcome(w, httpFast, r);
    assert (first.effects + refresh.effects)[|first.effects|] == SessionRefresh;
  }

  /**
   * The answer of a refreshed submission: a failed refresh answers itself; after a good one the second attempt
   * answers, or the browser once more if the fast path still finds the session invalid.
   */
  lemma RefreshedAnswer(w: World, httpFast: bool, r: SubmitRequest)
    requires Refreshes(w, httpFast, r)
    ensures LockedOutcome(w, httpFast, r).answer ==
              if w.refresh.Err? then Err(w.refresh.error)
              else if StillInvalid(w, httpFast, r) then BrowserOutcome(w.lastSession, w.lastBrowser, r).answer
              else TransportOutcome(w.second, httpFast, r).answer
  {
    RefreshesExactlyWhen(w, httpFast, r);
    AfterRefresh(w, httpFast, r);
  }

  // ---------------------------------------------------------------------------------------------
  // The whole run
  // ---------------------------------------------------------------------------------------------

  /** What a run checks before it touches the outside world, in order. */
  ghost function GateError(config: Config, input: Option<SubmitRequest>, memory: seq<string>, lockFree: bool)
    : Option<(Code, bool)>
  {
    if !config.submitEnabled then Some((SubmitDisabled, false))
    else if !config.entryUrlValid then Some((ConfigurationInvalid, false))
    else if input.None? then Some((InputInvalid, false))
    else if input.value.operationId in memory then Some((DuplicateOperation, true))
    else if !lockFree then Some((SubmitBusy, false))
    else None
  }

  /** A run that is stopped at a gate has no effect and says which gate; any other is the locked part. */
  lemma RunPassesGates(config: Config, input: Option<SubmitRequest>, memory: seq<string>, lockFree: bool, w: World)
    ensures var run, gate := RunOutcome(config, input, memory, lockFree, w), GateError(config, input, memory, lockFree);
            && (gate.Some? ==>
                  && run.effects == [] && run.memory == memory
                  && run.answer == Err(AdeAutomation(gate.value.0, "", gate.value.1)))
            && (gate.None? ==>
                  var o := LockedOutcome(w, config.httpFastSubmitEnabled, input.value);
                  run.effects == o.effects && run.answer == o.answer)
  {
  }

  /** An expired login is cured: refreshed, and submitted by the second attempt. */
  lemma ExpiredLoginIsCured(config: Config, r: SubmitRequest, memory: seq<string>, w: World, code: Code)
    requires config.submitEnabled && config.entryUrlValid && config.httpFastSubmitEnabled
    requires r.operationId !in memory && code in {SessionRequired, SessionInvalid}
    requires w.first.fastSession.Ok? && w.first.http.preflight == Err(Raise(code)) && w.refresh.Ok?
    requires FastError(w.second.fastSession, w.second.http, r.grossTotalCents).None?
    ensures var run := RunOutcome(config, Some(r), memory, true, w);
            && run.answer == Ok(SubmitResult(r.operationId, HttpFast, r.grossTotalCents))
            && run.effects == [FastPathTried, SessionRefresh, FastPathTried, HttpPost]
  {
    RunPassesGates(config, Some(r), memory, true, w);
    RefreshesExactlyWhen(w, true, r);
    AfterRefresh(w, true, r);
    BrowserFollowsExactlyWhen(w.first, true, r);
    BrowserFollowsExactlyWhen(w.second, true, r);
    FastAttempt(w.first.fastSession, w.first.http, r);
    FastAttempt(w.second.fastSession, w.second.http, r);
    assert [FastPathTried] + [] == [FastPathTried];
  }
}
