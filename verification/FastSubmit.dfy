/**
 * The HTTP fast path: read the seller and the last document, POST once, then look for proof of the new document.
 * Every answer of the remote service is part of the world the call meets.
 */
module FastSubmit {
  import opened Wrappers
  import opened AdeErrors
  import opened FastSubmitMetrics

  /** What can be read off an answer of the service; an absent or empty text is `None`. */
  datatype Evidence = Evidence(
    esito: Option<bool>, idtrx: Option<string>, progressivo: Option<string>, documentDate: Option<string>,
    grossTotalCents: Option<int>)

  datatype Response = Response(status: int, evidence: Evidence, responseDate: Option<string>)

  /**
   * How the service behaves during one call: the preflight reads, the session context of the POST, the POST,
   * and the two later reads of the last document (`None` when a read fails).
   */
  datatype HttpWorld = HttpWorld(
    preflight: Result<Evidence, EarlyException>,
    postContext: Result<(), EarlyException>,
    post: Option<Response>,
    firstRead: Option<Evidence>,
    secondRead: Option<Evidence>)

  datatype ConfirmationEvidence = HttpResponse | HttpReconciled

  datatype FastResult = FastResult(
    confirmation: ConfirmationEvidence, externalId: Option<string>, documentNumber: Option<string>,
    documentDate: Option<string>)

  predicate HasText(s: Option<string>) {
    s.Some? && s.value != ""
  }

  predicate HasIdentifier(e: Evidence) {
    HasText(e.idtrx) || HasText(e.progressivo)
  }

  predicate SameIdentifier(a: Evidence, b: Evidence) {
    if HasText(a.idtrx) && HasText(b.idtrx) then a.idtrx == b.idtrx
    else if HasText(a.progressivo) && HasText(b.progressivo) then a.progressivo == b.progressivo
    else false
  }

  predicate ReconcilesNewDocument(before: Evidence, after: Evidence, expectedCents: int) {
    HasIdentifier(after) && after.grossTotalCents == Some(expectedCents) && !SameIdentifier(before, after)
  }

  function TryReconcile(read: Option<Evidence>, baseline: Evidence, expectedCents: int): Option<FastResult> {
    if read.Some? && ReconcilesNewDocument(baseline, read.value, expectedCents)
    then Some(FastResult(HttpReconciled, read.value.idtrx, read.value.progressivo, read.value.documentDate))
    else None
  }

  function FirstOf(a: Option<string>, b: Option<string>): Option<string> {
    if a.Some? then a else b
  }

  function ReconcileResponse(w: HttpWorld, baseline: Evidence, response: Response, expectedCents: int)
    : Result<FastResult, Exception>
  {
    var posted := response.evidence;
    if posted.esito == Some(false) then Err(RaiseAttempted(SubmitRejected)) else
    var strong := posted.esito == Some(true) && HasIdentifier(posted);
    var reconciled := TryReconcile(w.firstRead, baseline, expectedCents);
    if reconciled.Some? then
      Ok(reconciled.value.(documentDate := FirstOf(reconciled.value.documentDate, response.responseDate)))
    else if 200 <= response.status < 300 && strong then
      Ok(FastResult(HttpResponse, posted.idtrx, posted.progressivo,
                    FirstOf(posted.documentDate, response.responseDate)))
    else if 400 <= response.status < 500 then Err(RaiseAttempted(SubmitRejected))
    else Err(RaiseAttempted(SubmitUnknown))
  }

  /** What one call does: how many POSTs it starts, and how it ends. */
  datatype Effect = Effect(posts: nat, result: Result<FastResult, Exception>)

  function AfterPost(w: HttpWorld, baseline: Evidence, expectedCents: int): Result<FastResult, Exception> {
    var answer := if w.post.Some? then ReconcileResponse(w, baseline, w.post.value, expectedCents)
                  else Err(RaiseAttempted(SubmitUnknown));
    if answer.Err? && Attempted(answer.error) then
      var recovered := TryReconcile(w.secondRead, baseline, expectedCents);
      if recovered.Some? then Ok(recovered.value) else answer
    else answer
  }

  function PerformSubmit(w: HttpWorld, expectedCents: int): Effect {
    match w.preflight
    case Err(error) => Effect(0, Err(error))
    case Ok(baseline) =>
      match w.postContext
      case Err(error) => Effect(0, Err(error))
      case Ok(_) => Effect(1, AfterPost(w, baseline, expectedCents))
  }

  function OutcomeOf(result: Result<FastResult, Exception>): Outcome {
    match result
    case Ok(_) => Success
    case Err(error) =>
      if Attempted(error) then if error.code == SubmitRejected then OutcomeRejected else OutcomeUnknown
      else FailedPreSubmit
  }

  /** A call starts at most one POST, and it reports `submitAttempted` on an error exactly when it started it. */
  lemma FlagTellsThePost(w: HttpWorld, expectedCents: int)
    ensures var e := PerformSubmit(w, expectedCents);
            && e.posts <= 1
            && (e.result.Ok? ==> e.posts == 1)
            && (e.result.Err? ==> (Attempted(e.result.error) <==> e.posts == 1))
            && (OutcomeOf(e.result) == FailedPreSubmit <==> e.posts == 0)
  {
  }

  /** The read proves a document that was not there before, with the expected total. */
  predicate ProvesNewDocument(read: Option<Evidence>, baseline: Evidence, expectedCents: int) {
    read.Some? && ReconcilesNewDocument(baseline, read.value, expectedCents)
  }

  /**
   * Exactly when a call succeeds: a later read proves the new document, or the POST was answered 2xx with
   * a positive result and an identifier. A negative result alone never is a success, but a proof outweighs it.
   */
  lemma SucceedsExactlyWhenProved(w: HttpWorld, expectedCents: int)
    ensures var e := PerformSubmit(w, expectedCents);
            e.result.Ok? <==>
              && w.preflight.Ok? && w.postContext.Ok?
              && var baseline := w.preflight.value;
                 || ProvesNewDocument(w.secondRead, baseline, expectedCents)
                 || (w.post.Some? && w.post.value.evidence.esito != Some(false)
                     && ProvesNewDocument(w.firstRead, baseline, expectedCents))
                 || (w.post.Some? && 200 <= w.post.value.status < 300 && w.post.value.evidence.esito == Some(true)
                     && HasIdentifier(w.post.value.evidence))
    ensures var e := PerformSubmit(w, expectedCents);
            e.result.Ok? && e.result.value.confirmation == HttpReconciled ==>
              exists read | read in {w.firstRead, w.secondRead} ::
                && ProvesNewDocument(read, w.preflight.value, expectedCents)
                && e.result.value.externalId == read.value.idtrx
                && e.result.value.documentNumber == read.value.progressivo
    ensures var e := PerformSubmit(w, expectedCents);
            e.result.Ok? && e.result.value.confirmation == HttpResponse ==>
              && w.post.Some? && e.result.value.externalId == w.post.value.evidence.idtrx
              && e.result.value.documentNumber == w.post.value.evidence.progressivo
              && !ProvesNewDocument(w.firstRead, w.preflight.value, expectedCents)
  {
    var e := PerformSubmit(w, expectedCents);
    if e.posts == 1 {
      var baseline := w.preflight.value;
      assert TryReconcile(w.firstRead, baseline, expectedCents).Some?
             <==> ProvesNewDocument(w.firstRead, baseline, expectedCents);
      assert TryReconcile(w.secondRead, baseline, expectedCents).Some?
             <==> ProvesNewDocument(w.secondRead, baseline, expectedCents);
    }
  }

  /** The texts that make a later document a new one. */
  predicate TextsTell(before: Evidence, after: Evidence, expectedCents: int) {
    && (|if after.idtrx.Some? then after.idtrx.value else ""| > 0
        || |if after.progressivo.Some? then after.progressivo.value else ""| > 0)
    && after.grossTotalCents.Some? && after.grossTotalCents.value == expectedCents
    && var idsOnBoth := before.idtrx.Some? && before.idtrx.value != "" && after.idtrx.Some? && after.idtrx.value != "";
       var numbersOnBoth := before.progressivo.Some? && before.progressivo.value != ""
                            && after.progressivo.Some? && after.progressivo.value != "";
       && (idsOnBoth ==> before.idtrx != after.idtrx)
       && (!idsOnBoth && numbersOnBoth ==> before.progressivo != after.progressivo)
  }

  /**
   * A read proves a new document exactly when it names it, with the expected total, and does not name the last one:
   * identifiers are compared where both have one, otherwise the numbers where both have one.
   */
  lemma NewDocumentMeans(before: Evidence, after: Evidence, expectedCents: int)
    ensures ReconcilesNewDocument(before, after, expectedCents) <==> TextsTell(before, after, expectedCents)
    ensures ReconcilesNewDocument(before, before, expectedCents) == false
  {
  }

  /**
   * The answer of a call whose POST was started: the first read that proves the document, unless the POST was refused
   * outright; then the POST's own positive answer; then the second read; then rejected, or unknown.
   */
  lemma AnswerAfterPost(w: HttpWorld, expectedCents: int)
    requires w.preflight.Ok? && w.postContext.Ok?
    ensures var result, before := PerformSubmit(w, expectedCents).result, w.preflight.value;
            var refused := w.post.Some? && w.post.value.evidence.esito == Some(false);
            var named := w.post.Some? && (HasText(w.post.value.evidence.idtrx)
                                          || HasText(w.post.value.evidence.progressivo));
            if w.post.Some? && !refused && w.firstRead.Some? && TextsTell(before, w.firstRead.value, expectedCents) then
              result == Ok(FastResult(HttpReconciled, w.firstRead.value.idtrx, w.firstRead.value.progressivo,
                                      if w.firstRead.value.documentDate.Some? then w.firstRead.value.documentDate
                                      else w.post.value.responseDate))
            else if w.post.Some? && 200 <= w.post.value.status <= 299
                    && w.post.value.evidence.esito == Some(true) && named then
              result == Ok(FastResult(HttpResponse, w.post.value.evidence.idtrx, w.post.value.evidence.progressivo,
                                      if w.post.value.evidence.documentDate.Some?
                                      then w.post.value.evidence.documentDate else w.post.value.responseDate))
            else if w.secondRead.Some? && TextsTell(before, w.secondRead.value, expectedCents) then
              result == Ok(FastResult(HttpReconciled, w.secondRead.value.idtrx, w.secondRead.value.progressivo,
                                      w.secondRead.value.documentDate))
            else if w.post.Some? && (refused || 400 <= w.post.value.status <= 499) then
              result == Err(AdeAutomation(SubmitRejected, "", true))
            else result == Err(AdeAutomation(SubmitUnknown, "", true))
  {
    if w.firstRead.Some? {
      NewDocumentMeans(w.preflight.value, w.firstRead.value, expectedCents);
    }
    if w.secondRead.Some? {
      NewDocumentMeans(w.preflight.value, w.secondRead.value, expectedCents);
    }
  }

  /** A call that fails before its POST fails with the error it met. */
  lemma AnswerBeforePost(w: HttpWorld, expectedCents: int)
    requires w.preflight.Err? || w.postContext.Err?
    ensures var e := PerformSubmit(w, expectedCents);
            e.posts == 0
            && e.result == Err(if w.preflight.Err? then w.preflight.error else w.postContext.error)
  {
  }

  /** What the metrics call the end of a submission. */
  lemma OutcomeTells(result: Result<FastResult, Exception>)
    ensures OutcomeOf(result) == Success <==> result.Ok?
    ensures OutcomeOf(result) == FailedPreSubmit <==>
              result.Err? && !(result.error.AdeAutomation? && result.error.submitAttempted)
    ensures OutcomeOf(result) == OutcomeRejected <==>
              result.Err? && result.error.AdeAutomation? && result.error.submitAttempted
              && result.error.code == SubmitRejected
    ensures OutcomeOf(result) == OutcomeUnknown <==>
              result.Err? && result.error.AdeAutomation? && result.error.submitAttempted
              && result.error.code != SubmitRejected
  {
  }

  // ---------------------------------------------------------------------------------------------
  // Sequences of calls
  // ---------------------------------------------------------------------------------------------

  datatype Call = Call(world: HttpWorld, expectedCents: int, durationMs: nat)

  function Recorded(calls: seq<Call>): seq<(nat, Outcome)> {
    seq(|calls|, i requires 0 <= i < |calls| =>
      (calls[i].durationMs, OutcomeOf(PerformSubmit(calls[i].world, calls[i].expectedCents).result)))
  }

  ghost function PostsStarted(calls: seq<Call>): nat {
    if calls == [] then 0 else
    PostsStarted(calls[..|calls| - 1])
    + PerformSubmit(calls[|calls| - 1].world, calls[|calls| - 1].expectedCents).posts
  }

  /** Success, rejected and unknown together count the POSTs started; failed-pre-submit counts the calls without one. */
  lemma {:induction false} CountersMatchPosts(calls: seq<Call>)
    ensures var c := RecordAll(NO_METRICS, Recorded(calls)).counters;
            && c.success + c.rejected + c.unknown == PostsStarted(calls)
            && c.failedPreSubmit == |calls| - PostsStarted(calls)
  {
    if calls != [] {
      var n := |calls| - 1;
      CountersMatchPosts(calls[..n]);
      assert Recorded(calls)[..n] == Recorded(calls[..n]);
      FlagTellsThePost(calls[n].world, calls[n].expectedCents);
    }
  }

  class AdeDcoFastSubmit {
    const metrics: AdeFastSubmitMetrics
    ghost var postsStarted: nat

    constructor (metrics: AdeFastSubmitMetrics)
      ensures this.metrics == metrics && postsStarted == 0
    {
      this.metrics := metrics;
      postsStarted := 0;
    }

    method Submit(w: HttpWorld, expectedCents: int, durationMs: nat) returns (result: Result<FastResult, Exception>)
      modifies this, metrics
      ensures result == PerformSubmit(w, expectedCents).result
      ensures postsStarted == old(postsStarted) + PerformSubmit(w, expectedCents).posts
      ensures metrics.State() == Record(old(metrics.State()), durationMs, OutcomeOf(result))
    {
      result := Perform(w, expectedCents);
      var outcome :=
        match result
        case Ok(_) => Success
        case Err(error) =>
          if Attempted(error) then if error.code == SubmitRejected then OutcomeRejected else OutcomeUnknown
          else FailedPreSubmit;
      var _ := metrics.RecordOutcome(durationMs, outcome);
    }

    method Perform(w: HttpWorld, expectedCents: int) returns (result: Result<FastResult, Exception>)
      modifies this
      ensures result == PerformSubmit(w, expectedCents).result
      ensures postsStarted == old(postsStarted) + PerformSubmit(w, expectedCents).posts
    {
      if w.preflight.Err? {
        return Err(w.preflight.error);
      }
      var baseline := w.preflight.value;
      if w.postContext.Err? {
        return Err(w.postContext.error);
      }
      // The irreversible step: from here on no failure may lead to a second POST.
      postsStarted := postsStarted + 1;
      if w.post.None? {
        result := Err(RaiseAttempted(SubmitUnknown));
      } else {
        result := ReconcileResponse(w, baseline, w.post.value, expectedCents);
      }
      if result.Err? && Attempted(result.error) {
        var recovered := TryReconcile(w.secondRead, baseline, expectedCents);
        if recovered.Some? {
          result := Ok(recovered.value);
        }
      }
    }
  }
}
