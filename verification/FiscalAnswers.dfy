/**
 * How often the provider can succeed for one document. The tables do not show it: a success whose recording throws
 * looks like a failure, and one whose worker dies like a crash. Events say in which of those steps the provider had
 * already answered.
 */
module FiscalAnswers {
  import opened Wrappers
  import opened FiscalPolicy
  import opened FiscalStore
  import opened FiscalProtocol
  import opened FiscalSafety

  datatype Event =
    | Other(step: Step)
    | AnswerLost(worker: WorkerId)
    | DiedAfterAnswer(worker: WorkerId)

  /** What the tables see: recording an answer fails with a database error, which no fiscal error class covers. */
  function StepOf(e: Event): Step {
    match e
    case Other(step) => step
    case AnswerLost(worker) => Fail(worker, UnclassifiedError)
    case DiedAfterAnswer(worker) => Crash(worker)
  }

  function Steps(events: seq<Event>): seq<Step> {
    seq(|events|, i requires 0 <= i < |events| => StepOf(events[i]))
  }

  function After(s: System, events: seq<Event>): System {
    Run(s, Steps(events))
  }

  /** The worker whose provider call has succeeded when the event happens. */
  function Answered(e: Event): Option<WorkerId> {
    match e
    case Other(step) => if step.Succeed? then Some(step.worker) else None
    case AnswerLost(worker) => Some(worker)
    case DiedAfterAnswer(worker) => Some(worker)
  }

  predicate AnswersFor(s: System, e: Event, id: DocumentId) {
    Answered(e).Some? && Answered(e).value in s.flight && s.flight[Answered(e).value].id == id
  }

  /** How often the provider has succeeded for the document. */
  function Successes(s: System, events: seq<Event>, id: DocumentId): nat
    decreases |events|
  {
    if events == [] then 0 else
    var front, last := events[..|events| - 1], events[|events| - 1];
    Successes(s, front, id) + if AnswersFor(After(s, front), last, id) then 1 else 0
  }

  lemma AfterLast(s: System, events: seq<Event>)
    requires events != []
    ensures After(s, events) == Next(After(s, events[..|events| - 1]), StepOf(events[|events| - 1]))
  {
    assert Steps(events)[..|events| - 1] == Steps(events[..|events| - 1]);
  }

  // ---------------------------------------------------------------------------------------------
  // At most one success
  // ---------------------------------------------------------------------------------------------

  /** A document is never removed and keeps its provider, and its executions never become fewer. */
  lemma ExecutionsGrow(s: System, step: Step, id: DocumentId)
    requires Inv(s) && id in s.tables.documents
    ensures var t', d := Next(s, step).tables, s.tables.documents[id];
            && id in t'.documents && t'.documents[id].provider == d.provider && t'.documents[id].attempts >= d.attempts
  {
    if step.Recover? {
      RecoverMeaning(s, step.candidates);
      assert RecoveredRow(s.tables.documents[id], Next(s, step).tables.documents[id]);
    }
  }

  /** An execution begins with a claim, which counts it. */
  lemma ClaimCounts(s: System, step: Step, id: DocumentId)
    requires id in s.tables.documents && InFlight(Next(s, step), id) && !InFlight(s, id)
    ensures Executions(Next(s, step), id) == Executions(s, id) + 1
  {
    var w :| w in Next(s, step).flight && Next(s, step).flight[w].id == id;
    assert step.Claim?;
  }

  /** The answered executions are executions that are over; after one, an ADE document is halted. */
  ghost predicate CountOk(s: System, n: nat, id: DocumentId) {
    && (n > 0 ==> id in s.tables.documents)
    && n + (if InFlight(s, id) then 1 else 0) <= Executions(s, id)
    && (n > 0 && s.tables.documents[id].provider == AdeWeb ==> n == 1 && Halted(s, id))
  }

  lemma CountStays(s: System, e: Event, n: nat, id: DocumentId)
    requires Inv(s) && CountOk(s, n, id) && !AnswersFor(s, e, id)
    ensures CountOk(Next(s, StepOf(e)), n, id)
  {
    if id in s.tables.documents {
      ExecutionsGrow(s, StepOf(e), id);
      if InFlight(Next(s, StepOf(e)), id) && !InFlight(s, id) {
        ClaimCounts(s, StepOf(e), id);
      }
      if Halted(s, id) {
        HaltedStays(s, StepOf(e), id);
      }
    } else {
      NewIsQueued(s, StepOf(e), id);
    }
  }

  /** A document that just appeared has not been executed. */
  lemma NewIsQueued(s: System, step: Step, id: DocumentId)
    requires Inv(s) && id !in s.tables.documents
    ensures !InFlight(Next(s, step), id)
  {
    forall w | w in Next(s, step).flight
      ensures Next(s, step).flight[w].id != id
    {
      assert w in s.flight ==> LiveClaim(s.tables.documents, s.flight[w]);
    }
  }

  lemma CountGrows(s: System, e: Event, n: nat, id: DocumentId)
    requires Inv(s) && CountOk(s, n, id) && AnswersFor(s, e, id)
    ensures CountOk(Next(s, StepOf(e)), n + 1, id)
  {
    var w := Answered(e).value;
    var s' := Next(s, StepOf(e));
    assert InFlight(s, id);
    assert LiveClaim(s.tables.documents, s.flight[w]);
    ExecutionsGrow(s, StepOf(e), id);
    assert !InFlight(s', id);
    assert s.tables.documents[id].provider == AdeWeb ==> AtRest(s'.tables.documents[id].status);
  }

  lemma {:induction false} SuccessesOk(events: seq<Event>, id: DocumentId)
    ensures Inv(After(EMPTY, events)) && CountOk(After(EMPTY, events), Successes(EMPTY, events, id), id)
    decreases |events|
  {
    EmptyInv();
    if events == [] {
      assert Steps(events) == [];
    } else {
      var front, last := events[..|events| - 1], events[|events| - 1];
      SuccessesOk(front, id);
      AfterLast(EMPTY, events);
      NextKeepsInv(After(EMPTY, front), StepOf(last));
      if AnswersFor(After(EMPTY, front), last, id) {
        CountGrows(After(EMPTY, front), last, Successes(EMPTY, front, id), id);
      } else {
        CountStays(After(EMPTY, front), last, Successes(EMPTY, front, id), id);
      }
    }
  }

  /**
   * Whatever throws and whoever dies, the provider of an ADE document succeeds at most once; any other, once an
   * attempt.
   */
  lemma AdeSucceedsAtMostOnce(events: seq<Event>, id: DocumentId)
    ensures var s := After(EMPTY, events);
            && Successes(EMPTY, events, id) <= Executions(s, id)
            && (id in s.tables.documents && s.tables.documents[id].provider == AdeWeb ==>
                  Successes(EMPTY, events, id) <= 1)
  {
    SuccessesOk(events, id);
  }

  // ---------------------------------------------------------------------------------------------
  // Any number of successes
  // ---------------------------------------------------------------------------------------------

  lemma AfterConcat(s: System, first: seq<Event>, second: seq<Event>)
    ensures After(s, first + second) == After(After(s, first), second)
  {
    assert Steps(first + second) == Steps(first) + Steps(second);
    RunConcat(s, Steps(first), Steps(second));
  }

  lemma {:induction false} SuccessesConcat(s: System, first: seq<Event>, second: seq<Event>, id: DocumentId)
    ensures Successes(s, first + second, id) == Successes(s, first, id) + Successes(After(s, first), second, id)
    decreases |second|
  {
    if second == [] {
      assert first + second == first;
    } else {
      var n := |second| - 1;
      assert (first + second)[..|first + second| - 1] == first + second[..n];
      SuccessesConcat(s, first, second[..n], id);
      AfterConcat(s, first, second[..n]);
    }
  }

  function Others(steps: seq<Step>): seq<Event> {
    seq(|steps|, i requires 0 <= i < |steps| => Other(steps[i]))
  }

  lemma {:induction false} NoReportNoSuccess(s: System, steps: seq<Step>, id: DocumentId)
    requires forall i :: 0 <= i < |steps| ==> !steps[i].Succeed?
    ensures After(s, Others(steps)) == Run(s, steps) && Successes(s, Others(steps), id) == 0
    decreases |steps|
  {
    assert Steps(Others(steps)) == steps;
    if steps != [] {
      assert Others(steps)[..|steps| - 1] == Others(steps[..|steps| - 1]);
      NoReportNoSuccess(s, steps[..|steps| - 1], id);
    }
  }

  /** Losing the answer of worker w ends its execution, and the document can be executed again. */
  lemma LoseAnswer(s: System, w: WorkerId)
    requires Inv(s) && w in s.flight && s.flight[w].provider != AdeWeb
    ensures var id, s' := s.flight[w].id, After(s, [AnswerLost(w)]);
            && Successes(s, [AnswerLost(w)], id) == 1
            && Inv(s') && id in s'.tables.documents && !InFlight(s', id)
            && s'.tables.documents[id].provider == s.flight[w].provider
            && !AtRest(s'.tables.documents[id].status)
  {
    assert LiveClaim(s.tables.documents, s.flight[w]);
    assert Steps([AnswerLost(w)]) == [Fail(w, UnclassifiedError)];
    RunOne(s, Fail(w, UnclassifiedError));
    NextKeepsInv(s, Fail(w, UnclassifiedError));
    assert [AnswerLost(w)][..0] == [];
    assert After(s, []) == s;
  }

  /** A document of any other provider is in flight again after n successes that were not recorded. */
  lemma {:induction false} ManySuccesses(input: IssueInput, n: nat) returns (events: seq<Event>, w: WorkerId)
    requires input.profileEnabled && input.provider != AdeWeb
    ensures var s := After(EMPTY, events);
            && Successes(EMPTY, events, 1) == n
            && Inv(s) && w in s.flight && s.flight[w].id == 1 && s.flight[w].provider == input.provider
  {
    if n == 0 {
      var steps := [Issue(input, 1), Claim(0, 1)];
      events, w := Others(steps), 0;
      NoReportNoSuccess(EMPTY, steps, 1);
      FirstClaim(input);
      EmptyInv();
      RunKeepsInv(EMPTY, steps);
    } else {
      var before, v := ManySuccesses(input, n - 1);
      var s := After(EMPTY, before);
      LoseAnswer(s, v);
      var lost := After(s, [AnswerLost(v)]);
      var steps;
      steps, w := Again(lost, 1);
      NoReportNoSuccess(lost, steps, 1);
      events := before + [AnswerLost(v)] + Others(steps);
      AfterConcat(EMPTY, before, [AnswerLost(v)]);
      AfterConcat(EMPTY, before + [AnswerLost(v)], Others(steps));
      SuccessesConcat(EMPTY, before, [AnswerLost(v)], 1);
      SuccessesConcat(EMPTY, before + [AnswerLost(v)], Others(steps), 1);
      assert LiveClaim(After(EMPTY, events).tables.documents, After(EMPTY, events).flight[w]);
    }
  }

  /** The shortest way to two successes: the first is lost, the queue delivers again, the second is recorded. */
  function TwiceSold(input: IssueInput, result: ProviderResult): seq<Event> {
    Others([Issue(input, 1), Claim(0, 1)]) + [AnswerLost(0)] + [Other(Claim(0, 1)), Other(Succeed(0, result))]
  }

  /** The lost answer sends document 1 to RETRY, held by nobody. */
  lemma LostOnce(input: IssueInput)
    requires input.profileEnabled && input.provider != AdeWeb
    ensures var s := After(EMPTY, Others([Issue(input, 1), Claim(0, 1)]) + [AnswerLost(0)]);
            && 1 in s.tables.documents && s.tables.documents[1].status == Failed(Retry)
            && s.tables.documents[1].attempts == 1 && s.tables.documents[1].documentType == Sale && 0 !in s.flight
    ensures Successes(EMPTY, Others([Issue(input, 1), Claim(0, 1)]) + [AnswerLost(0)], 1) == 1
  {
    var first := [Issue(input, 1), Claim(0, 1)];
    var begun, lost := Others(first), Others(first) + [AnswerLost(0)];
    NoReportNoSuccess(EMPTY, first, 1);
    FirstClaim(input);
    assert lost[..|lost| - 1] == begun;
    AfterLast(EMPTY, lost);
  }

  lemma SoldAgain(s: System, w: WorkerId, id: DocumentId, result: ProviderResult)
    requires id in s.tables.documents && s.tables.documents[id].status == Failed(Retry) && w !in s.flight
    requires s.tables.documents[id].documentType == Sale
    ensures var s' := After(s, [Other(Claim(w, id)), Other(Succeed(w, result))]);
            && id in s'.tables.documents && s'.tables.documents[id].status == Issued
            && s'.tables.documents[id].attempts == s.tables.documents[id].attempts + 1
    ensures Successes(s, [Other(Claim(w, id)), Other(Succeed(w, result))], id) == 1
  {
    var events := [Other(Claim(w, id)), Other(Succeed(w, result))];
    assert events[..1] == [events[0]] && [events[0]][..0] == [];
    assert After(s, []) == s;
    AfterLast(s, [events[0]]);
    AfterLast(s, events);
    assert Successes(s, [events[0]], id) == 0;
    assert AnswersFor(After(s, [events[0]]), events[1], id);
  }

  lemma TwiceSoldIsReached(input: IssueInput, result: ProviderResult)
    requires input.profileEnabled && input.provider != AdeWeb
    ensures var s := After(EMPTY, TwiceSold(input, result));
            && 1 in s.tables.documents && s.tables.documents[1].status == Issued && s.tables.documents[1].attempts == 2
    ensures Successes(EMPTY, TwiceSold(input, result), 1) == 2
  {
    var lost := Others([Issue(input, 1), Claim(0, 1)]) + [AnswerLost(0)];
    var again := [Other(Claim(0, 1)), Other(Succeed(0, result))];
    LostOnce(input);
    SoldAgain(After(EMPTY, lost), 0, 1, result);
    AfterConcat(EMPTY, lost, again);
    SuccessesConcat(EMPTY, lost, again, 1);
  }

  ghost predicate OnceAtMost(provider: Provider, events: seq<Event>, id: DocumentId) {
    var documents := After(EMPTY, events).tables.documents;
    id in documents && documents[id].provider == provider ==> Successes(EMPTY, events, id) <= 1
  }

  /** Some run makes the provider succeed n times for one of its documents. */
  ghost predicate SucceedsTimes(provider: Provider, n: nat) {
    exists events, id ::
      && id in After(EMPTY, events).tables.documents
      && After(EMPTY, events).tables.documents[id].provider == provider
      && Successes(EMPTY, events, id) == n
  }

  /**
   * No run makes a provider succeed a second time for the same document exactly when it is ADE; for any other, every
   * number of successes is reached.
   */
  lemma SucceedsOnceExactlyWhen(provider: Provider)
    ensures (forall events, id :: OnceAtMost(provider, events, id)) <==> provider == AdeWeb
    ensures provider != AdeWeb ==> forall n {:trigger SucceedsTimes(provider, n)} :: SucceedsTimes(provider, n)
  {
    if provider == AdeWeb {
      forall events, id
        ensures OnceAtMost(provider, events, id)
      {
        AdeSucceedsAtMostOnce(events, id);
      }
    } else {
      var input := IssueInput(0, 0, 0, 0, true, provider);
      forall n
        ensures SucceedsTimes(provider, n)
      {
        var events, w := ManySuccesses(input, n);
        assert LiveClaim(After(EMPTY, events).tables.documents, After(EMPTY, events).flight[w]);
      }
      var events, w := ManySuccesses(input, 2);
      assert LiveClaim(After(EMPTY, events).tables.documents, After(EMPTY, events).flight[w]);
      assert !OnceAtMost(provider, events, 1);
    }
  }
}
