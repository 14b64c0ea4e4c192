/** What the fiscal document protocol guarantees over every run, from empty tables. */
module FiscalSafety {
  import opened Wrappers
  import opened FiscalPolicy
  import opened FiscalStore
  import opened FiscalProtocol

  ghost predicate InFlight(s: System, id: DocumentId) {
    exists w :: w in s.flight && s.flight[w].id == id
  }

  lemma EmptyInv()
    ensures Inv(EMPTY)
  {
  }

  lemma {:induction false} RunConcat(s: System, first: seq<Step>, second: seq<Step>)
    ensures Run(s, first + second) == Run(Run(s, first), second)
    decreases |second|
  {
    if second == [] {
      assert first + second == first;
    } else {
      var steps := first + second;
      assert steps[..|steps| - 1] == first + second[..|second| - 1];
      RunConcat(s, first, second[..|second| - 1]);
    }
  }

  lemma RunOne(s: System, step: Step)
    ensures Run(s, [step]) == Next(s, step)
  {
    assert [step][..0] == [];
    assert Run(s, []) == s;
  }

  /** At most one execution of a document is in flight, and while it is the document is PROCESSING or UNKNOWN. */
  lemma OneExecutionInFlight(steps: seq<Step>, v: WorkerId, w: WorkerId)
    ensures var s := Run(EMPTY, steps);
            v in s.flight && w in s.flight ==>
              && (s.flight[v].id == s.flight[w].id ==> v == w)
              && s.flight[v].id in s.tables.documents
              && var d := s.tables.documents[s.flight[v].id];
                 && (d.status == Processing || d.status == Failed(Unknown))
                 && s.flight[v].attempts == d.attempts
  {
    EmptyInv();
    RunKeepsInv(EMPTY, steps);
    var s := Run(EMPTY, steps);
    assert v in s.flight ==> LiveClaim(s.tables.documents, s.flight[v]);
  }

  /** The attempt rows of a document are exactly the numbers 1 to `attempts`. */
  lemma AttemptRowsAreOneToN(steps: seq<Step>, id: DocumentId, k: nat)
    ensures var t := Run(EMPTY, steps).tables;
            (id, k) in t.attempts <==> id in t.documents && 1 <= k <= t.documents[id].attempts
  {
    EmptyInv();
    RunKeepsInv(EMPTY, steps);
    var t := Run(EMPTY, steps).tables;
    assert id in t.documents ==> DocumentOk(id, t.documents[id], t);
    assert (id, k) in t.attempts ==> (id, k).0 in t.documents;
  }

  /** A succeeded attempt is the last one, belongs to an issued or voided document, and is no longer executing. */
  lemma SuccessIsFinalAndUnique(steps: seq<Step>, id: DocumentId, k: nat)
    ensures var s := Run(EMPTY, steps);
            id in s.tables.documents ==>
              ((id, k) in s.tables.attempts && s.tables.attempts[(id, k)].outcome == Succeeded <==>
               && k == s.tables.documents[id].attempts
               && s.tables.documents[id].status == FinalStatus(s.tables.documents[id].documentType))
    ensures var s := Run(EMPTY, steps);
            id in s.tables.documents && s.tables.documents[id].status in {Issued, Voided} ==> !InFlight(s, id)
  {
    EmptyInv();
    RunKeepsInv(EMPTY, steps);
    var s := Run(EMPTY, steps);
    if id in s.tables.documents {
      var d := s.tables.documents[id];
      assert DocumentOk(id, d, s.tables);
      if 1 <= k < d.attempts {
        assert EarlierOk(s.tables.attempts[(id, k)]);
      }
      forall w | w in s.flight && s.flight[w].id == id
        ensures d.status !in {Issued, Voided}
      {
        assert LiveClaim(s.tables.documents, s.flight[w]);
      }
    }
  }

  /** Executions are bounded by the provider's maximum plus the manual retries. */
  lemma AttemptsBounded(steps: seq<Step>, id: DocumentId)
    ensures var t := Run(EMPTY, steps).tables;
            id in t.documents ==>
              var d := t.documents[id];
              && d.attempts <= EffectiveMaxAttempts(d.provider, DEFAULT_MAX_ATTEMPTS) + |RetryKeys(t.mutations, id)|
              && (d.status == Failed(Retry) ==> d.attempts < EffectiveMaxAttempts(d.provider, DEFAULT_MAX_ATTEMPTS))
  {
    EmptyInv();
    RunKeepsInv(EMPTY, steps);
    var t := Run(EMPTY, steps).tables;
    assert id in t.documents ==> DocumentOk(id, t.documents[id], t);
  }

  /** A void always hangs on an issued sale of its order, and an order never gets two sales or two voids. */
  lemma VoidsHangOnIssuedSales(steps: seq<Step>, id: DocumentId, other: DocumentId)
    ensures var ds := Run(EMPTY, steps).tables.documents;
            id in ds && ds[id].documentType == VoidSale ==>
              && ds[id].parent.Some? && ds[id].parent.value in ds
              && var sale := ds[ds[id].parent.value];
                 sale.documentType == Sale && sale.status == Issued && sale.orderId == ds[id].orderId
                 && sale.provider == ds[id].provider
    ensures var ds := Run(EMPTY, steps).tables.documents;
            (id in ds && other in ds && ds[id].orderId == ds[other].orderId
             && ds[id].documentType == ds[other].documentType) ==> id == other
  {
    EmptyInv();
    RunKeepsInv(EMPTY, steps);
    var ds := Run(EMPTY, steps).tables.documents;
    assert id in ds ==> VoidOk(ds, ds[id]);
  }

  // ---------------------------------------------------------------------------------------------
  // Dead ends
  // ---------------------------------------------------------------------------------------------

  /** No claim and no manual retry picks the status up. */
  predicate AtRest(status: DocumentStatus) {
    !Claimable(status) && !Retryable(status)
  }

  /** A document at rest that no worker holds. */
  ghost predicate Halted(s: System, id: DocumentId) {
    id in s.tables.documents && AtRest(s.tables.documents[id].status) && !InFlight(s, id)
  }

  /** The columns the invariant looks at stay, or recovery has turned PROCESSING into UNKNOWN. */
  ghost predicate KeptOrRecovered(d: Document, d': Document) {
    || Core(d') == Core(d)
    || (d.status == Processing && d.provider == AdeWeb && d'.status == Failed(Unknown) && RecoveredRow(d, d'))
  }

  /** No other worker's report reaches a document that nobody holds, and no call of the API changes it. */
  lemma OthersKeepHalted(s: System, step: Step, id: DocumentId)
    requires Inv(s) && Halted(s, id) && !step.Recover?
    ensures id in Next(s, step).tables.documents
    ensures Core(Next(s, step).tables.documents[id]) == Core(s.tables.documents[id])
  {
    match step {
      case Succeed(worker, result) =>
        assert worker in s.flight ==> s.flight[worker].id != id;
      case Fail(worker, error) =>
        assert worker in s.flight ==> s.flight[worker].id != id;
      case _ =>
    }
  }

  lemma HaltedStays(s: System, step: Step, id: DocumentId)
    requires Inv(s) && Halted(s, id)
    ensures Halted(Next(s, step), id)
    ensures KeptOrRecovered(s.tables.documents[id], Next(s, step).tables.documents[id])
  {
    var s' := Next(s, step);
    if step.Recover? {
      RecoverMeaning(s, step.candidates);
      assert RecoveredRow(s.tables.documents[id], s'.tables.documents[id]);
    } else {
      OthersKeepHalted(s, step, id);
    }
    var d, d' := s.tables.documents[id], s'.tables.documents[id];
    assert Core(d') == Core(d) ==> d.status == Core(d).status == d'.status;
    NotTakenUp(s, step, id);
  }

  lemma NotTakenUp(s: System, step: Step, id: DocumentId)
    requires Halted(s, id)
    ensures !InFlight(Next(s, step), id)
  {
    forall w | w in Next(s, step).flight
      ensures Next(s, step).flight[w].id != id
    {
      if w in s.flight {
        assert s.flight[w].id != id;
      }
    }
  }

  /** A halted document keeps its attempts in every run, whether or not recovery has found it yet. */
  lemma {:induction false} HaltedForever(s: System, steps: seq<Step>, id: DocumentId)
    requires Inv(s) && Halted(s, id)
    ensures Halted(Run(s, steps), id)
    ensures Run(s, steps).tables.documents[id].attempts == s.tables.documents[id].attempts
    decreases |steps|
  {
    if steps != [] {
      var front := steps[..|steps| - 1];
      HaltedForever(s, front, id);
      RunKeepsInv(s, front);
      HaltedStays(Run(s, front), steps[|steps| - 1], id);
      var d, d' := Run(s, front).tables.documents[id], Run(s, steps).tables.documents[id];
      assert d.attempts == Core(d).attempts && d'.attempts == Core(d').attempts;
    }
  }

  predicate DeadEnd(d: Document) {
    || d.status in {Issued, Voided, Failed(Unknown), Failed(AuthRequired)}
    || (d.status == Processing && d.provider != AdeWeb)
  }

  /** No worker holds the document and no step changes its status any more. */
  ghost predicate Settled(s: System, id: DocumentId) {
    id in s.tables.documents && DeadEnd(s.tables.documents[id]) && !InFlight(s, id)
  }

  lemma SettledStays(s: System, step: Step, id: DocumentId)
    requires Inv(s) && Settled(s, id)
    ensures Settled(Next(s, step), id)
    ensures Core(Next(s, step).tables.documents[id]) == Core(s.tables.documents[id])
  {
    HaltedStays(s, step, id);
    var d, d' := s.tables.documents[id], Next(s, step).tables.documents[id];
    assert Core(d') == Core(d);
    assert d.status == Core(d).status == d'.status && d.provider == Core(d).provider == d'.provider;
  }

  /** A settled document is never executed again: its status and its attempts stay what they are in every future. */
  lemma {:induction false} SettledForever(s: System, steps: seq<Step>, id: DocumentId)
    requires Inv(s) && Settled(s, id)
    ensures Settled(Run(s, steps), id)
    ensures Core(Run(s, steps).tables.documents[id]) == Core(s.tables.documents[id])
    decreases |steps|
  {
    if steps != [] {
      var front := steps[..|steps| - 1];
      SettledForever(s, front, id);
      RunKeepsInv(s, front);
      SettledStays(Run(s, front), steps[|steps| - 1], id);
    }
  }

  /** An unclassified failure of an ADE document settles it. */
  lemma AdeUnclassifiedFailureSettles(s: System, worker: WorkerId, steps: seq<Step>)
    requires Inv(s) && worker in s.flight && s.flight[worker].provider == AdeWeb
    ensures var id := s.flight[worker].id;
            var stopped := Next(s, Fail(worker, UnclassifiedError));
            && id in stopped.tables.documents
            && Settled(Run(stopped, steps), id)
            && Run(stopped, steps).tables.documents[id].status == Failed(Unknown)
            && Run(stopped, steps).tables.documents[id].attempts == s.flight[worker].attempts
  {
    var id := s.flight[worker].id;
    var stopped := Next(s, Fail(worker, UnclassifiedError));
    assert LiveClaim(s.tables.documents, s.flight[worker]);
    NextKeepsInv(s, Fail(worker, UnclassifiedError));
    assert Settled(stopped, id);
    SettledForever(stopped, steps, id);
    var d, d' := stopped.tables.documents[id], Run(stopped, steps).tables.documents[id];
    assert d.status == Core(d).status == d'.status && d.attempts == Core(d).attempts == d'.attempts;
  }

  /** A crashed ADE execution that recovery finds is never executed again. */
  lemma RecoveredCrashSettles(s: System, candidates: seq<DocumentId>, steps: seq<Step>, id: DocumentId)
    requires Inv(s) && Stale(s.tables, id) && !InFlight(s, id) && id in candidates
    ensures var recovered := Next(s, Recover(candidates));
            && id in recovered.tables.documents
            && Settled(Run(recovered, steps), id)
            && Run(recovered, steps).tables.documents[id].status == Failed(Unknown)
            && Run(recovered, steps).tables.documents[id].attempts == s.tables.documents[id].attempts
  {
    var recovered := Next(s, Recover(candidates));
    RecoverMeaning(s, candidates);
    assert RecoveredRow(s.tables.documents[id], recovered.tables.documents[id]);
    assert Settled(recovered, id);
    SettledForever(recovered, steps, id);
    var d, d' := recovered.tables.documents[id], Run(recovered, steps).tables.documents[id];
    assert d.status == Core(d).status == d'.status && d.attempts == Core(d).attempts == d'.attempts;
  }

  predicate IsProcessing(s: System, id: DocumentId) {
    id in s.tables.documents && s.tables.documents[id].status == Processing
  }

  /**
   * A document whose worker died stays PROCESSING in every run exactly when it is not an ADE document: recovery
   * selects those alone, and nothing else ever picks such a row up.
   */
  lemma CrashedStaysProcessingExactlyWhen(s: System, id: DocumentId)
    requires Inv(s) && IsProcessing(s, id) && !InFlight(s, id)
    ensures (forall steps :: IsProcessing(Run(s, steps), id)) <==> s.tables.documents[id].provider != AdeWeb
  {
    if s.tables.documents[id].provider == AdeWeb {
      var step := Recover([id]);
      RecoverMeaning(s, [id]);
      RunOne(s, step);
      assert !IsProcessing(Run(s, [step]), id);
    } else {
      forall steps
        ensures IsProcessing(Run(s, steps), id)
      {
        SettledForever(s, steps, id);
        var d' := Run(s, steps).tables.documents[id];
        assert Core(d').status == d'.status && Core(s.tables.documents[id]).status == Processing;
      }
    }
  }

  /**
   * UNKNOWN is final exactly when no live worker still holds the claim: `succeed` and `fail` write the status
   * without looking at it, so a worker that recovery overtook can still move the document.
   */
  lemma UnknownIsFinalExactlyWhen(s: System, id: DocumentId)
    requires Inv(s) && id in s.tables.documents && s.tables.documents[id].status == Failed(Unknown)
    ensures !InFlight(s, id) ==>
              forall steps :: id in Run(s, steps).tables.documents
                && Run(s, steps).tables.documents[id].status == Failed(Unknown)
    ensures InFlight(s, id) ==>
              exists steps :: id in Run(s, steps).tables.documents
                && Run(s, steps).tables.documents[id].status != Failed(Unknown)
  {
    if InFlight(s, id) {
      var w :| w in s.flight && s.flight[w].id == id;
      var step := Succeed(w, ProviderResult("", ""));
      assert LiveClaim(s.tables.documents, s.flight[w]);
      RunOne(s, step);
      assert VoidOk(s.tables.documents, s.tables.documents[id]);
    } else {
      forall steps
        ensures id in Run(s, steps).tables.documents && Run(s, steps).tables.documents[id].status == Failed(Unknown)
      {
        SettledForever(s, steps, id);
        var d' := Run(s, steps).tables.documents[id];
        assert Core(d').status == d'.status && Core(s.tables.documents[id]).status == Failed(Unknown);
      }
    }
  }

  /** A recovery of one stale document. */
  lemma RecoverOne(s: System, id: DocumentId)
    requires Stale(s.tables, id)
    ensures Next(s, Recover([id])).tables == MarkUnknownTx(s.tables, id, s.tables.documents[id].attempts)
  {
    var rows := [(id, s.tables.documents[id].attempts)];
    assert [id][1..] == [];
    assert SelectStale(s.tables, []) == [];
    assert SelectStale(s.tables, [id]) == rows;
    assert rows[..0] == [];
    assert RecoverTx(s.tables, []) == s.tables;
    assert RecoverTx(s.tables, rows) == MarkUnknownTx(RecoverTx(s.tables, rows[..0]), rows[0].0, rows[0].1);
  }

  /** The sale is issued and claimed. */
  lemma FirstClaim(input: IssueInput)
    requires input.profileEnabled
    ensures var s, d := Run(EMPTY, [Issue(input, 1), Claim(0, 1)]), NewSale(input);
            s == System(Tables(map[1 := d.(status := Processing, attempts := 1)],
                               map[(1, 1) := Attempt(Started, false)], map[]),
                        map[0 := Claimed(1, Sale, input.provider, None, 1, DEFAULT_MAX_ATTEMPTS)], {})
  {
    RunOne(EMPTY, Issue(input, 1));
    RunOne(Next(EMPTY, Issue(input, 1)), Claim(0, 1));
    RunConcat(EMPTY, [Issue(input, 1)], [Claim(0, 1)]);
    assert [Issue(input, 1)] + [Claim(0, 1)] == [Issue(input, 1), Claim(0, 1)];
    var issued := Next(EMPTY, Issue(input, 1));
    assert issued.tables == Tables(map[1 := NewSale(input)], map[], map[]);
  }

  /** A worker that recovery overtook still holds the claim of an UNKNOWN document. */
  lemma OvertakenWorkerIsReached(input: IssueInput)
    requires input.provider == AdeWeb && input.profileEnabled
    ensures var s := Run(EMPTY, [Issue(input, 1), Claim(0, 1), Recover([1])]);
            && Inv(s) && 1 in s.tables.documents && s.tables.documents[1].status == Failed(Unknown)
            && InFlight(s, 1)
  {
    var steps := [Issue(input, 1), Claim(0, 1), Recover([1])];
    EmptyInv();
    RunKeepsInv(EMPTY, steps);
    FirstClaim(input);
    assert steps[..2] == [steps[0], steps[1]];
    RecoverOne(Run(EMPTY, steps[..2]), 1);
    assert 0 in Run(EMPTY, steps).flight;
  }

  // ---------------------------------------------------------------------------------------------
  // Executed again
  // ---------------------------------------------------------------------------------------------

  /** Some number no element of the set reaches. */
  lemma {:induction false} Above(numbers: set<nat>) returns (bound: nat)
    ensures forall n :: n in numbers ==> n < bound
    decreases numbers
  {
    if numbers == {} {
      bound := 0;
    } else {
      var n :| n in numbers;
      var below := Above(numbers - {n});
      bound := if n < below then below else n + 1;
      forall m | m in numbers
        ensures m < bound
      {
        assert m == n || m in numbers - {n};
      }
    }
  }

  /** A manual retry with an unused mutation id requeues a document that may be retried. */
  lemma Requeue(s: System, id: DocumentId) returns (step: Step)
    requires Inv(s) && id in s.tables.documents && Retryable(s.tables.documents[id].status) && !InFlight(s, id)
    ensures step.RetryCall?
    ensures var s', d := Next(s, step), s.tables.documents[id];
            && Inv(s') && id in s'.tables.documents && !InFlight(s', id) && s'.flight == s.flight
            && s'.tables.documents[id] == d.(status := Queued, errorCode := None, version := d.version + 1)
  {
    var used := set key | key in s.tables.mutations :: key.mutationId;
    var unused := Above(used);
    var key := MutationKey(id, 0, unused);
    assert key in s.tables.mutations ==> key.mutationId in used;
    step := RetryCall(key, s.tables.documents[id].version);
    NextKeepsInv(s, step);
  }

  /** Steps without any report of a worker, after which the document is executed once more. */
  lemma Again(s: System, id: DocumentId) returns (steps: seq<Step>, w: WorkerId)
    requires Inv(s) && id in s.tables.documents && !InFlight(s, id) && !AtRest(s.tables.documents[id].status)
    ensures forall i :: 0 <= i < |steps| ==> steps[i].RetryCall? || steps[i].Claim?
    ensures var s', d := Run(s, steps), s.tables.documents[id];
            && Inv(s') && w in s'.flight && s'.flight[w].id == id && id in s'.tables.documents
            && s'.tables.documents[id].attempts == d.attempts + 1 && s'.tables.documents[id].provider == d.provider
  {
    w := Above(s.flight.Keys);
    var claim := Claim(w, id);
    if Claimable(s.tables.documents[id].status) {
      steps := [claim];
      RunOne(s, claim);
      NextKeepsInv(s, claim);
    } else {
      var retry := Requeue(s, id);
      steps := [retry] + [claim];
      RunOne(s, retry);
      RunOne(Next(s, retry), claim);
      RunConcat(s, [retry], [claim]);
      NextKeepsInv(Next(s, retry), claim);
    }
  }

  /** Number of executions of a document so far. */
  function Executions(s: System, id: DocumentId): nat {
    if id in s.tables.documents then s.tables.documents[id].attempts else 0
  }

  /** A worker may report a failure that leaves the document to the queue or to a manual retry. */
  lemma AgainAfterFailure(s: System, w: WorkerId)
    requires Inv(s) && w in s.flight
    ensures exists steps :: Executions(Run(s, steps), s.flight[w].id) > Executions(s, s.flight[w].id)
  {
    var id, failed := s.flight[w].id, Fail(w, ProviderError(true, ErrorDetails("", None, None)));
    assert LiveClaim(s.tables.documents, s.flight[w]);
    NextKeepsInv(s, failed);
    var steps, v := Again(Next(s, failed), id);
    RunOne(s, failed);
    RunConcat(s, [failed], steps);
    assert Executions(Run(s, [failed] + steps), id) > Executions(s, id);
  }

  /** Exactly which documents can still be executed again: those in flight, claimable, or open to a manual retry. */
  lemma ExecutedAgainExactlyWhen(s: System, id: DocumentId)
    requires Inv(s) && id in s.tables.documents
    ensures (exists steps :: Executions(Run(s, steps), id) > Executions(s, id)) <==> !Halted(s, id)
  {
    if Halted(s, id) {
      forall steps
        ensures Executions(Run(s, steps), id) == Executions(s, id)
      {
        HaltedForever(s, steps, id);
      }
    } else if InFlight(s, id) {
      var w :| w in s.flight && s.flight[w].id == id;
      AgainAfterFailure(s, w);
    } else {
      var steps, w := Again(s, id);
      assert Executions(Run(s, steps), id) > Executions(s, id);
    }
  }

  /**
   * An execution whose provider succeeded but whose success could not be recorded ends with an unclassified error.
   * The document is then executed again in some run exactly when it is not an ADE document, attempts left or not:
   * with none left it is REJECTED, and a manual retry queues it again.
   */
  lemma UnrecordedSuccessExecutedAgainExactlyWhen(s: System, w: WorkerId)
    requires Inv(s) && w in s.flight
    ensures var id, lost := s.flight[w].id, Next(s, Fail(w, UnclassifiedError));
            (exists steps :: Executions(Run(lost, steps), id) > s.flight[w].attempts) <==>
              s.flight[w].provider != AdeWeb
  {
    var id, lost := s.flight[w].id, Next(s, Fail(w, UnclassifiedError));
    assert LiveClaim(s.tables.documents, s.flight[w]);
    NextKeepsInv(s, Fail(w, UnclassifiedError));
    assert !InFlight(lost, id);
    assert Executions(lost, id) == s.flight[w].attempts;
    ExecutedAgainExactlyWhen(lost, id);
  }

  /** Repeating a retry request with the same mutation id changes nothing, whatever happened in between. */
  lemma {:induction false} RetryAcceptedOnce(s: System, key: MutationKey, expectedVersion: nat, later: seq<Step>,
                                             again: nat)
    requires Inv(s) && RetryTx(s.tables, key, expectedVersion).1 == Ok(true)
    ensures var after := Run(Next(s, RetryCall(key, expectedVersion)), later);
            Next(after, RetryCall(key, again)) == after && RetryTx(after.tables, key, again).1 == Ok(false)
  {
    var s' := Next(s, RetryCall(key, expectedVersion));
    NextKeepsInv(s, RetryCall(key, expectedVersion));
    MutationsStay(s', later, key);
    RunKeepsInv(s', later);
  }

  lemma NextKeepsMutation(s: System, step: Step, key: MutationKey)
    requires key in s.tables.mutations
    ensures var m := Next(s, step).tables.mutations; key in m && m[key] == s.tables.mutations[key]
  {
    if step.Recover? {
      RecoverKeepsMutations(s.tables, SelectStale(s.tables, step.candidates));
    }
  }

  lemma {:induction false} MutationsStay(s: System, steps: seq<Step>, key: MutationKey)
    requires key in s.tables.mutations
    ensures var m := Run(s, steps).tables.mutations; key in m && m[key] == s.tables.mutations[key]
    decreases |steps|
  {
    if steps != [] {
      MutationsStay(s, steps[..|steps| - 1], key);
      NextKeepsMutation(Run(s, steps[..|steps| - 1]), steps[|steps| - 1], key);
    }
  }

  lemma {:induction false} RecoverKeepsMutations(t: Tables, rows: seq<(DocumentId, nat)>)
    ensures RecoverTx(t, rows).mutations == t.mutations
    decreases |rows|
  {
    if rows != [] {
      RecoverKeepsMutations(t, rows[..|rows| - 1]);
    }
  }
}
