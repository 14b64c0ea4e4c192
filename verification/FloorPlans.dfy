/** Floor-plan versions of one location: a single draft after a history of published versions that never change. */
module FloorPlans {
  import opened Wrappers
  import opened FloorPlanDocument

  type VersionId(==, !new, 0) = nat

  datatype Version = Version(id: VersionId, number: nat, revision: nat, published: bool, document: Value)

  /** The plan row and its version rows, in order of insertion. */
  datatype Plan = Plan(initialized: bool, rows: seq<Version>, publishedId: Option<VersionId>)

  datatype PlanError = InvalidDocument | TableNotFound | RevisionConflict | PlanNotFound | DraftNotFound | KeyViolated

  function MaxNumber(rows: seq<Version>): nat {
    if rows == [] then 0 else
    var before, last := MaxNumber(rows[..|rows| - 1]), rows[|rows| - 1].number;
    if last > before then last else before
  }

  function FindDraft(rows: seq<Version>): (r: Option<nat>)
    ensures r.Some? ==> r.value < |rows| && !rows[r.value].published
    ensures r.None? ==> forall i :: 0 <= i < |rows| ==> rows[i].published
  {
    if rows == [] then None
    else if !rows[|rows| - 1].published then Some(|rows| - 1) else FindDraft(rows[..|rows| - 1])
  }

  predicate IdFree(rows: seq<Version>, id: VersionId) {
    forall i :: 0 <= i < |rows| ==> rows[i].id != id
  }

  /** The key of the first draft does not collide, if one has to be inserted. */
  predicate CanEnsure(p: Plan, id: VersionId) {
    FindDraft(p.rows).Some? || IdFree(p.rows, id)
  }

  /** `ensureFloorPlan`; a key collision aborts it. */
  function EnsureTx(p: Plan, id: VersionId): Plan {
    if !CanEnsure(p, id) then p
    else if FindDraft(p.rows).Some? then p.(initialized := true)
    else p.(initialized := true, rows := p.rows + [Version(id, MaxNumber(p.rows) + 1, 1, false, Encode(EMPTY))])
  }

  /** The draft update of a save: every draft row at the expected revision. */
  function Saved(rows: seq<Version>, revision: nat, document: Value): seq<Version> {
    seq(|rows|, i requires 0 <= i < |rows| =>
      if !rows[i].published && rows[i].revision == revision
      then rows[i].(document := document, revision := revision + 1) else rows[i])
  }

  /** Validation and the reference check, giving the document as it is stored. */
  function Checked(v: Value, active: set<string>): Result<Value, PlanError> {
    var document := Validate(v);
    if document.Err? then Err(InvalidDocument)
    else if !ReferencesOk(document.value, active) then Err(TableNotFound)
    else Ok(Encode(document.value))
  }

  function StoreDraft(p: Plan, revision: nat, document: Value): (Plan, Option<PlanError>) {
    if !(exists i :: 0 <= i < |p.rows| && !p.rows[i].published && p.rows[i].revision == revision)
    then (p, Some(RevisionConflict))
    else (p.(rows := Saved(p.rows, revision, document)), None)
  }

  function SaveTx(p: Plan, revision: nat, v: Value, active: set<string>): (Plan, Option<PlanError>) {
    var checked := Checked(v, active);
    if checked.Err? then (p, Some(checked.error)) else StoreDraft(p, revision, checked.value)
  }

  function MarkPublished(rows: seq<Version>, id: VersionId): seq<Version> {
    seq(|rows|, i requires 0 <= i < |rows| => if rows[i].id == id then rows[i].(published := true) else rows[i])
  }

  /** The writes of a publication: the draft frozen, the published version set, the next draft inserted. */
  function Freeze(p: Plan, draft: Version, document: Value, id: VersionId): (Plan, Option<PlanError>) {
    if !IdFree(p.rows, id) then (p, Some(KeyViolated))
    else
      (p.(rows := MarkPublished(p.rows, draft.id) + [Version(id, draft.number + 1, 1, false, document)],
          publishedId := Some(draft.id)), None)
  }

  function PublishTx(p: Plan, revision: nat, active: set<string>, id: VersionId): (Plan, Option<PlanError>) {
    if !p.initialized then (p, Some(PlanNotFound))
    else if FindDraft(p.rows).None? then (p, Some(DraftNotFound))
    else
      var draft := p.rows[FindDraft(p.rows).value];
      if draft.revision != revision then (p, Some(RevisionConflict)) else
      var checked := Checked(draft.document, active);
      if checked.Err? then (p, Some(checked.error)) else Freeze(p, draft, checked.value, id)
  }

  // ---------------------------------------------------------------------------------------------
  // The calls: each initialises the plan in a transaction of its own first
  // ---------------------------------------------------------------------------------------------

  /** `saveDraftScoped`; `first` is the key of the draft should the plan have none yet. */
  function SaveCall(p: Plan, revision: nat, v: Value, active: set<string>, first: VersionId)
    : (Plan, Option<PlanError>)
  {
    var checked := Checked(v, active);
    if checked.Err? then (p, Some(checked.error))
    else if !CanEnsure(p, first) then (p, Some(KeyViolated))
    else StoreDraft(EnsureTx(p, first), revision, checked.value)
  }

  /** `publishScoped`; `id` is the key of the next draft. */
  function PublishCall(p: Plan, revision: nat, active: set<string>, first: VersionId, id: VersionId)
    : (Plan, Option<PlanError>)
  {
    if !CanEnsure(p, first) then (p, Some(KeyViolated)) else PublishTx(EnsureTx(p, first), revision, active, id)
  }

  datatype Step =
    | Ensure(id: VersionId)
    | Save(revision: nat, document: Value, active: set<string>)
    | Publish(revision: nat, active: set<string>, id: VersionId)

  function Next(p: Plan, step: Step): Plan {
    match step
    case Ensure(id) => EnsureTx(p, id)
    case Save(revision, document, active) => SaveTx(p, revision, document, active).0
    case Publish(revision, active, id) => PublishTx(p, revision, active, id).0
  }

  function Run(p: Plan, steps: seq<Step>): Plan {
    if steps == [] then p else Next(Run(p, steps[..|steps| - 1]), steps[|steps| - 1])
  }

  const NOTHING := Plan(false, [], None)

  // ---------------------------------------------------------------------------------------------
  // The invariant
  // ---------------------------------------------------------------------------------------------

  /** Row i is version i + 1; every row but the last is published. */
  ghost predicate RowOk(v: Version, i: nat, n: nat) {
    v.number == i + 1 && v.revision >= 1 && v.published == (i < n - 1)
  }

  ghost predicate Shape(p: Plan) {
    && (forall i :: 0 <= i < |p.rows| ==> RowOk(p.rows[i], i, |p.rows|))
    && (forall i, j :: 0 <= i < j < |p.rows| ==> p.rows[i].id != p.rows[j].id)
    && (p.rows != [] ==> p.initialized)
    && p.publishedId == if |p.rows| <= 1 then None else Some(p.rows[|p.rows| - 2].id)
  }

  /** The stored document re-validates to itself. */
  ghost predicate Stable(v: Version) {
    Validate(v.document).Ok? && Encode(Validate(v.document).value) == v.document
  }

  ghost predicate AllStable(rows: seq<Version>) {
    forall v {:trigger Stable(v)} :: v in rows ==> Stable(v)
  }

  ghost predicate Inv(p: Plan) {
    Shape(p) && AllStable(p.rows)
  }

  lemma DraftIsLast(p: Plan)
    requires Shape(p)
    ensures FindDraft(p.rows) == if p.rows == [] then None else Some(|p.rows| - 1)
  {
    if p.rows != [] {
      assert RowOk(p.rows[|p.rows| - 1], |p.rows| - 1, |p.rows|);
    }
  }

  lemma CheckedIsStable(v: Value, active: set<string>, row: Version)
    requires Checked(v, active).Ok? && row.document == Checked(v, active).value
    ensures Stable(row)
  {
    ValidationIsIdempotent(v);
  }

  lemma EnsureKeepsInv(p: Plan, id: VersionId)
    requires Inv(p)
    ensures Inv(EnsureTx(p, id))
    ensures |EnsureTx(p, id).rows| >= |p.rows| && (EnsureTx(p, id).rows != [] || EnsureTx(p, id) == p)
  {
    DraftIsLast(p);
    if EnsureTx(p, id).rows != p.rows {
      DocumentRoundTrip(EMPTY);
      assert EnsureTx(p, id).rows == [Version(id, 1, 1, false, Encode(EMPTY))];
    }
  }

  lemma StoreKeepsShape(p: Plan, revision: nat, document: Value)
    requires Shape(p)
    ensures Shape(StoreDraft(p, revision, document).0)
    ensures |StoreDraft(p, revision, document).0.rows| == |p.rows|
    ensures forall v :: v in StoreDraft(p, revision, document).0.rows ==> v in p.rows || v.document == document
  {
    var p' := StoreDraft(p, revision, document).0;
    forall i | 0 <= i < |p'.rows|
      ensures RowOk(p'.rows[i], i, |p'.rows|) && p'.rows[i].id == p.rows[i].id
    {
      assert RowOk(p.rows[i], i, |p.rows|);
    }
  }

  lemma SaveKeepsInv(p: Plan, revision: nat, v: Value, active: set<string>)
    requires Inv(p)
    ensures Inv(SaveTx(p, revision, v, active).0)
  {
    var checked := Checked(v, active);
    if checked.Ok? {
      StoreKeepsShape(p, revision, checked.value);
      forall row | row in SaveTx(p, revision, v, active).0.rows
        ensures Stable(row)
      {
        if row !in p.rows {
          CheckedIsStable(v, active, row);
        }
      }
    }
  }

  /** What a publication writes: the draft frozen, a fresh draft with the given document behind it. */
  lemma FreezeEffect(p: Plan, document: Value, id: VersionId)
    requires Shape(p) && p.rows != []
    ensures var n, draft := |p.rows|, p.rows[|p.rows| - 1];
            var (p', error) := Freeze(p, draft, document, id);
            && (error.None? <==> IdFree(p.rows, id)) && (error.Some? ==> p' == p && error == Some(KeyViolated))
            && (error.None? ==>
                  && p'.rows == p.rows[..n - 1] + [draft.(published := true), Version(id, n + 1, 1, false, document)]
                  && p' == Plan(true, p'.rows, Some(draft.id)))
  {
    var n, draft := |p.rows|, p.rows[|p.rows| - 1];
    assert RowOk(draft, n - 1, n);
    assert MarkPublished(p.rows, draft.id) == p.rows[..n - 1] + [draft.(published := true)];
  }

  lemma FreezeKeepsShape(p: Plan, document: Value, id: VersionId)
    requires Shape(p) && p.rows != []
    ensures Shape(Freeze(p, p.rows[|p.rows| - 1], document, id).0)
  {
    var p' := Freeze(p, p.rows[|p.rows| - 1], document, id).0;
    FreezeEffect(p, document, id);
    if p' != p {
      forall i | 0 <= i < |p'.rows|
        ensures RowOk(p'.rows[i], i, |p'.rows|)
      {
        assert i < |p.rows| ==> RowOk(p.rows[i], i, |p.rows|);
      }
    }
  }

  /** A publication, its checks passed, is exactly those writes with the draft's own document. */
  lemma PublishIsFreeze(p: Plan, revision: nat, active: set<string>, id: VersionId)
    requires Inv(p) && p.rows != []
    ensures var draft := p.rows[|p.rows| - 1];
            && Stable(draft)
            && PublishTx(p, revision, active, id) ==
                 if draft.revision != revision then (p, Some(RevisionConflict))
                 else if !ReferencesOk(Validate(draft.document).value, active) then (p, Some(TableNotFound))
                 else Freeze(p, draft, draft.document, id)
  {
    DraftIsLast(p);
    assert Stable(p.rows[|p.rows| - 1]);
  }

  lemma PublishKeepsInv(p: Plan, revision: nat, active: set<string>, id: VersionId)
    requires Inv(p)
    ensures Inv(PublishTx(p, revision, active, id).0)
  {
    if p.rows == [] {
      DraftIsLast(p);
    } else {
      var draft := p.rows[|p.rows| - 1];
      PublishIsFreeze(p, revision, active, id);
      FreezeKeepsShape(p, draft.document, id);
      FreezeKeepsStable(p, id);
    }
  }

  lemma FreezeKeepsStable(p: Plan, id: VersionId)
    requires Inv(p) && p.rows != []
    ensures AllStable(Freeze(p, p.rows[|p.rows| - 1], p.rows[|p.rows| - 1].document, id).0.rows)
  {
    var draft := p.rows[|p.rows| - 1];
    FreezeEffect(p, draft.document, id);
    forall row | row in Freeze(p, draft, draft.document, id).0.rows
      ensures Stable(row)
    {
      assert Stable(draft);
      assert row in p.rows || row.document == draft.document;
      assert row in p.rows ==> Stable(row);
    }
  }

  lemma NextKeepsInv(p: Plan, step: Step)
    requires Inv(p)
    ensures Inv(Next(p, step))
  {
    match step
    case Ensure(id) => EnsureKeepsInv(p, id);
    case Save(revision, document, active) => SaveKeepsInv(p, revision, document, active);
    case Publish(revision, active, id) => PublishKeepsInv(p, revision, active, id);
  }

  lemma {:induction false} RunKeepsInv(p: Plan, steps: seq<Step>)
    requires Inv(p)
    ensures Inv(Run(p, steps))
  {
    if steps != [] {
      RunKeepsInv(p, steps[..|steps| - 1]);
      NextKeepsInv(Run(p, steps[..|steps| - 1]), steps[|steps| - 1]);
    }
  }

  // ---------------------------------------------------------------------------------------------
  // What holds in every run
  // ---------------------------------------------------------------------------------------------

  /** Published rows are the same row for ever, and rows are never removed. */
  ghost predicate Keeps(p: Plan, p': Plan) {
    && |p.rows| <= |p'.rows|
    && (forall i :: 0 <= i < |p.rows| && p.rows[i].published ==> p'.rows[i] == p.rows[i])
  }

  lemma FreezeKeepsPublished(p: Plan, document: Value, id: VersionId)
    requires Shape(p) && p.rows != []
    ensures Keeps(p, Freeze(p, p.rows[|p.rows| - 1], document, id).0)
  {
    FreezeEffect(p, document, id);
    assert RowOk(p.rows[|p.rows| - 1], |p.rows| - 1, |p.rows|);
  }

  lemma NextKeepsPublished(p: Plan, step: Step)
    requires Inv(p)
    ensures Keeps(p, Next(p, step))
  {
    if step.Publish? {
      DraftIsLast(p);
      if p.rows != [] {
        PublishIsFreeze(p, step.revision, step.active, step.id);
        FreezeKeepsPublished(p, p.rows[|p.rows| - 1].document, step.id);
      }
    }
  }

  /** A published version's row, document included, is never changed by any later step. */
  lemma {:induction false} PublishedIsForever(p: Plan, steps: seq<Step>)
    requires Inv(p)
    ensures Keeps(p, Run(p, steps))
  {
    if steps != [] {
      PublishedIsForever(p, steps[..|steps| - 1]);
      RunKeepsInv(p, steps[..|steps| - 1]);
      NextKeepsPublished(Run(p, steps[..|steps| - 1]), steps[|steps| - 1]);
    }
  }

  /** Versions 1..n, exactly the last one a draft, and the published version one before it. */
  ghost predicate OneDraft(p: Plan) {
    var n := |p.rows|;
    && n >= 1 && p.initialized
    && (forall i :: 0 <= i < n ==> p.rows[i].number == i + 1 && (p.rows[i].published <==> i < n - 1))
    && p.publishedId == if n == 1 then None else Some(p.rows[n - 2].id)
  }

  lemma ShapeGivesOneDraft(p: Plan)
    requires Shape(p) && p.rows != []
    ensures OneDraft(p)
  {
    forall i | 0 <= i < |p.rows|
      ensures p.rows[i].number == i + 1 && (p.rows[i].published <==> i < |p.rows| - 1)
    {
      assert RowOk(p.rows[i], i, |p.rows|);
    }
  }

  /** Once the plan is initialised there is exactly one draft, whatever came before and whatever follows. */
  lemma OneDraftAtTheEnd(before: seq<Step>, id: VersionId, after: seq<Step>)
    requires IdFree(Run(NOTHING, before).rows, id)
    ensures OneDraft(Run(EnsureTx(Run(NOTHING, before), id), after))
  {
    var start := Run(NOTHING, before);
    RunKeepsInv(NOTHING, before);
    EnsureKeepsInv(start, id);
    InitialisedHasRows(start, id);
    RunKeepsInv(EnsureTx(start, id), after);
    PublishedIsForever(EnsureTx(start, id), after);
    ShapeGivesOneDraft(Run(EnsureTx(start, id), after));
  }

  lemma InitialisedHasRows(p: Plan, id: VersionId)
    requires Shape(p) && IdFree(p.rows, id)
    ensures EnsureTx(p, id).rows != []
  {
    DraftIsLast(p);
  }

  /** Publishing never fails because of the draft's shape: exactly these conditions decide. */
  lemma PublishFailsExactly(p: Plan, revision: nat, active: set<string>, id: VersionId)
    requires Inv(p) && p.rows != []
    ensures var draft := p.rows[|p.rows| - 1];
            && Validate(draft.document).Ok?
            && PublishTx(p, revision, active, id).1 ==
                 if draft.revision != revision then Some(RevisionConflict)
                 else if !ReferencesOk(Validate(draft.document).value, active) then Some(TableNotFound)
                 else if !IdFree(p.rows, id) then Some(KeyViolated) else None
  {
    PublishIsFreeze(p, revision, active, id);
    FreezeEffect(p, p.rows[|p.rows| - 1].document, id);
  }

  lemma StoreTouchesDraft(p: Plan, revision: nat, document: Value)
    requires Shape(p)
    ensures StoreDraft(p, revision, document).1.None? <==> p.rows != [] && p.rows[|p.rows| - 1].revision == revision
    ensures StoreDraft(p, revision, document).1.None? ==>
              StoreDraft(p, revision, document).0.rows
              == p.rows[..|p.rows| - 1] + [p.rows[|p.rows| - 1].(document := document, revision := revision + 1)]
  {
    if p.rows != [] {
      assert RowOk(p.rows[|p.rows| - 1], |p.rows| - 1, |p.rows|);
    }
    forall i | 0 <= i < |p.rows| && !p.rows[i].published
      ensures i == |p.rows| - 1
    {
      assert RowOk(p.rows[i], i, |p.rows|);
    }
  }

  lemma StoredThenFrozen(p: Plan, revision: nat, document: Value, id: VersionId)
    requires Shape(p) && StoreDraft(p, revision, document).1.None? && IdFree(p.rows, id)
    ensures var saved, n := StoreDraft(p, revision, document).0, |p.rows|;
            && n > 0 && |saved.rows| == n && Shape(saved)
            && saved.rows[n - 1].revision == revision + 1 && saved.rows[n - 1].document == document
            && var (p', error) := Freeze(saved, saved.rows[n - 1], document, id);
               && error.None? && |p'.rows| == n + 1
               && p'.rows[n - 1].published && p'.rows[n - 1].document == document
               && p'.publishedId == Some(p'.rows[n - 1].id)
               && p'.rows[n] == Version(id, n + 1, 1, false, document)
  {
    var saved := StoreDraft(p, revision, document).0;
    StoreTouchesDraft(p, revision, document);
    StoreKeepsShape(p, revision, document);
    assert IdFree(saved.rows, id);
    FreezeEffect(saved, document, id);
  }

  /** What a successful save stored: the validated document, which passes the same checks again. */
  lemma SavedDocument(p: Plan, revision: nat, v: Value, active: set<string>)
    requires SaveTx(p, revision, v, active).1.None?
    ensures Validate(v).Ok?
    ensures var document := Encode(Validate(v).value);
            && Checked(document, active) == Ok(document)
            && SaveTx(p, revision, v, active) == StoreDraft(p, revision, document)
  {
    ValidationIsIdempotent(v);
  }

  /** Publishing a draft whose stored document passes its checks unchanged. */
  lemma PublishChecked(p: Plan, revision: nat, active: set<string>, id: VersionId)
    requires Shape(p) && p.rows != [] && p.rows[|p.rows| - 1].revision == revision
    requires Checked(p.rows[|p.rows| - 1].document, active) == Ok(p.rows[|p.rows| - 1].document)
    ensures PublishTx(p, revision, active, id) == Freeze(p, p.rows[|p.rows| - 1], p.rows[|p.rows| - 1].document, id)
  {
    DraftIsLast(p);
  }

  /** What was saved is what is published, and what the next draft starts from. */
  lemma SaveThenPublish(p: Plan, revision: nat, v: Value, active: set<string>, id: VersionId)
    requires Inv(p) && SaveTx(p, revision, v, active).1.None? && IdFree(p.rows, id)
    ensures Validate(v).Ok?
    ensures var n := |p.rows|;
            var (p', error) := PublishTx(SaveTx(p, revision, v, active).0, revision + 1, active, id);
            && n > 0 && error.None? && |p'.rows| == n + 1
            && p'.rows[n - 1].published && p'.rows[n - 1].document == Encode(Validate(v).value)
            && p'.publishedId == Some(p'.rows[n - 1].id)
            && p'.rows[n] == Version(id, n + 1, 1, false, Encode(Validate(v).value))
  {
    SavedDocument(p, revision, v, active);
    StoredThenFrozen(p, revision, Encode(Validate(v).value), id);
    PublishChecked(SaveTx(p, revision, v, active).0, revision + 1, active, id);
  }

  // ---------------------------------------------------------------------------------------------
  // The calls
  // ---------------------------------------------------------------------------------------------

  /** A call is a run of the steps: nothing beyond what the theorems over runs cover. */
  lemma CallsAreRuns(p: Plan, revision: nat, v: Value, active: set<string>, first: VersionId, id: VersionId)
    requires CanEnsure(p, first)
    ensures Checked(v, active).Ok? ==>
              SaveCall(p, revision, v, active, first).0 == Run(p, [Ensure(first), Save(revision, v, active)])
    ensures PublishCall(p, revision, active, first, id).0 == Run(p, [Ensure(first), Publish(revision, active, id)])
  {
    RunTwo(p, Ensure(first), Save(revision, v, active));
    RunTwo(p, Ensure(first), Publish(revision, active, id));
  }

  lemma RunTwo(p: Plan, one: Step, two: Step)
    ensures Run(p, [one, two]) == Next(Next(p, one), two)
  {
    assert [one, two][..1] == [one] && [one][..0] == [];
    assert Run(p, [one]) == Next(Run(p, []), one);
  }

  /** The revision a caller must carry: the draft's, or 1 on a plan that the call itself initialises. */
  function ExpectedRevision(p: Plan): nat {
    if p.rows == [] then 1 else p.rows[|p.rows| - 1].revision
  }

  lemma EnsuredRevision(p: Plan, first: VersionId)
    requires Inv(p) && CanEnsure(p, first)
    ensures Inv(EnsureTx(p, first)) && EnsureTx(p, first).rows != []
    ensures EnsureTx(p, first).rows[|EnsureTx(p, first).rows| - 1].revision == ExpectedRevision(p)
  {
    DraftIsLast(p);
    EnsureKeepsInv(p, first);
  }

  /** Exactly when a save call is accepted, initialised plan or not. */
  lemma SaveCallAcceptedExactly(p: Plan, revision: nat, v: Value, active: set<string>, first: VersionId)
    requires Inv(p)
    ensures SaveCall(p, revision, v, active, first).1.None? <==>
              Checked(v, active).Ok? && CanEnsure(p, first) && revision == ExpectedRevision(p)
  {
    if Checked(v, active).Ok? && CanEnsure(p, first) {
      EnsuredRevision(p, first);
      SaveAcceptedExactly(EnsureTx(p, first), revision, v, active);
    }
  }

  /** Storing a validated document is refused for the revision alone. */
  lemma StoreRefused(p: Plan, revision: nat, document: Value)
    requires Shape(p) && p.rows != []
    ensures var (p', error) := StoreDraft(p, revision, document);
            && (error == None <==> revision == p.rows[|p.rows| - 1].revision)
            && (error.Some? ==> error == Some(RevisionConflict) && p' == p)
  {
    StoreTouchesDraft(p, revision, document);
  }

  /** Which refusal a save call gets. */
  lemma SaveCallRefused(p: Plan, revision: nat, v: Value, active: set<string>, first: VersionId)
    requires Inv(p)
    ensures var (p', error) := SaveCall(p, revision, v, active, first);
            && (error == Some(InvalidDocument) <==> Validate(v).Err?)
            && (error == Some(TableNotFound) <==> Validate(v).Ok? && !ReferencesOk(Validate(v).value, active))
            && (error == Some(RevisionConflict) <==>
                  && Validate(v).Ok? && ReferencesOk(Validate(v).value, active) && CanEnsure(p, first)
                  && revision != ExpectedRevision(p))
            && (error in {Some(InvalidDocument), Some(TableNotFound), Some(KeyViolated)} ==> p' == p)
            && (error == Some(RevisionConflict) ==> p' == EnsureTx(p, first))
  {
    if Checked(v, active).Ok? && CanEnsure(p, first) {
      EnsuredRevision(p, first);
      StoreRefused(EnsureTx(p, first), revision, Checked(v, active).value);
    }
  }

  /** Exactly why a publish call fails, initialised plan or not. */
  lemma PublishCallFailsExactly(p: Plan, revision: nat, active: set<string>, first: VersionId, id: VersionId)
    requires Inv(p) && CanEnsure(p, first)
    ensures var rows := EnsureTx(p, first).rows;
            && rows != [] && Validate(rows[|rows| - 1].document).Ok?
            && PublishCall(p, revision, active, first, id).1 ==
                 if revision != ExpectedRevision(p) then Some(RevisionConflict)
                 else if !ReferencesOk(Validate(rows[|rows| - 1].document).value, active) then Some(TableNotFound)
                 else if !IdFree(rows, id) then Some(KeyViolated) else None
  {
    EnsuredRevision(p, first);
    PublishFailsExactly(EnsureTx(p, first), revision, active, id);
  }

  /** What the initialisation leaves: nothing new on a plan with rows, else a first draft with an empty canvas. */
  lemma EnsureIsRecorded(p: Plan, first: VersionId)
    requires Inv(p)
    ensures var p' := EnsureTx(p, first);
            if p.rows != [] then p' == p else
              && p'.initialized && |p'.rows| == 1 && p'.publishedId == p.publishedId
              && p'.rows[0] == Version(first, 1, 1, false, p'.rows[0].document)
              && Validate(p'.rows[0].document) == Ok(Document(1200.0, 800.0, 20.0, []))
  {
    DraftIsLast(p);
    DocumentRoundTrip(EMPTY);
  }

  /** The draft with another document, one revision further; no other row. */
  ghost predicate DraftStored(before: Plan, after: Plan, revision: nat, document: Value) {
    && after == before.(rows := after.rows) && before.rows != [] && |after.rows| == |before.rows|
    && var n := |before.rows| - 1;
       && after.rows[..n] == before.rows[..n] && before.rows[n].revision == revision
       && after.rows[n] == before.rows[n].(document := document, revision := revision + 1)
  }

  lemma StoreIsRecorded(p: Plan, revision: nat, document: Value)
    requires Shape(p) && StoreDraft(p, revision, document).1.None?
    ensures DraftStored(p, StoreDraft(p, revision, document).0, revision, document)
  {
    StoreTouchesDraft(p, revision, document);
  }

  /** What an accepted save call leaves: the draft with the document it was given, as validated, and nothing else. */
  lemma SaveIsRecorded(p: Plan, revision: nat, v: Value, active: set<string>, first: VersionId)
    requires Inv(p) && SaveCall(p, revision, v, active, first).1.None?
    ensures Validate(v).Ok? && ReferencesOk(Validate(v).value, active)
    ensures exists document | Validate(document) == Validate(v) ::
              DraftStored(EnsureTx(p, first), SaveCall(p, revision, v, active, first).0, revision, document)
  {
    EnsuredRevision(p, first);
    ValidationIsIdempotent(v);
    var document := Encode(Validate(v).value);
    StoreIsRecorded(EnsureTx(p, first), revision, document);
    assert Validate(document) == Validate(v);
  }

  // ---------------------------------------------------------------------------------------------
  // Concurrent editors
  // ---------------------------------------------------------------------------------------------

  ghost predicate NoPublish(steps: seq<Step>) {
    forall i :: 0 <= i < |steps| ==> !steps[i].Publish?
  }

  lemma DraftRevisionGrows(p: Plan, step: Step)
    requires Shape(p) && p.rows != [] && !step.Publish?
    ensures |Next(p, step).rows| == |p.rows|
    ensures Next(p, step).rows[|p.rows| - 1].revision >= p.rows[|p.rows| - 1].revision
  {
    DraftIsLast(p);
    if step.Save? && Checked(step.document, step.active).Ok? {
      StoreTouchesDraft(p, step.revision, Checked(step.document, step.active).value);
    }
  }

  lemma OneStepGrows(p: Plan, before: Plan, last: Step, after: Plan)
    requires Inv(before) && p.rows != [] && |before.rows| == |p.rows| && !last.Publish? && after == Next(before, last)
    requires before.rows[|p.rows| - 1].revision >= p.rows[|p.rows| - 1].revision
    ensures |after.rows| == |p.rows| && after.rows[|p.rows| - 1].revision >= p.rows[|p.rows| - 1].revision
  {
    DraftRevisionGrows(before, last);
  }

  lemma {:induction false} RevisionsGrow(p: Plan, steps: seq<Step>)
    requires Inv(p) && p.rows != [] && NoPublish(steps)
    ensures |Run(p, steps).rows| == |p.rows|
    ensures Run(p, steps).rows[|p.rows| - 1].revision >= p.rows[|p.rows| - 1].revision
  {
    if steps != [] {
      var prefix, last := steps[..|steps| - 1], steps[|steps| - 1];
      assert NoPublish(prefix) && !last.Publish?;
      RevisionsGrow(p, prefix);
      RunKeepsInv(p, prefix);
      OneStepGrows(p, Run(p, prefix), last, Run(p, steps));
    }
  }

  /** Exactly when a valid save is accepted: at the draft's current revision, whichever version that draft is. */
  lemma SaveAcceptedExactly(p: Plan, revision: nat, v: Value, active: set<string>)
    requires Inv(p)
    ensures SaveTx(p, revision, v, active).1.None? <==>
              p.rows != [] && p.rows[|p.rows| - 1].revision == revision && Checked(v, active).Ok?
  {
    if Checked(v, active).Ok? {
      StoreTouchesDraft(p, revision, Checked(v, active).value);
    }
  }

  /** Until the next publication, one revision is saved at most once: the second editor is refused. */
  lemma OneSavePerRevision(p: Plan, revision: nat, v: Value, w: Value, active: set<string>, active': set<string>,
                           steps: seq<Step>)
    requires Inv(p) && SaveTx(p, revision, v, active).1.None? && NoPublish(steps)
    ensures SaveTx(Run(SaveTx(p, revision, v, active).0, steps), revision, w, active').1.Some?
  {
    var saved := SaveTx(p, revision, v, active).0;
    StoreTouchesDraft(p, revision, Checked(v, active).value);
    SaveKeepsInv(p, revision, v, active);
    RevisionsGrow(saved, steps);
    RunKeepsInv(saved, steps);
    SaveAcceptedExactly(Run(saved, steps), revision, w, active');
  }

  /**
   * Publication starts revisions again at 1: right after it, whichever draft the editor had loaded, a valid save is
   * accepted exactly when it carries revision 1.
   */
  lemma EditorOfPreviousDraft(p: Plan, published: nat, carried: nat, v: Value, active: set<string>,
                              active': set<string>, id: VersionId)
    requires Inv(p) && PublishTx(p, published, active, id).1.None? && Checked(v, active').Ok?
    ensures SaveTx(PublishTx(p, published, active, id).0, carried, v, active').1.None? <==> carried == 1
  {
    DraftIsLast(p);
    PublishIsFreeze(p, published, active, id);
    FreezeEffect(p, p.rows[|p.rows| - 1].document, id);
    PublishKeepsInv(p, published, active, id);
    SaveAcceptedExactly(PublishTx(p, published, active, id).0, carried, v, active');
  }

  /** Two editors load the first draft; one publishes it, and the other's save lands in the second draft unnoticed. */
  function UnnoticedSave(d: Document): seq<Step> {
    [Ensure(1), Publish(1, {}, 2), Save(1, Encode(d), {})]
  }

  lemma UnnoticedSaveIsReached(d: Document)
    requires WellFormed(d) && d.elements == []
    ensures var p := Run(NOTHING, UnnoticedSave(d));
            && |p.rows| == 2 && p.rows[0] == Version(1, 1, 1, true, Encode(EMPTY))
            && p.rows[1] == Version(2, 2, 2, false, Encode(d))
  {
    var steps := UnnoticedSave(d);
    var p1 := Plan(true, [Version(1, 1, 1, false, Encode(EMPTY))], None);
    var p2 := PublishTx(p1, 1, {}, 2).0;
    assert steps[..3] == steps && steps[..2][..1] == [steps[0]] && [steps[0]][..0] == [];
    assert steps[..2] == [steps[0], steps[1]];
    assert Run(NOTHING, [steps[0]]) == Next(NOTHING, steps[0]) == p1;
    assert Run(NOTHING, steps[..2]) == Next(p1, steps[1]) == p2;
    assert Run(NOTHING, steps) == Next(p2, steps[2]);
    FirstPublication(p1, p2);
    DocumentRoundTrip(d);
    NoTablesNoReferences(d);
    assert Checked(Encode(d), {}) == Ok(Encode(d));
    assert !p2.rows[1].published && p2.rows[1].revision == 1;
  }

  lemma NoTablesNoReferences(d: Document)
    requires d.elements == []
    ensures ReferencesOk(d, {})
  {
    ReferencesExactly(d, {});
  }

  lemma FirstPublication(p1: Plan, p2: Plan)
    requires p1 == Plan(true, [Version(1, 1, 1, false, Encode(EMPTY))], None) && p2 == PublishTx(p1, 1, {}, 2).0
    ensures p2.rows == [Version(1, 1, 1, true, Encode(EMPTY)), Version(2, 2, 1, false, Encode(EMPTY))]
  {
    DocumentRoundTrip(EMPTY);
    assert Inv(p1);
    NoTablesNoReferences(EMPTY);
    PublishIsFreeze(p1, 1, {}, 2);
    FreezeEffect(p1, Encode(EMPTY), 2);
  }

  // ---------------------------------------------------------------------------------------------
  // The service
  // ---------------------------------------------------------------------------------------------

  class FloorPlansService {
    var initialized: bool
    var rows: seq<Version>
    var publishedId: Option<VersionId>

    ghost function State(): Plan
      reads this
    {
      Plan(initialized, rows, publishedId)
    }

    constructor ()
      ensures State() == NOTHING
    {
      initialized, rows, publishedId := false, [], None;
    }

    method EnsureFloorPlan(id: VersionId) returns (ok: bool)
      modifies this`initialized, this`rows
      ensures ok == CanEnsure(old(State()), id) && State() == EnsureTx(old(State()), id)
    {
      if FindDraft(rows).None? {
        if !IdFree(rows, id) {
          return false;
        }
        rows := rows + [Version(id, MaxNumber(rows) + 1, 1, false, Encode(EMPTY))];
      }
      initialized := true;
      ok := true;
    }

    method SaveDraft(revision: nat, v: Value, active: set<string>, first: VersionId)
      returns (error: Option<PlanError>)
      modifies this`initialized, this`rows
      ensures (State(), error) == SaveCall(old(State()), revision, v, active, first)
    {
      var document := ValidateFloorPlanDocument(v);
      if document.Err? {
        return Some(InvalidDocument);
      }
      if !ReferencesOk(document.value, active) {
        return Some(TableNotFound);
      }
      var ensured := EnsureFloorPlan(first);
      if !ensured {
        return Some(KeyViolated);
      }
      if !(exists i :: 0 <= i < |rows| && !rows[i].published && rows[i].revision == revision) {
        return Some(RevisionConflict);
      }
      rows := Saved(rows, revision, Encode(document.value));
      error := None;
    }

    method PublishDraft(revision: nat, active: set<string>, first: VersionId, id: VersionId)
      returns (error: Option<PlanError>)
      modifies this
      ensures (State(), error) == PublishCall(old(State()), revision, active, first, id)
    {
      var ensured := EnsureFloorPlan(first);
      if !ensured {
        return Some(KeyViolated);
      }
      error := PublishTransaction(revision, active, id);
    }

    method PublishTransaction(revision: nat, active: set<string>, id: VersionId) returns (error: Option<PlanError>)
      modifies this`rows, this`publishedId
      ensures (State(), error) == PublishTx(old(State()), revision, active, id)
    {
      if !initialized {
        return Some(PlanNotFound);
      }
      var found := FindDraft(rows);
      if found.None? {
        return Some(DraftNotFound);
      }
      var draft := rows[found.value];
      if draft.revision != revision {
        return Some(RevisionConflict);
      }
      var document := ValidateFloorPlanDocument(draft.document);
      if document.Err? {
        return Some(InvalidDocument);
      }
      if !ReferencesOk(document.value, active) {
        return Some(TableNotFound);
      }
      if !IdFree(rows, id) {
        return Some(KeyViolated);
      }
      rows := MarkPublished(rows, draft.id);
      publishedId := Some(draft.id);
      rows := rows + [Version(id, draft.number + 1, 1, false, Encode(document.value))];
      error := None;
    }
  }
}
