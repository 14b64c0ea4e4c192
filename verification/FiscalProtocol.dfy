/**
 * The fiscal document protocol as a whole: the API, redelivered queue jobs, several workers, worker crashes
 * and the recovery timer, interleaved in any order on the same rows.
 */
module FiscalProtocol {
  import opened Wrappers
  import opened FiscalPolicy
  import opened FiscalStore

  type WorkerId = nat

  /** The tables, the claims held in the memory of live workers, and the sales read by `void` callers. */
  datatype System = System(tables: Tables, flight: map<WorkerId, Claimed>, saleReads: set<SaleRead>)

  datatype Step =
    | Issue(input: IssueInput, newId: DocumentId)
    | RetryCall(key: MutationKey, expectedVersion: nat)
    | ReadSale(id: DocumentId)
    | VoidCall(sale: SaleRead, deviceId: DeviceId, mutationId: MutationId, version: nat, reason: string,
               newId: DocumentId)
    | Claim(worker: WorkerId, id: DocumentId)
    | Succeed(worker: WorkerId, result: ProviderResult)
    | Fail(worker: WorkerId, error: FiscalError)
    | Crash(worker: WorkerId)
    | Recover(candidates: seq<DocumentId>)

  const EMPTY := System(Tables(map[], map[], map[]), map[], {})

  /** One step; a step that is not enabled changes nothing. */
  function Next(s: System, step: Step): System {
    match step
    case Issue(input, newId) => s.(tables := IssueTx(s.tables, input, newId).0)
    case RetryCall(key, expectedVersion) => s.(tables := RetryTx(s.tables, key, expectedVersion).0)
    case ReadSale(id) =>
      if id in s.tables.documents && Voidable(s.tables.documents[id])
      then s.(saleReads := s.saleReads + {SaleRead(id, s.tables.documents[id])})
      else s
    case VoidCall(sale, deviceId, mutationId, version, reason, newId) =>
      if sale in s.saleReads
      then s.(tables := VoidTx(s.tables, sale, deviceId, mutationId, version, reason, newId).0)
      else s
    case Claim(worker, id) =>
      if worker in s.flight then s else
      var (tables, claimed) := ClaimTx(s.tables, id);
      if claimed.None? then s else System(tables, s.flight[worker := claimed.value], s.saleReads)
    case Succeed(worker, result) =>
      if worker in s.flight
      then System(SucceedTx(s.tables, s.flight[worker], result), s.flight - {worker}, s.saleReads)
      else s
    case Fail(worker, error) =>
      if worker in s.flight then
        var c := s.flight[worker];
        System(FailTx(s.tables, c, Decide(c, error)), s.flight - {worker}, s.saleReads)
      else s
    case Crash(worker) => s.(flight := s.flight - {worker})
    case Recover(candidates) => s.(tables := RecoverTx(s.tables, SelectStale(s.tables, candidates)))
  }

  function Run(s: System, steps: seq<Step>): System
    decreases |steps|
  {
    if steps == [] then s else Next(Run(s, steps[..|steps| - 1]), steps[|steps| - 1])
  }

  // ---------------------------------------------------------------------------------------------
  // The invariant
  // ---------------------------------------------------------------------------------------------

  type AttemptTable = map<(DocumentId, nat), Attempt>
  type MutationTable = map<MutationKey, Request>

  /** What the newest attempt says about the status. */
  ghost predicate NewestAgrees(d: Document, a: Attempt) {
    match d.status
    case Queued => EarlierOk(a)
    case Processing => a == Attempt(Started, false)
    case Issued => a == Attempt(Succeeded, true) && d.documentType == Sale
    case Voided => a == Attempt(Succeeded, true) && d.documentType == VoidSale
    case Cancelled => false
    case Failed(reason) => a == Attempt(Ended(reason), true)
  }

  ghost predicate EarlierOk(a: Attempt) {
    a == Attempt(Ended(Retry), true) || a == Attempt(Ended(Rejected), true)
  }

  /** The attempt rows of a document are numbered 1 to `attempts`, one each, and tell its status. */
  ghost predicate AttemptsOk(id: DocumentId, d: Document, attempts: AttemptTable) {
    && (forall k: nat :: (id, k) in attempts <==> 1 <= k <= d.attempts)
    && (d.attempts == 0 ==> d.status == Queued)
    && (d.attempts > 0 ==> NewestAgrees(d, attempts[(id, d.attempts)]))
    && (forall k: nat {:trigger EarlierOk(attempts[(id, k)])} :: 1 <= k < d.attempts ==> EarlierOk(attempts[(id, k)]))
  }

  /** The manual retries of a document that were accepted, one mutation row each. */
  ghost function RetryKeys(mutations: MutationTable, id: DocumentId): set<MutationKey> {
    set key | key in mutations && key.documentId == id && mutations[key] == RetryRequest
  }

  ghost function MaxOf(d: Document): nat {
    EffectiveMaxAttempts(d.provider, d.maxAttempts)
  }

  ghost predicate BoundOk(d: Document, retries: nat) {
    && d.maxAttempts == DEFAULT_MAX_ATTEMPTS
    && d.attempts <= MaxOf(d) + retries
    && (d.status == Failed(Retry) ==> d.attempts < MaxOf(d))
    && (d.status == Queued ==> d.attempts < MaxOf(d) + retries)
  }

  ghost predicate DocumentOk(id: DocumentId, d: Document, t: Tables) {
    AttemptsOk(id, d, t.attempts) && BoundOk(d, |RetryKeys(t.mutations, id)|)
  }

  ghost predicate DocumentsOk(t: Tables) {
    && (forall id {:trigger DocumentOk(id, t.documents[id], t)} ::
          id in t.documents ==> DocumentOk(id, t.documents[id], t))
    && (forall row: (DocumentId, nat) :: row in t.attempts ==> row.0 in t.documents)
    && (forall key :: key in t.mutations ==> key.documentId in t.documents)
  }

  /** A live claim points at the newest attempt of a document nobody else may execute. */
  ghost predicate LiveClaim(documents: map<DocumentId, Document>, c: Claimed) {
    && c.id in documents
    && var d := documents[c.id];
       && (d.status == Processing || (d.status == Failed(Unknown) && d.provider == AdeWeb))
       && c.attempts == d.attempts && c.maxAttempts == d.maxAttempts
       && c.provider == d.provider && c.documentType == d.documentType
  }

  ghost predicate ClaimsOk(s: System) {
    && (forall w {:trigger LiveClaim(s.tables.documents, s.flight[w])} ::
          w in s.flight ==> LiveClaim(s.tables.documents, s.flight[w]))
    && (forall v, w :: v in s.flight && w in s.flight && s.flight[v].id == s.flight[w].id ==> v == w)
  }

  /** A sale read for voiding is still that sale: issued, with the same provider and external identifier. */
  ghost predicate SaleReadOk(documents: map<DocumentId, Document>, sale: SaleRead) {
    && sale.id in documents
    && Voidable(sale.row)
    && Core(documents[sale.id]) == Core(sale.row)
  }

  /** A void points at an issued sale of the same order and provider. */
  ghost predicate VoidOk(documents: map<DocumentId, Document>, d: Document) {
    if d.documentType == Sale then d.parent.None? else
      && d.parent.Some? && d.parent.value in documents
      && var p := documents[d.parent.value];
         p.documentType == Sale && p.status == Issued && p.orderId == d.orderId && p.provider == d.provider
  }

  /** At most one document of each type for an order. */
  ghost predicate OnePerOrder(documents: map<DocumentId, Document>) {
    forall i, j :: (i in documents && j in documents && documents[i].orderId == documents[j].orderId
      && documents[i].documentType == documents[j].documentType) ==> i == j
  }

  ghost predicate LinksOk(documents: map<DocumentId, Document>, saleReads: set<SaleRead>) {
    && (forall sale {:trigger SaleReadOk(documents, sale)} :: sale in saleReads ==> SaleReadOk(documents, sale))
    && (forall id {:trigger VoidOk(documents, documents[id])} :: id in documents ==> VoidOk(documents, documents[id]))
    && OnePerOrder(documents)
  }

  ghost predicate Inv(s: System) {
    DocumentsOk(s.tables) && ClaimsOk(s) && LinksOk(s.tables.documents, s.saleReads)
  }

  // ---------------------------------------------------------------------------------------------
  // Changing one document
  // ---------------------------------------------------------------------------------------------

  /** The columns the invariant looks at. */
  ghost function Core(d: Document): Document {
    d.(externalStatus := None, errorCode := None, version := 0)
  }

  /** The columns nothing ever changes. */
  ghost predicate SameIdentity(d: Document, d': Document) {
    d'.orderId == d.orderId && d'.organizationId == d.organizationId && d'.documentType == d.documentType
    && d'.parent == d.parent && d'.provider == d.provider && d'.maxAttempts == d.maxAttempts
  }

  ghost predicate Touches(t: Tables, t': Tables, id: DocumentId) {
    && id in t.documents
    && t'.documents.Keys == t.documents.Keys
    && (forall i :: i in t.documents && i != id ==> Core(t'.documents[i]) == Core(t.documents[i]))
    && SameIdentity(t.documents[id], t'.documents[id])
    && (t.documents[id].status == Issued ==> Core(t'.documents[id]) == Core(t.documents[id]))
    && (forall row: (DocumentId, nat) :: row.0 != id ==> (row in t'.attempts <==> row in t.attempts))
    && (forall row: (DocumentId, nat) :: row.0 != id && row in t.attempts ==> t'.attempts[row] == t.attempts[row])
  }

  lemma TouchKeepsLinks(t: Tables, t': Tables, id: DocumentId, saleReads: set<SaleRead>)
    requires Touches(t, t', id) && LinksOk(t.documents, saleReads)
    ensures LinksOk(t'.documents, saleReads)
  {
    var ds, ds' := t.documents, t'.documents;
    assert forall i :: i in ds ==>
             SameIdentity(ds[i], ds'[i]) && (ds[i].status == Issued ==> Core(ds'[i]) == Core(ds[i])) by {
      forall i | i in ds
        ensures SameIdentity(ds[i], ds'[i]) && (ds[i].status == Issued ==> Core(ds'[i]) == Core(ds[i]))
      {
        if i != id {
          assert Core(ds'[i]) == Core(ds[i]);
        }
      }
    }
    forall sale | sale in saleReads
      ensures SaleReadOk(ds', sale)
    {
      assert SaleReadOk(ds, sale);
      assert ds[sale.id].status == Core(sale.row).status == Issued;
    }
    forall i | i in ds'
      ensures VoidOk(ds', ds'[i])
    {
      assert VoidOk(ds, ds[i]);
      assert SameIdentity(ds[i], ds'[i]);
      if ds[i].documentType == VoidSale {
        var p := ds[i].parent.value;
        assert Core(ds'[p]) == Core(ds[p]);
      }
    }
    forall i, j | i in ds' && j in ds' && ds'[i].orderId == ds'[j].orderId && ds'[i].documentType == ds'[j].documentType
      ensures i == j
    {
      assert SameIdentity(ds[i], ds'[i]) && SameIdentity(ds[j], ds'[j]);
    }
  }

  lemma OtherAttemptsOk(id: DocumentId, d: Document, d': Document, attempts: AttemptTable, attempts': AttemptTable)
    requires AttemptsOk(id, d, attempts) && Core(d') == Core(d)
    requires forall row: (DocumentId, nat) :: row.0 == id ==> (row in attempts' <==> row in attempts)
    requires forall row: (DocumentId, nat) :: row.0 == id && row in attempts ==> attempts'[row] == attempts[row]
    ensures AttemptsOk(id, d', attempts')
  {
    assert forall k: nat :: (id, k) in attempts' <==> (id, k) in attempts;
    assert forall k: nat :: (id, k) in attempts ==> attempts'[(id, k)] == attempts[(id, k)];
    assert d.status == Core(d).status == d'.status && d.attempts == Core(d).attempts == d'.attempts;
    assert d.documentType == Core(d).documentType == d'.documentType;
  }

  lemma TouchKeepsDocuments(t: Tables, t': Tables, id: DocumentId)
    requires Touches(t, t', id) && DocumentsOk(t)
    requires DocumentOk(id, t'.documents[id], t')
    requires forall i :: i != id ==> RetryKeys(t'.mutations, i) == RetryKeys(t.mutations, i)
    requires forall row: (DocumentId, nat) :: row in t'.attempts ==> row.0 in t'.documents
    requires forall key :: key in t'.mutations ==> key.documentId in t'.documents
    ensures DocumentsOk(t')
  {
    forall i | i in t'.documents
      ensures DocumentOk(i, t'.documents[i], t')
    {
      if i != id {
        assert DocumentOk(i, t.documents[i], t);
        OtherAttemptsOk(i, t.documents[i], t'.documents[i], t.attempts, t'.attempts);
        var d, d' := t.documents[i], t'.documents[i];
        assert Core(d') == Core(d);
        assert d.status == Core(d).status == d'.status && d.attempts == Core(d).attempts == d'.attempts;
        assert d.maxAttempts == Core(d).maxAttempts == d'.maxAttempts && d.provider == Core(d).provider == d'.provider;
      }
    }
  }

  lemma TouchKeepsClaims(s: System, s': System, id: DocumentId)
    requires Touches(s.tables, s'.tables, id) && ClaimsOk(s)
    requires forall w :: w in s'.flight ==>
               if w in s.flight && s.flight[w].id != id then s'.flight[w] == s.flight[w]
               else s'.flight[w].id == id && LiveClaim(s'.tables.documents, s'.flight[w])
    requires forall v, w :: v in s'.flight && w in s'.flight && s'.flight[v].id == id == s'.flight[w].id ==> v == w
    ensures ClaimsOk(s')
  {
    forall w | w in s'.flight
      ensures LiveClaim(s'.tables.documents, s'.flight[w])
    {
      if w in s.flight && s.flight[w].id != id {
        var i := s.flight[w].id;
        assert LiveClaim(s.tables.documents, s.flight[w]);
        var d, d' := s.tables.documents[i], s'.tables.documents[i];
        assert Core(d') == Core(d);
        assert d.status == Core(d).status == d'.status && d.attempts == Core(d).attempts == d'.attempts;
        assert d.documentType == Core(d).documentType == d'.documentType;
        assert d.maxAttempts == Core(d).maxAttempts == d'.maxAttempts && d.provider == Core(d).provider == d'.provider;
      }
    }
    forall v, w | v in s'.flight && w in s'.flight && s'.flight[v].id == s'.flight[w].id
      ensures v == w
    {
      if s'.flight[v].id != id {
        assert s'.flight[v] == s.flight[v] && s'.flight[w] == s.flight[w];
      }
    }
  }

  // ---------------------------------------------------------------------------------------------
  // Every step keeps the invariant
  // ---------------------------------------------------------------------------------------------

  /** A queued document with no attempt and no retry yet. */
  lemma AddingKeepsDocuments(t: Tables, t': Tables, newId: DocumentId, d: Document)
    requires DocumentsOk(t) && newId !in t.documents
    requires t' == t.(documents := t.documents[newId := d])
    requires d.status == Queued && d.attempts == 0 && d.maxAttempts == DEFAULT_MAX_ATTEMPTS
    ensures DocumentsOk(t')
  {
    forall i | i in t'.documents
      ensures DocumentOk(i, t'.documents[i], t')
    {
      if i != newId {
        assert DocumentOk(i, t.documents[i], t);
      }
    }
  }

  lemma AddingKeepsLinks(t: Tables, newId: DocumentId, d: Document, saleReads: set<SaleRead>)
    requires LinksOk(t.documents, saleReads) && newId !in t.documents && UniqueFor(t, d)
    requires VoidOk(t.documents, d)
    ensures LinksOk(t.documents[newId := d], saleReads)
  {
    var ds, ds' := t.documents, t.documents[newId := d];
    forall sale | sale in saleReads
      ensures SaleReadOk(ds', sale)
    {
      assert SaleReadOk(ds, sale);
    }
    forall i | i in ds'
      ensures VoidOk(ds', ds'[i])
    {
      if i != newId {
        assert VoidOk(ds, ds[i]);
      }
    }
  }

  lemma AddingKeepsInv(s: System, newId: DocumentId, d: Document)
    requires Inv(s) && newId !in s.tables.documents && UniqueFor(s.tables, d) && VoidOk(s.tables.documents, d)
    requires d.status == Queued && d.attempts == 0 && d.maxAttempts == DEFAULT_MAX_ATTEMPTS
    ensures Inv(s.(tables := s.tables.(documents := s.tables.documents[newId := d])))
  {
    var t := s.tables;
    AddingKeepsDocuments(t, t.(documents := t.documents[newId := d]), newId, d);
    AddingKeepsLinks(t, newId, d, s.saleReads);
    assert forall w :: w in s.flight ==> LiveClaim(t.documents, s.flight[w]);
  }

  lemma IssueKeepsInv(s: System, input: IssueInput, newId: DocumentId)
    requires Inv(s)
    ensures Inv(Next(s, Issue(input, newId)))
  {
    if IssueTx(s.tables, input, newId).1 == Ok(true) {
      AddingKeepsInv(s, newId, NewSale(input));
    }
  }

  lemma RetryKeysGrow(mutations: MutationTable, key: MutationKey, request: Request)
    requires key !in mutations
    ensures var mutations' := mutations[key := request];
            && (forall id :: id != key.documentId ==> RetryKeys(mutations', id) == RetryKeys(mutations, id))
            && |RetryKeys(mutations', key.documentId)| ==
               |RetryKeys(mutations, key.documentId)| + if request == RetryRequest then 1 else 0
  {
    forall id | id != key.documentId
      ensures RetryKeys(mutations[key := request], id) == RetryKeys(mutations, id)
    {
      OtherRetryKeys(mutations, key, request, id);
    }
    OwnRetryKeys(mutations, key, request);
  }

  lemma OtherRetryKeys(mutations: MutationTable, key: MutationKey, request: Request, id: DocumentId)
    requires key !in mutations && id != key.documentId
    ensures RetryKeys(mutations[key := request], id) == RetryKeys(mutations, id)
  {
  }

  lemma OwnRetryKeys(mutations: MutationTable, key: MutationKey, request: Request)
    requires key !in mutations
    ensures |RetryKeys(mutations[key := request], key.documentId)| ==
            |RetryKeys(mutations, key.documentId)| + if request == RetryRequest then 1 else 0
  {
    var before := RetryKeys(mutations, key.documentId);
    assert key !in before;
    assert RetryKeys(mutations[key := request], key.documentId)
           == before + if request == RetryRequest then {key} else {};
  }

  /** Nobody executes a document that is neither PROCESSING nor an ADE document marked UNKNOWN. */
  lemma NotInFlight(s: System, id: DocumentId)
    requires ClaimsOk(s) && id in s.tables.documents
    requires var d := s.tables.documents[id];
             d.status != Processing && !(d.status == Failed(Unknown) && d.provider == AdeWeb)
    ensures forall w :: w in s.flight ==> s.flight[w].id != id
  {
    forall w | w in s.flight
      ensures s.flight[w].id != id
    {
      assert LiveClaim(s.tables.documents, s.flight[w]);
    }
  }

  lemma RetryKeepsInv(s: System, key: MutationKey, expectedVersion: nat)
    requires Inv(s)
    ensures Inv(Next(s, RetryCall(key, expectedVersion)))
  {
    var s' := Next(s, RetryCall(key, expectedVersion));
    var t, t' := s.tables, s'.tables;
    if t' != t {
      var id := key.documentId;
      assert DocumentOk(id, t.documents[id], t);
      RetryKeysGrow(t.mutations, key, RetryRequest);
      NotInFlight(s, id);
      TouchKeepsDocuments(t, t', id);
      TouchKeepsLinks(t, t', id, s.saleReads);
      TouchKeepsClaims(s, s', id);
    }
  }

  lemma ReadKeepsInv(s: System, id: DocumentId)
    requires Inv(s)
    ensures Inv(Next(s, ReadSale(id)))
  {
    var s' := Next(s, ReadSale(id));
    assert forall sale :: sale in s'.saleReads && sale !in s.saleReads ==> SaleReadOk(s.tables.documents, sale);
    assert forall sale :: sale in s.saleReads ==> SaleReadOk(s.tables.documents, sale);
  }

  /** The parent's side of a void: a new version and a mutation row. */
  lemma BumpKeepsInv(s: System, key: MutationKey, request: Request)
    requires Inv(s) && key.documentId in s.tables.documents && key !in s.tables.mutations
    requires request != RetryRequest
    ensures var d := s.tables.documents[key.documentId];
            Inv(s.(tables := s.tables.(
              documents := s.tables.documents[key.documentId := d.(version := d.version + 1)],
              mutations := s.tables.mutations[key := request])))
  {
    var t, id := s.tables, key.documentId;
    var d := t.documents[id];
    var t' := t.(documents := t.documents[id := d.(version := d.version + 1)],
                 mutations := t.mutations[key := request]);
    BumpedDocumentOk(t, t', key, request);
    RetryKeysGrow(t.mutations, key, request);
    TouchKeepsDocuments(t, t', id);
    TouchKeepsLinks(t, t', id, s.saleReads);
    BumpKeepsClaims(s, t', id);
  }

  lemma BumpedDocumentOk(t: Tables, t': Tables, key: MutationKey, request: Request)
    requires DocumentsOk(t) && key.documentId in t.documents && key !in t.mutations && request != RetryRequest
    requires t' == t.(documents := t'.documents, mutations := t.mutations[key := request])
    requires key.documentId in t'.documents
    requires t'.documents[key.documentId]
             == t.documents[key.documentId].(version := t'.documents[key.documentId].version)
    ensures DocumentOk(key.documentId, t'.documents[key.documentId], t')
  {
    assert DocumentOk(key.documentId, t.documents[key.documentId], t);
    RetryKeysGrow(t.mutations, key, request);
  }

  lemma BumpKeepsClaims(s: System, t': Tables, id: DocumentId)
    requires ClaimsOk(s) && id in s.tables.documents
    requires t'.documents
             == s.tables.documents[id := s.tables.documents[id].(version := s.tables.documents[id].version + 1)]
    ensures ClaimsOk(s.(tables := t'))
  {
    forall w | w in s.flight
      ensures LiveClaim(t'.documents, s.flight[w])
    {
      assert LiveClaim(s.tables.documents, s.flight[w]);
    }
  }

  lemma ReadSaleAgrees(s: System, sale: SaleRead)
    requires Inv(s) && sale in s.saleReads
    ensures sale.id in s.tables.documents
    ensures var d := s.tables.documents[sale.id];
            d.status == Issued && d.documentType == Sale && d.orderId == sale.row.orderId
            && d.provider == sale.row.provider && d.externalId == sale.row.externalId
            && d.organizationId == sale.row.organizationId
  {
    assert SaleReadOk(s.tables.documents, sale);
    var d := s.tables.documents[sale.id];
    assert d.orderId == Core(d).orderId && d.provider == Core(d).provider && d.externalId == Core(d).externalId;
    assert d.status == Core(d).status && d.documentType == Core(d).documentType;
    assert d.organizationId == Core(d).organizationId;
  }

  lemma VoidKeepsInv(s: System, sale: SaleRead, deviceId: DeviceId, mutationId: MutationId, version: nat,
                     reason: string, newId: DocumentId)
    requires Inv(s)
    ensures Inv(Next(s, VoidCall(sale, deviceId, mutationId, version, reason, newId)))
  {
    if sale in s.saleReads && VoidTx(s.tables, sale, deviceId, mutationId, version, reason, newId).1 == Ok(true) {
      ReadSaleAgrees(s, sale);
      var added := NewVoid(sale, deviceId);
      AddingKeepsInv(s, newId, added);
      var mid := s.(tables := s.tables.(documents := s.tables.documents[newId := added]));
      BumpKeepsInv(mid, MutationKey(sale.id, deviceId, mutationId), VoidRequest(sale.id, reason));
    }
  }

  lemma ClaimedDocumentOk(t: Tables, id: DocumentId)
    requires DocumentsOk(t) && id in t.documents && Claimable(t.documents[id].status)
    ensures var t' := ClaimTx(t, id).0; DocumentOk(id, t'.documents[id], t')
  {
    var d := t.documents[id];
    var t' := ClaimTx(t, id).0;
    assert DocumentOk(id, d, t);
    forall k: nat | 1 <= k < t'.documents[id].attempts
      ensures EarlierOk(t'.attempts[(id, k)])
    {
      assert t'.attempts[(id, k)] == t.attempts[(id, k)];
      if k < d.attempts {
        assert EarlierOk(t.attempts[(id, k)]);
      }
    }
  }

  lemma ClaimKeepsInv(s: System, worker: WorkerId, id: DocumentId)
    requires Inv(s)
    ensures Inv(Next(s, Claim(worker, id)))
  {
    var s' := Next(s, Claim(worker, id));
    var t, t' := s.tables, s'.tables;
    if s' != s {
      NotInFlight(s, id);
      ClaimedDocumentOk(t, id);
      assert Touches(t, t', id);
      TouchKeepsDocuments(t, t', id);
      TouchKeepsLinks(t, t', id, s.saleReads);
      TouchKeepsClaims(s, s', id);
    }
  }

  lemma ReportKeepsDocument(t: Tables, t': Tables, c: Claimed, outcome: AttemptOutcome)
    requires DocumentsOk(t) && LiveClaim(t.documents, c)
    requires t'.attempts == FinishAttempt(t.attempts, c, outcome) && t'.mutations == t.mutations
    requires t'.documents.Keys == t.documents.Keys
    requires SameIdentity(t.documents[c.id], t'.documents[c.id])
    requires t'.documents[c.id].attempts == t.documents[c.id].attempts
    requires NewestAgrees(t'.documents[c.id], Attempt(outcome, true))
    requires t'.documents[c.id].status == Failed(Retry) ==> c.attempts < EffectiveMaxAttempts(c.provider, c.maxAttempts)
    requires t'.documents[c.id].status != Queued
    ensures DocumentOk(c.id, t'.documents[c.id], t')
  {
    var d := t.documents[c.id];
    assert DocumentOk(c.id, d, t);
    assert d.attempts > 0;
    assert (c.id, c.attempts) in t.attempts;
  }

  /** A success touches its document alone, apart from a mark on the sale behind a void. */
  lemma SucceedTouches(s: System, worker: WorkerId, result: ProviderResult)
    requires Inv(s) && worker in s.flight
    ensures var c, t, t' := s.flight[worker], s.tables, Next(s, Succeed(worker, result)).tables;
            LiveClaim(t.documents, c) && (c.id, c.attempts) in t.attempts && Touches(t, t', c.id)
  {
    var c, t := s.flight[worker], s.tables;
    assert LiveClaim(t.documents, c) && DocumentOk(c.id, t.documents[c.id], t)
           && VoidOk(t.documents, t.documents[c.id]);
    assert c.documentType == VoidSale ==> t.documents[c.id].parent.value != c.id;
  }

  lemma SucceedKeepsInv(s: System, worker: WorkerId, result: ProviderResult)
    requires Inv(s)
    ensures Inv(Next(s, Succeed(worker, result)))
  {
    var s' := Next(s, Succeed(worker, result));
    var t, t' := s.tables, s'.tables;
    if worker in s.flight {
      var c := s.flight[worker];
      SucceedTouches(s, worker, result);
      assert VoidOk(t.documents, t.documents[c.id]);
      ReportKeepsDocument(t, t', c, Succeeded);
      TouchKeepsDocuments(t, t', c.id);
      TouchKeepsLinks(t, t', c.id, s.saleReads);
      TouchKeepsClaims(s, s', c.id);
    }
  }

  lemma FailKeepsInv(s: System, worker: WorkerId, error: FiscalError)
    requires Inv(s)
    ensures Inv(Next(s, Fail(worker, error)))
  {
    var s' := Next(s, Fail(worker, error));
    var t, t' := s.tables, s'.tables;
    if worker in s.flight {
      var c := s.flight[worker];
      assert LiveClaim(t.documents, c) && DocumentOk(c.id, t.documents[c.id], t);
      assert (c.id, c.attempts) in t.attempts;
      RetryExactlyWhen(c.provider, c.attempts, c.maxAttempts, error);
      ReportKeepsDocument(t, t', c, Ended(Decide(c, error).status));
      assert Touches(t, t', c.id);
      TouchKeepsDocuments(t, t', c.id);
      TouchKeepsLinks(t, t', c.id, s.saleReads);
      TouchKeepsClaims(s, s', c.id);
    }
  }

  lemma CrashKeepsInv(s: System, worker: WorkerId)
    requires Inv(s)
    ensures Inv(Next(s, Crash(worker)))
  {
    assert s.tables == Next(s, Crash(worker)).tables;
  }

  lemma MarkUnknownKeepsInv(s: System, id: DocumentId, attemptNo: nat)
    requires Inv(s)
    requires id in s.tables.documents && s.tables.documents[id].provider == AdeWeb
    requires s.tables.documents[id].attempts == attemptNo
    ensures Inv(s.(tables := MarkUnknownTx(s.tables, id, attemptNo)))
  {
    var t := s.tables;
    var t' := MarkUnknownTx(t, id, attemptNo);
    var s' := s.(tables := t');
    var d := t.documents[id];
    assert DocumentOk(id, d, t);
    if d.status == Processing {
      assert (id, attemptNo) in t.attempts && t.attempts[(id, attemptNo)] == Attempt(Started, false);
      assert DocumentOk(id, t'.documents[id], t');
      assert forall w :: w in s.flight && s.flight[w].id == id ==> LiveClaim(t.documents, s.flight[w]);
      TouchKeepsDocuments(t, t', id);
      TouchKeepsLinks(t, t', id, s.saleReads);
      TouchKeepsClaims(s, s', id);
    } else {
      assert (id, attemptNo) in t.attempts ==> t.attempts[(id, attemptNo)].finished;
      assert t' == t;
    }
  }

  /** The columns recovery leaves alone. */
  ghost predicate RecoveredRow(d: Document, d': Document) {
    d' == d.(status := d'.status, errorCode := d'.errorCode, version := d'.version)
  }

  predicate Selected(rows: seq<(DocumentId, nat)>, id: DocumentId) {
    exists i :: 0 <= i < |rows| && rows[i].0 == id
  }

  ghost predicate SelectionOk(t: Tables, rows: seq<(DocumentId, nat)>) {
    forall i :: 0 <= i < |rows| ==> Stale(t, rows[i].0) && rows[i].1 == t.documents[rows[i].0].attempts
  }

  /** A row ends UNKNOWN exactly when it was selected; the rest of every row stays. */
  ghost predicate RecoverEffect(ds: map<DocumentId, Document>, ds': map<DocumentId, Document>,
                                rows: seq<(DocumentId, nat)>)
  {
    && ds'.Keys == ds.Keys
    && (forall id {:trigger RecoveredRow(ds[id], ds'[id])} :: id in ds ==> RecoveredRow(ds[id], ds'[id]))
    && (forall id {:trigger Selected(rows, id)} ::
          id in ds ==> ds'[id].status == if Selected(rows, id) then Failed(Unknown) else ds[id].status)
  }

  lemma MarkUnknownEffect(ds: map<DocumentId, Document>, t: Tables, rows: seq<(DocumentId, nat)>)
    requires rows != [] && RecoverEffect(ds, t.documents, rows[..|rows| - 1])
    requires var last := rows[|rows| - 1].0; last in ds && ds[last].status == Processing
    ensures RecoverEffect(ds, MarkUnknownTx(t, rows[|rows| - 1].0, rows[|rows| - 1].1).documents, rows)
  {
    var n := |rows| - 1;
    var front, last := rows[..n], rows[n].0;
    var ds' := MarkUnknownTx(t, last, rows[n].1).documents;
    forall id | id in ds
      ensures RecoveredRow(ds[id], ds'[id])
      ensures ds'[id].status == if Selected(rows, id) then Failed(Unknown) else ds[id].status
    {
      assert RecoveredRow(ds[id], t.documents[id]);
      assert Selected(rows, id) <==> Selected(front, id) || id == last by {
        assert forall i :: 0 <= i < n ==> front[i] == rows[i];
      }
    }
  }

  lemma {:induction false} RecoverKeepsInv(s: System, rows: seq<(DocumentId, nat)>)
    requires Inv(s) && SelectionOk(s.tables, rows)
    ensures Inv(s.(tables := RecoverTx(s.tables, rows)))
    ensures RecoverEffect(s.tables.documents, RecoverTx(s.tables, rows).documents, rows)
    decreases |rows|
  {
    if rows == [] {
      assert s.(tables := RecoverTx(s.tables, rows)) == s;
    } else {
      var n := |rows| - 1;
      assert forall i :: 0 <= i < n ==> rows[..n][i] == rows[i];
      RecoverKeepsInv(s, rows[..n]);
      var mid := s.(tables := RecoverTx(s.tables, rows[..n]));
      assert Stale(s.tables, rows[n].0);
      assert RecoveredRow(s.tables.documents[rows[n].0], mid.tables.documents[rows[n].0]);
      MarkUnknownEffect(s.tables.documents, mid.tables, rows);
      MarkUnknownKeepsInv(mid, rows[n].0, rows[n].1);
      assert s.(tables := RecoverTx(s.tables, rows)) == mid.(tables := MarkUnknownTx(mid.tables, rows[n].0, rows[n].1));
    }
  }

  lemma SelectedConcat(a: seq<(DocumentId, nat)>, b: seq<(DocumentId, nat)>, id: DocumentId)
    ensures Selected(a + b, id) <==> Selected(a, id) || Selected(b, id)
  {
    var rows := a + b;
    if i :| 0 <= i < |a| && a[i].0 == id {
      assert rows[i].0 == id;
    } else if i :| 0 <= i < |b| && b[i].0 == id {
      assert rows[|a| + i].0 == id;
    }
  }

  lemma {:induction false} SelectedAreStale(t: Tables, candidates: seq<DocumentId>)
    ensures SelectionOk(t, SelectStale(t, candidates))
    ensures forall id :: Selected(SelectStale(t, candidates), id) <==> id in candidates && Stale(t, id)
    decreases |candidates|
  {
    if candidates != [] {
      var first, rest := candidates[0], SelectStale(t, candidates[1..]);
      var chosen := if Stale(t, first) then [(first, t.documents[first].attempts)] else [];
      SelectedAreStale(t, candidates[1..]);
      forall id
        ensures Selected(chosen + rest, id) <==> id in candidates && Stale(t, id)
      {
        SelectedConcat(chosen, rest, id);
        assert id in candidates <==> id == first || id in candidates[1..];
        assert Stale(t, first) ==> chosen[0].0 == first;
      }
    }
  }

  /** One recovery turns exactly the stale ADE candidates to UNKNOWN and leaves every other status alone. */
  lemma RecoverMeaning(s: System, candidates: seq<DocumentId>)
    requires Inv(s)
    ensures Inv(Next(s, Recover(candidates)))
    ensures var ds, ds' := s.tables.documents, Next(s, Recover(candidates)).tables.documents;
            && ds'.Keys == ds.Keys
            && (forall id :: id in ds ==> RecoveredRow(ds[id], ds'[id]))
            && (forall id :: id in ds ==>
                  ds'[id].status == if id in candidates && Stale(s.tables, id) then Failed(Unknown) else ds[id].status)
  {
    SelectedAreStale(s.tables, candidates);
    RecoverKeepsInv(s, SelectStale(s.tables, candidates));
  }

  lemma NextKeepsInv(s: System, step: Step)
    requires Inv(s)
    ensures Inv(Next(s, step))
  {
    match step
    case Issue(input, newId) => IssueKeepsInv(s, input, newId);
    case RetryCall(key, expectedVersion) => RetryKeepsInv(s, key, expectedVersion);
    case ReadSale(id) => ReadKeepsInv(s, id);
    case VoidCall(sale, deviceId, mutationId, version, reason, newId) =>
      VoidKeepsInv(s, sale, deviceId, mutationId, version, reason, newId);
    case Claim(worker, id) => ClaimKeepsInv(s, worker, id);
    case Succeed(worker, result) => SucceedKeepsInv(s, worker, result);
    case Fail(worker, error) => FailKeepsInv(s, worker, error);
    case Crash(worker) => CrashKeepsInv(s, worker);
    case Recover(candidates) => RecoverMeaning(s, candidates);
  }

  lemma {:induction false} RunKeepsInv(s: System, steps: seq<Step>)
    requires Inv(s)
    ensures Inv(Run(s, steps))
    decreases |steps|
  {
    if steps != [] {
      RunKeepsInv(s, steps[..|steps| - 1]);
      NextKeepsInv(Run(s, steps[..|steps| - 1]), steps[|steps| - 1]);
    }
  }
}
