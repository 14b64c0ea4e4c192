/**
 * What each fiscal step writes, column by column, and exactly when an API call is accepted: stated on the rows before
 * and after, with the numbers and codes spelled out.
 */
module FiscalEffects {
  import opened Wrappers
  import opened FiscalPolicy
  import opened FiscalStore
  import opened FiscalProtocol
  import opened FiscalSafety

  /** Only the given documents differ. */
  ghost predicate OnlyDocuments(t: Tables, t': Tables, ids: set<DocumentId>) {
    forall i :: i !in ids ==> (i in t.documents <==> i in t'.documents)
                              && (i in t.documents ==> t'.documents[i] == t.documents[i])
  }

  // ---------------------------------------------------------------------------------------------
  // The worker
  // ---------------------------------------------------------------------------------------------

  /** A free worker takes a document that is QUEUED or in RETRY, and nothing else. */
  lemma ClaimIsRecorded(s: System, w: WorkerId, id: DocumentId)
    ensures var s' := Next(s, Claim(w, id));
            var claimed := w !in s.flight && id in s.tables.documents
                           && s.tables.documents[id].status in {Queued, Failed(Retry)};
            if !claimed then s' == s else
              var d := s.tables.documents[id];
              && OnlyDocuments(s.tables, s'.tables, {id})
              && id in s'.tables.documents
              && s'.tables.documents[id] == d.(status := Processing, attempts := d.attempts + 1)
              && s'.tables.attempts == s.tables.attempts[(id, d.attempts + 1) := Attempt(Started, false)]
              && s'.tables.mutations == s.tables.mutations && s'.saleReads == s.saleReads
              && s'.flight.Keys == s.flight.Keys + {w}
              && (forall v :: v in s.flight ==> s'.flight[v] == s.flight[v])
              && s'.flight[w].id == id && s'.flight[w].attempts == d.attempts + 1
              && s'.flight[w].documentType == d.documentType && s'.flight[w].provider == d.provider
              && s'.flight[w].externalId == d.externalId && s'.flight[w].maxAttempts == d.maxAttempts
  {
  }

  /** The document a worker reports on, and the report's effect apart from the documents. */
  ghost predicate Reports(s: System, s': System, w: WorkerId, outcome: AttemptOutcome)
    requires w in s.flight
  {
    var id := s.flight[w].id;
    && id in s.tables.documents && id in s'.tables.documents
    && s'.tables.attempts == s.tables.attempts[(id, s.tables.documents[id].attempts) := Attempt(outcome, true)]
    && s'.tables.mutations == s.tables.mutations && s'.saleReads == s.saleReads
    && s'.flight == s.flight - {w}
  }

  /**
   * A success: the row takes the identifier and the status of the answer, its error is cleared, and the sale behind a
   * void is marked voided at the provider.
   */
  lemma SuccessIsRecorded(s: System, w: WorkerId, result: ProviderResult)
    requires Inv(s) && w in s.flight
    ensures var s', id := Next(s, Succeed(w, result)), s.flight[w].id;
            && Reports(s, s', w, Succeeded)
            && var d, d' := s.tables.documents[id], s'.tables.documents[id];
               && d'.externalId == Some(result.externalId) && d'.externalStatus == Some(result.externalStatus)
               && d'.errorCode == None && d'.version == d.version + 1
               && d'.status == (if d.documentType == Sale then Issued else Voided)
               && d' == d.(externalId := d'.externalId, externalStatus := d'.externalStatus, errorCode := None,
                           version := d'.version, status := d'.status)
               && (d.documentType == Sale ==> OnlyDocuments(s.tables, s'.tables, {id}))
               && (d.documentType == VoidSale ==>
                     && d.parent.Some? && d.parent.value in s.tables.documents && d.parent.value != id
                     && OnlyDocuments(s.tables, s'.tables, {id, d.parent.value})
                     && d.parent.value in s'.tables.documents
                     && s'.tables.documents[d.parent.value]
                        == s.tables.documents[d.parent.value].(externalStatus := Some("voided")))
  {
    var c := s.flight[w];
    assert LiveClaim(s.tables.documents, c) && VoidOk(s.tables.documents, s.tables.documents[c.id]);
    assert DocumentOk(c.id, s.tables.documents[c.id], s.tables);
    assert (c.id, c.attempts) in s.tables.attempts;
  }

  /** How often a provider may be tried before a failure is final. */
  ghost function Tries(provider: Provider): nat {
    if provider == OpenapiSmartReceipts then 10 else 5
  }

  /** The status a failure leaves, its code, and the identifiers it brings. */
  ghost predicate FailureOf(d: Document, error: FiscalError, reason: FailureStatus, code: string, details: ErrorDetails)
  {
    match error
    case SafetyError(authRequired, given) =>
      reason == (if authRequired then AuthRequired else Unknown) && code == given.code && details == given
    case ProviderError(retryable, given) =>
      && reason == (if retryable && d.attempts < Tries(d.provider) then Retry else Rejected)
      && code == given.code && details == given
    case UnclassifiedError =>
      && details.externalId == None && details.externalStatus == None
      && if d.provider == AdeWeb then reason == Unknown && code == "ADE_WEB_UNKNOWN_RESULT"
         else && reason == (if d.attempts < Tries(d.provider) then Retry else Rejected)
              && code == "FISCAL_UNKNOWN_ERROR"
  }

  /** A failure: status and code as the error demands; identifiers only where the error brings one. */
  lemma FailureIsRecorded(s: System, w: WorkerId, error: FiscalError)
    requires Inv(s) && w in s.flight
    ensures s.flight[w].id in s.tables.documents && s.flight[w].id in Next(s, Fail(w, error)).tables.documents
    ensures exists reason, code,
            details | FailureOf(s.tables.documents[s.flight[w].id], error, reason, code, details) ::
              var s', id := Next(s, Fail(w, error)), s.flight[w].id;
              && Reports(s, s', w, Ended(reason)) && OnlyDocuments(s.tables, s'.tables, {id})
              && var d, d' := s.tables.documents[id], s'.tables.documents[id];
                 && d'.status == Failed(reason) && d'.errorCode == Some(code) && d'.version == d.version + 1
                 && d'.externalId == (if details.externalId.Some? then details.externalId else d.externalId)
                 && d'.externalStatus == (if details.externalStatus.Some? then details.externalStatus
                                          else d.externalStatus)
                 && d' == d.(status := d'.status, errorCode := d'.errorCode, version := d'.version,
                             externalId := d'.externalId, externalStatus := d'.externalStatus)
  {
    var c := s.flight[w];
    assert LiveClaim(s.tables.documents, c) && DocumentOk(c.id, s.tables.documents[c.id], s.tables);
    assert (c.id, c.attempts) in s.tables.attempts;
    var d, details :=
      s.tables.documents[c.id], if error.UnclassifiedError? then ErrorDetails("", None, None) else error.details;
    var d' := Next(s, Fail(w, error)).tables.documents[c.id];
    assert FailureOf(d, error, d'.status.reason, d'.errorCode.value, details);
  }

  /** A crash leaves every row as it was and frees the worker. */
  lemma CrashIsRecorded(s: System, w: WorkerId)
    ensures Next(s, Crash(w)) == s.(flight := s.flight - {w})
  {
  }

  // ---------------------------------------------------------------------------------------------
  // Recovery
  // ---------------------------------------------------------------------------------------------

  /** A recovered row and its newest attempt. */
  ghost predicate RowRecovered(t: Tables, t': Tables, id: DocumentId)
    requires id in t.documents
  {
    var d := t.documents[id];
    && id in t'.documents
    && t'.documents[id] == d.(status := Failed(Unknown), errorCode := Some("ADE_WEB_STALE_PROCESSING"),
                              version := d.version + 1)
    && (id, d.attempts) in t'.attempts && t'.attempts[(id, d.attempts)] == Attempt(Ended(Unknown), true)
  }

  /** The rows of one document, attempts included, are the same. */
  ghost predicate RowKept(t: Tables, t': Tables, id: DocumentId) {
    && (id in t.documents <==> id in t'.documents)
    && (id in t.documents ==> t'.documents[id] == t.documents[id])
    && (forall k: nat :: (id, k) in t.attempts <==> (id, k) in t'.attempts)
    && (forall k: nat :: (id, k) in t.attempts ==> t'.attempts[(id, k)] == t.attempts[(id, k)])
  }

  lemma {:induction false} RecoverRows(s: System, rows: seq<(DocumentId, nat)>, id: DocumentId)
    requires Inv(s) && SelectionOk(s.tables, rows)
    ensures var t' := RecoverTx(s.tables, rows);
            && t'.mutations == s.tables.mutations
            && (if Selected(rows, id) then id in s.tables.documents && RowRecovered(s.tables, t', id)
                else RowKept(s.tables, t', id))
    decreases |rows|
  {
    if rows != [] {
      var n := |rows| - 1;
      var front, last := rows[..n], rows[n];
      assert forall i :: 0 <= i < n ==> front[i] == rows[i];
      RecoverRows(s, front, id);
      assert Selected(rows, id) <==> Selected(front, id) || id == last.0;
      assert Stale(s.tables, last.0) && last.1 == s.tables.documents[last.0].attempts;
      assert DocumentOk(last.0, s.tables.documents[last.0], s.tables);
      assert (last.0, last.1) in s.tables.attempts;
      RecoverRows(s, front, last.0);
    }
  }

  /** Recovery: exactly the PROCESSING ADE candidates become UNKNOWN, code and attempt included; all else is kept. */
  lemma RecoveryIsRecorded(s: System, candidates: seq<DocumentId>, id: DocumentId)
    requires Inv(s)
    ensures var s' := Next(s, Recover(candidates));
            && s'.flight == s.flight && s'.saleReads == s.saleReads && s'.tables.mutations == s.tables.mutations
            && if id in candidates && id in s.tables.documents && s.tables.documents[id].provider == AdeWeb
                  && s.tables.documents[id].status == Processing
               then RowRecovered(s.tables, s'.tables, id)
               else RowKept(s.tables, s'.tables, id)
  {
    SelectedAreStale(s.tables, candidates);
    RecoverRows(s, SelectStale(s.tables, candidates), id);
  }

  // ---------------------------------------------------------------------------------------------
  // The API
  // ---------------------------------------------------------------------------------------------

  ghost predicate SameRequest(d: Document, input: IssueInput) {
    d.organizationId == input.organizationId && d.deviceId == input.deviceId
    && d.clientRequestId == Some(input.clientRequestId)
  }

  ghost predicate RequestUsed(t: Tables, input: IssueInput) {
    exists i :: i in t.documents && SameRequest(t.documents[i], input)
  }

  /** The order has a sale in the caller's organization. */
  ghost predicate HasSale(t: Tables, input: IssueInput) {
    exists i :: i in t.documents && t.documents[i].organizationId == input.organizationId
      && t.documents[i].orderId == input.orderId && t.documents[i].documentType == Sale
  }

  /** Which other answer issuing gives, each exactly in its case. */
  lemma IssueAnswered(t: Tables, input: IssueInput, newId: DocumentId)
    ensures var result := IssueTx(t, input, newId).1;
            && (result == Ok(false) <==>
                  || (RequestUsed(t, input) && forall i :: i in t.documents && SameRequest(t.documents[i], input) ==>
                                                 t.documents[i].orderId == input.orderId)
                  || (!RequestUsed(t, input) && HasSale(t, input)))
            && (result == Err(ProfileNotEnabled) <==>
                  !RequestUsed(t, input) && !HasSale(t, input) && !input.profileEnabled)
            && (result.Err? ==> result.error in {ClientRequestReused, ProfileNotEnabled, UniqueViolation})
  {
    assert RequestUsed(t, input) <==> ExistsRequest(t, input);
    assert HasSale(t, input) <==> ExistsSale(t, input.organizationId, input.orderId);
  }

  /** Issuing: the new row exactly for an enabled profile, an unused request and an order without a sale. */
  lemma IssueIsRecorded(t: Tables, input: IssueInput, newId: DocumentId)
    ensures var (t', result) := IssueTx(t, input, newId);
            && (result == Ok(true) <==>
                  && input.profileEnabled && newId !in t.documents
                  && (forall i :: i in t.documents ==>
                        && !SameRequest(t.documents[i], input)
                        && !(t.documents[i].orderId == input.orderId && t.documents[i].documentType == Sale)))
            && (result == Err(ClientRequestReused) <==>
                  exists i :: i in t.documents && SameRequest(t.documents[i], input)
                    && t.documents[i].orderId != input.orderId)
            && (result != Ok(true) ==> t' == t)
            && (result == Ok(true) ==>
                  && OnlyDocuments(t, t', {newId}) && t'.attempts == t.attempts && t'.mutations == t.mutations
                  && newId in t'.documents
                  && var d := t'.documents[newId];
                     && d.organizationId == input.organizationId && d.orderId == input.orderId
                     && d.deviceId == input.deviceId && d.clientRequestId == Some(input.clientRequestId)
                     && d.provider == input.provider && d.documentType == Sale && d.status == Queued
                     && d.parent == None && d.externalId == None && d.externalStatus == None && d.errorCode == None
                     && d.attempts == 0 && d.maxAttempts == 5 && d.version == 1)
  {
  }

  /** A manual retry: exactly RETRY and REJECTED documents at the expected version, once per mutation id. */
  lemma RetryIsRecorded(t: Tables, key: MutationKey, expectedVersion: nat)
    ensures var (t', result) := RetryTx(t, key, expectedVersion);
            && (result == Ok(true) <==>
                  && key !in t.mutations && key.documentId in t.documents
                  && t.documents[key.documentId].version == expectedVersion
                  && t.documents[key.documentId].status in {Failed(Retry), Failed(Rejected)})
            && (result == Ok(false) <==>
                  key.documentId in t.documents && key in t.mutations && t.mutations[key] == RetryRequest)
            && (result == Err(VersionConflict) <==>
                  && key.documentId in t.documents && key !in t.mutations
                  && t.documents[key.documentId].version != expectedVersion)
            && (result == Err(DocumentNotFound) <==> key.documentId !in t.documents)
            && (result == Err(IdempotencyKeyReused) <==>
                  key.documentId in t.documents && key in t.mutations && t.mutations[key] != RetryRequest)
            && (result.Err? ==>
                  result.error in {VersionConflict, DocumentNotFound, IdempotencyKeyReused, RetryNotAllowed})
            && (result != Ok(true) ==> t' == t)
            && (result == Ok(true) ==>
                  && OnlyDocuments(t, t', {key.documentId}) && t'.attempts == t.attempts
                  && t'.mutations == t.mutations[key := RetryRequest]
                  && key.documentId in t'.documents
                  && var d := t.documents[key.documentId];
                     t'.documents[key.documentId] == d.(status := Queued, errorCode := None, version := d.version + 1))
  {
  }

  /** Voiding: a queued void beside the sale it names, the sale one version further, once per mutation id. */
  lemma VoidIsRecorded(t: Tables, sale: SaleRead, deviceId: DeviceId, mutationId: MutationId, expectedVersion: nat,
                       reason: string, newId: DocumentId)
    ensures var (t', result) := VoidTx(t, sale, deviceId, mutationId, expectedVersion, reason, newId);
            var key := MutationKey(sale.id, deviceId, mutationId);
            && (result == Ok(true) <==>
                  && sale.id in t.documents && key !in t.mutations && t.documents[sale.id].version == expectedVersion
                  && newId !in t.documents
                  && (forall i :: i in t.documents && t.documents[i].documentType == VoidSale ==>
                        t.documents[i].parent != Some(sale.id) && t.documents[i].orderId != sale.row.orderId))
            && (result == Err(DocumentNotFound) <==> sale.id !in t.documents)
            && (result == Err(IdempotencyKeyReused) <==>
                  sale.id in t.documents && key in t.mutations && t.mutations[key] != VoidRequest(sale.id, reason))
            && (result == Err(VersionConflict) <==>
                  sale.id in t.documents && key !in t.mutations && t.documents[sale.id].version != expectedVersion)
            && (result == Ok(false) <==>
                  && sale.id in t.documents
                  && if key in t.mutations then t.mutations[key] == VoidRequest(sale.id, reason)
                     else && t.documents[sale.id].version == expectedVersion
                          && exists i :: i in t.documents && t.documents[i].documentType == VoidSale
                               && t.documents[i].parent == Some(sale.id))
            && (result.Err? ==>
                  result.error in {DocumentNotFound, IdempotencyKeyReused, VersionConflict, UniqueViolation})
            && (result != Ok(true) ==> t' == t)
            && (result == Ok(true) ==>
                  && OnlyDocuments(t, t', {sale.id, newId}) && t'.attempts == t.attempts
                  && t'.mutations == t.mutations[key := VoidRequest(sale.id, reason)]
                  && sale.id in t'.documents && newId in t'.documents
                  && t'.documents[sale.id]
                     == t.documents[sale.id].(version := t.documents[sale.id].version + 1)
                  && var d := t'.documents[newId];
                     && d.parent == Some(sale.id) && d.documentType == VoidSale && d.status == Queued
                     && d.organizationId == sale.row.organizationId && d.orderId == sale.row.orderId
                     && d.provider == sale.row.provider && d.deviceId == deviceId && d.clientRequestId == None
                     && d.externalId == None && d.externalStatus == None && d.errorCode == None
                     && d.attempts == 0 && d.maxAttempts == 5 && d.version == 1)
  {
  }

  /** A void starts from an issued sale with a provider identifier, as it is read. */
  lemma ReadingIsRecorded(s: System, id: DocumentId)
    ensures var s' := Next(s, ReadSale(id));
            if id in s.tables.documents && s.tables.documents[id].documentType == Sale
               && s.tables.documents[id].status == Issued
               && s.tables.documents[id].externalId.Some? && |s.tables.documents[id].externalId.value| > 0
            then s' == s.(saleReads := s.saleReads + {SaleRead(id, s.tables.documents[id])})
            else s' == s
  {
  }
}
