/**
 * The fiscal tables and the transactions that change them: the worker's claim, success and failure,
 * the recovery of stale documents, and the API's issue, retry and void.
 * Each transaction is a function on the tables; the class performs it statement by statement.
 */
module FiscalStore {
  import opened Wrappers
  import opened FiscalPolicy

  type DocumentId(==, !new, 0) = nat
  type OrderId = nat
  type OrganizationId = nat
  type DeviceId = nat
  type MutationId = nat

  datatype DocumentType = Sale | VoidSale

  datatype DocumentStatus = Queued | Processing | Issued | Voided | Cancelled | Failed(reason: FailureStatus)

  /** What the request hash covers; the hash is taken to be injective. */
  datatype Request = RetryRequest | VoidRequest(parent: DocumentId, reason: string)

  datatype Document = Document(
    organizationId: OrganizationId,
    orderId: OrderId,
    parent: Option<DocumentId>,
    documentType: DocumentType,
    status: DocumentStatus,
    provider: Provider,
    externalId: Option<string>,
    externalStatus: Option<string>,
    errorCode: Option<string>,
    deviceId: DeviceId,
    clientRequestId: Option<nat>,
    attempts: nat,
    maxAttempts: nat,
    version: nat)

  datatype AttemptOutcome = Started | Succeeded | Ended(reason: FailureStatus)

  datatype Attempt = Attempt(outcome: AttemptOutcome, finished: bool)

  datatype MutationKey = MutationKey(documentId: DocumentId, deviceId: DeviceId, mutationId: MutationId)

  datatype Tables = Tables(
    documents: map<DocumentId, Document>,
    attempts: map<(DocumentId, nat), Attempt>,
    mutations: map<MutationKey, Request>)

  /** The row a worker keeps in memory from its claim until it reports back. */
  datatype Claimed = Claimed(
    id: DocumentId, documentType: DocumentType, provider: Provider, externalId: Option<string>,
    attempts: nat, maxAttempts: nat)

  datatype ProviderResult = ProviderResult(externalId: string, externalStatus: string)

  /**
   * What happens after the claim: the provider answers or throws; recording its answer throws (the transaction is
   * rolled back, and what it throws is a database error); recording the failure throws as well; the worker dies.
   */
  datatype ProviderOutcome =
    | Answered(result: ProviderResult) | Threw(error: FiscalError)
    | AnswerNotRecorded | FailureNotRecorded | Crashed

  /** What `execute` tells the queue; a rethrown error makes the queue deliver the job again. */
  datatype Execution = Skipped | Completed(status: DocumentStatus) | Stopped(reason: FailureStatus) | Rethrown | Died

  datatype ApiError =
    | DocumentNotFound | ClientRequestReused | ProfileNotEnabled | UniqueViolation
    | IdempotencyKeyReused | VersionConflict | RetryNotAllowed | VoidNotAllowed

  datatype MutationCheck = Fresh | Duplicate | Refused(error: ApiError)

  const DEFAULT_MAX_ATTEMPTS: nat := 5

  // ---------------------------------------------------------------------------------------------
  // Worker transactions
  // ---------------------------------------------------------------------------------------------

  predicate Claimable(status: DocumentStatus) {
    status == Queued || status == Failed(Retry)
  }

  function ClaimTx(t: Tables, id: DocumentId): (Tables, Option<Claimed>) {
    if id !in t.documents || !Claimable(t.documents[id].status) then (t, None) else
    var d := t.documents[id];
    var next := d.attempts + 1;
    (t.(documents := t.documents[id := d.(status := Processing, attempts := next)],
        attempts := t.attempts[(id, next) := Attempt(Started, false)]),
     Some(Claimed(id, d.documentType, d.provider, d.externalId, next, d.maxAttempts)))
  }

  function FinalStatus(documentType: DocumentType): DocumentStatus {
    if documentType == Sale then Issued else Voided
  }

  /** The row after `succeed`; the status is written whatever it was. */
  function SucceededDocument(d: Document, c: Claimed, result: ProviderResult): Document {
    d.(status := FinalStatus(c.documentType), externalId := Some(result.externalId),
       externalStatus := Some(result.externalStatus), errorCode := None, version := d.version + 1)
  }

  function MarkVoided(documents: map<DocumentId, Document>, c: Claimed): map<DocumentId, Document> {
    if c.documentType == VoidSale && c.id in documents && documents[c.id].parent.Some?
       && documents[c.id].parent.value in documents
    then
      var p := documents[c.id].parent.value;
      documents[p := documents[p].(externalStatus := Some("voided"))]
    else documents
  }

  function FinishAttempt(attempts: map<(DocumentId, nat), Attempt>, c: Claimed, outcome: AttemptOutcome)
    : map<(DocumentId, nat), Attempt>
  {
    if (c.id, c.attempts) in attempts then attempts[(c.id, c.attempts) := Attempt(outcome, true)] else attempts
  }

  function SucceedTx(t: Tables, c: Claimed, result: ProviderResult): Tables {
    var documents :=
      if c.id in t.documents then t.documents[c.id := SucceededDocument(t.documents[c.id], c, result)] else t.documents;
    t.(documents := MarkVoided(documents, c), attempts := FinishAttempt(t.attempts, c, Succeeded))
  }

  function Coalesce(first: Option<string>, second: Option<string>): Option<string> {
    if first.Some? then first else second
  }

  /** The row after `fail`; the status is written whatever it was. */
  function FailedDocument(d: Document, decision: Decision): Document {
    d.(status := Failed(decision.status), errorCode := Some(decision.details.code),
       externalId := Coalesce(decision.details.externalId, d.externalId),
       externalStatus := Coalesce(decision.details.externalStatus, d.externalStatus),
       version := d.version + 1)
  }

  function FailTx(t: Tables, c: Claimed, decision: Decision): Tables {
    t.(documents :=
         if c.id in t.documents then t.documents[c.id := FailedDocument(t.documents[c.id], decision)] else t.documents,
       attempts := FinishAttempt(t.attempts, c, Ended(decision.status)))
  }

  // ---------------------------------------------------------------------------------------------
  // Recovery of stale documents
  // ---------------------------------------------------------------------------------------------

  /** Rows the recovery query returns among the old, unlocked ones. */
  predicate Stale(t: Tables, id: DocumentId) {
    id in t.documents && t.documents[id].provider == AdeWeb && t.documents[id].status == Processing
  }

  function MarkUnknownTx(t: Tables, id: DocumentId, attemptNo: nat): Tables {
    t.(documents :=
         if id in t.documents && t.documents[id].status == Processing then
           t.documents[id := t.documents[id].(
             status := Failed(Unknown), errorCode := Some("ADE_WEB_STALE_PROCESSING"),
             version := t.documents[id].version + 1)]
         else t.documents,
       attempts :=
         if (id, attemptNo) in t.attempts && !t.attempts[(id, attemptNo)].finished then
           t.attempts[(id, attemptNo) := Attempt(Ended(Unknown), true)]
         else t.attempts)
  }

  /** The recovery of a list of locked rows, one after the other, each with the attempt number it was read with. */
  function RecoverTx(t: Tables, rows: seq<(DocumentId, nat)>): Tables
    decreases |rows|
  {
    if rows == [] then t else
    var before := RecoverTx(t, rows[..|rows| - 1]);
    MarkUnknownTx(before, rows[|rows| - 1].0, rows[|rows| - 1].1)
  }

  /** The rows selected for recovery, in the order of the candidates. */
  function SelectStale(t: Tables, candidates: seq<DocumentId>): seq<(DocumentId, nat)>
    decreases |candidates|
  {
    if candidates == [] then [] else
    var id := candidates[0];
    (if Stale(t, id) then [(id, t.documents[id].attempts)] else []) + SelectStale(t, candidates[1..])
  }

  // ---------------------------------------------------------------------------------------------
  // API transactions
  // ---------------------------------------------------------------------------------------------

  datatype IssueInput = IssueInput(
    organizationId: OrganizationId, deviceId: DeviceId, clientRequestId: nat, orderId: OrderId,
    profileEnabled: bool, provider: Provider)

  predicate ExistsRequest(t: Tables, input: IssueInput) {
    exists id :: id in t.documents && t.documents[id].organizationId == input.organizationId
      && t.documents[id].deviceId == input.deviceId && t.documents[id].clientRequestId == Some(input.clientRequestId)
  }

  predicate ExistsRequestForOtherOrder(t: Tables, input: IssueInput) {
    exists id :: id in t.documents && t.documents[id].organizationId == input.organizationId
      && t.documents[id].deviceId == input.deviceId && t.documents[id].clientRequestId == Some(input.clientRequestId)
      && t.documents[id].orderId != input.orderId
  }

  predicate ExistsSale(t: Tables, organizationId: OrganizationId, orderId: OrderId) {
    exists id :: id in t.documents && t.documents[id].organizationId == organizationId
      && t.documents[id].orderId == orderId && t.documents[id].documentType == Sale
  }

  predicate ExistsVoidOf(t: Tables, parent: DocumentId) {
    exists id :: id in t.documents && t.documents[id].parent == Some(parent) && t.documents[id].documentType == VoidSale
  }

  /** The unique indexes on (order, type), (parent, type) and (organization, device, client request). */
  predicate UniqueFor(t: Tables, d: Document) {
    forall id :: id in t.documents ==>
      && !(t.documents[id].orderId == d.orderId && t.documents[id].documentType == d.documentType)
      && !(d.parent.Some? && t.documents[id].parent == d.parent && t.documents[id].documentType == d.documentType)
      && !(d.clientRequestId.Some? && t.documents[id].organizationId == d.organizationId
           && t.documents[id].deviceId == d.deviceId && t.documents[id].clientRequestId == d.clientRequestId)
  }

  function NewSale(input: IssueInput): Document {
    Document(input.organizationId, input.orderId, None, Sale, Queued, input.provider, None, None, None,
             input.deviceId, Some(input.clientRequestId), 0, DEFAULT_MAX_ATTEMPTS, 1)
  }

  /** `issue`: Ok(true) inserted a new document, Ok(false) found the earlier one. */
  function IssueTx(t: Tables, input: IssueInput, newId: DocumentId): (Tables, Result<bool, ApiError>) {
    if ExistsRequest(t, input) then
      (t, if ExistsRequestForOtherOrder(t, input) then Err(ClientRequestReused) else Ok(false))
    else if ExistsSale(t, input.organizationId, input.orderId) then (t, Ok(false))
    else if !input.profileEnabled then (t, Err(ProfileNotEnabled))
    else if newId in t.documents || !UniqueFor(t, NewSale(input)) then (t, Err(UniqueViolation))
    else (t.(documents := t.documents[newId := NewSale(input)]), Ok(true))
  }

  function BeginMutation(t: Tables, d: Document, key: MutationKey, expectedVersion: nat, request: Request)
    : MutationCheck
  {
    if key in t.mutations then
      if t.mutations[key] != request then Refused(IdempotencyKeyReused) else Duplicate
    else if d.version != expectedVersion then Refused(VersionConflict)
    else Fresh
  }

  predicate Retryable(status: DocumentStatus) {
    status == Failed(Retry) || status == Failed(Rejected)
  }

  function RetryTx(t: Tables, key: MutationKey, expectedVersion: nat): (Tables, Result<bool, ApiError>) {
    var id := key.documentId;
    if id !in t.documents then (t, Err(DocumentNotFound)) else
    var d := t.documents[id];
    match BeginMutation(t, d, key, expectedVersion, RetryRequest)
    case Duplicate => (t, Ok(false))
    case Refused(error) => (t, Err(error))
    case Fresh =>
      if !Retryable(d.status) then (t, Err(RetryNotAllowed))
      else (t.(documents := t.documents[id := d.(status := Queued, errorCode := None, version := d.version + 1)],
               mutations := t.mutations[key := RetryRequest]), Ok(true))
  }

  /** The sale as `void` reads it before it opens its transaction. */
  datatype SaleRead = SaleRead(id: DocumentId, row: Document)

  predicate Voidable(d: Document) {
    d.documentType == Sale && d.status == Issued && d.externalId.Some? && d.externalId.value != ""
  }

  function NewVoid(sale: SaleRead, deviceId: DeviceId): Document {
    Document(sale.row.organizationId, sale.row.orderId, Some(sale.id), VoidSale, Queued, sale.row.provider,
             None, None, None, deviceId, None, 0, DEFAULT_MAX_ATTEMPTS, 1)
  }

  function VoidTx(t: Tables, sale: SaleRead, deviceId: DeviceId, mutationId: MutationId, expectedVersion: nat,
                  reason: string, newId: DocumentId)
    : (Tables, Result<bool, ApiError>)
  {
    if sale.id !in t.documents then (t, Err(DocumentNotFound)) else
    var d := t.documents[sale.id];
    var key := MutationKey(sale.id, deviceId, mutationId);
    var request := VoidRequest(sale.id, reason);
    match BeginMutation(t, d, key, expectedVersion, request)
    case Duplicate => (t, Ok(false))
    case Refused(error) => (t, Err(error))
    case Fresh =>
      if ExistsVoidOf(t, sale.id) then (t, Ok(false))
      else if newId in t.documents || !UniqueFor(t, NewVoid(sale, deviceId)) then (t, Err(UniqueViolation))
      else (t.(documents := t.documents[newId := NewVoid(sale, deviceId)][sale.id := d.(version := d.version + 1)],
               mutations := t.mutations[key := request]), Ok(true))
  }

  // ---------------------------------------------------------------------------------------------
  // The transactions as code
  // ---------------------------------------------------------------------------------------------

  /** What the claimed row's provider and attempts make of an error. */
  function Decide(c: Claimed, error: FiscalError): Decision {
    Classify(c.provider, c.attempts, c.maxAttempts, error)
  }

  /** What the queue is told about it. */
  function Reported(c: Claimed, error: FiscalError): Execution {
    if Decide(c, error).retryable then Rethrown else Stopped(Decide(c, error).status)
  }

  class FiscalDatabase {
    var documents: map<DocumentId, Document>
    var attempts: map<(DocumentId, nat), Attempt>
    var mutations: map<MutationKey, Request>
    var recoveryRunning: bool

    ghost function Rows(): Tables
      reads this
    {
      Tables(documents, attempts, mutations)
    }

    constructor ()
      ensures Rows() == Tables(map[], map[], map[]) && !recoveryRunning
    {
      documents, attempts, mutations, recoveryRunning := map[], map[], map[], false;
    }

    method Claim(id: DocumentId) returns (claimed: Option<Claimed>)
      modifies this`documents, this`attempts
      ensures (Rows(), claimed) == ClaimTx(old(Rows()), id)
    {
      if id !in documents || !Claimable(documents[id].status) {
        return None;
      }
      var document := documents[id];
      var nextAttempt := document.attempts + 1;
      documents := documents[id := document.(status := Processing, attempts := nextAttempt)];
      attempts := attempts[(id, nextAttempt) := Attempt(Started, false)];
      claimed := Some(Claimed(id, document.documentType, document.provider, document.externalId, nextAttempt,
                              document.maxAttempts));
    }

    method Succeed(c: Claimed, result: ProviderResult)
      modifies this`documents, this`attempts
      ensures Rows() == SucceedTx(old(Rows()), c, result)
    {
      if c.id in documents {
        documents := documents[c.id := SucceededDocument(documents[c.id], c, result)];
      }
      if (c.id, c.attempts) in attempts {
        attempts := attempts[(c.id, c.attempts) := Attempt(Succeeded, true)];
      }
      if c.documentType == VoidSale && c.id in documents && documents[c.id].parent.Some? {
        var parent := documents[c.id].parent.value;
        if parent in documents {
          documents := documents[parent := documents[parent].(externalStatus := Some("voided"))];
        }
      }
    }

    method Fail(c: Claimed, decision: Decision)
      modifies this`documents, this`attempts
      ensures Rows() == FailTx(old(Rows()), c, decision)
    {
      if c.id in documents {
        documents := documents[c.id := FailedDocument(documents[c.id], decision)];
      }
      if (c.id, c.attempts) in attempts {
        attempts := attempts[(c.id, c.attempts) := Attempt(Ended(decision.status), true)];
      }
    }

    /** One delivery of a queue job that nothing else interrupts. */
    method Execute(id: DocumentId, outcome: ProviderOutcome) returns (execution: Execution)
      modifies this`documents, this`attempts
      ensures var (claimedRows, claimed) := ClaimTx(old(Rows()), id);
              match claimed
              case None => execution == Skipped && Rows() == old(Rows())
              case Some(c) =>
                match outcome
                case Answered(result) =>
                  execution == Completed(FinalStatus(c.documentType)) && Rows() == SucceedTx(claimedRows, c, result)
                case Threw(error) =>
                  Rows() == FailTx(claimedRows, c, Decide(c, error)) && execution == Reported(c, error)
                case AnswerNotRecorded =>
                  Rows() == FailTx(claimedRows, c, Decide(c, UnclassifiedError))
                  && execution == Reported(c, UnclassifiedError)
                  && (execution == Rethrown <==>
                        c.provider != AdeWeb && c.attempts < EffectiveMaxAttempts(c.provider, c.maxAttempts))
                case FailureNotRecorded => Rows() == claimedRows && execution == Rethrown
                case Crashed => Rows() == claimedRows && execution == Died
      ensures old(ClaimTx(Rows(), id).1.Some?) ==>
                id in documents && (execution == Rethrown ==> documents[id].status in {Failed(Retry), Processing})
                && (documents[id].status == Failed(Retry) ==> execution == Rethrown)
    {
      var claimed := Claim(id);
      if claimed.None? {
        return Skipped;
      }
      var c := claimed.value;
      match outcome {
        case Answered(result) =>
          Succeed(c, result);
          execution := Completed(FinalStatus(c.documentType));
        case Threw(error) =>
          execution := Report(c, error);
        case AnswerNotRecorded =>
          execution := Report(c, UnclassifiedError);
        case FailureNotRecorded =>
          execution := Rethrown;
        case Crashed =>
          execution := Died;
      }
    }

    /** The catch block: classify, record, and rethrow only what the queue should deliver again. */
    method Report(c: Claimed, error: FiscalError) returns (execution: Execution)
      modifies this`documents, this`attempts
      ensures Rows() == FailTx(old(Rows()), c, Decide(c, error)) && execution == Reported(c, error)
    {
      var decision := Decide(c, error);
      Fail(c, decision);
      execution := if decision.retryable then Rethrown else Stopped(decision.status);
    }

    method MarkUnknown(id: DocumentId, attemptNo: nat)
      modifies this`documents, this`attempts
      ensures Rows() == MarkUnknownTx(old(Rows()), id, attemptNo)
    {
      if id in documents && documents[id].status == Processing {
        documents := documents[id := documents[id].(
          status := Failed(Unknown), errorCode := Some("ADE_WEB_STALE_PROCESSING"),
          version := documents[id].version + 1)];
      }
      if (id, attemptNo) in attempts && !attempts[(id, attemptNo)].finished {
        attempts := attempts[(id, attemptNo) := Attempt(Ended(Unknown), true)];
      }
    }

    /** `candidates` lists the unlocked rows whose last update is older than the threshold. */
    method Recover(candidates: seq<DocumentId>) returns (count: nat)
      modifies this
      ensures recoveryRunning == old(recoveryRunning)
      ensures old(recoveryRunning) ==> count == 0 && Rows() == old(Rows())
      ensures !old(recoveryRunning) ==>
                var stale := SelectStale(old(Rows()), candidates);
                count == |stale| && Rows() == RecoverTx(old(Rows()), stale)
    {
      if recoveryRunning {
        return 0;
      }
      recoveryRunning := true;
      var stale := SelectStale(Tables(documents, attempts, mutations), candidates);
      for i := 0 to |stale|
        invariant Rows() == RecoverTx(old(Rows()), stale[..i])
        invariant recoveryRunning
      {
        assert stale[..i + 1][..i] == stale[..i];
        MarkUnknown(stale[i].0, stale[i].1);
      }
      assert stale[..|stale|] == stale;
      count := |stale|;
      recoveryRunning := false;
    }

    method Issue(input: IssueInput, newId: DocumentId) returns (result: Result<bool, ApiError>)
      modifies this`documents
      ensures (Rows(), result) == IssueTx(old(Rows()), input, newId)
    {
      var t := Tables(documents, attempts, mutations);
      if ExistsRequest(t, input) {
        if ExistsRequestForOtherOrder(t, input) {
          return Err(ClientRequestReused);
        }
        return Ok(false);
      }
      if ExistsSale(t, input.organizationId, input.orderId) {
        return Ok(false);
      }
      if !input.profileEnabled {
        return Err(ProfileNotEnabled);
      }
      var row := NewSale(input);
      if newId in documents || !UniqueFor(t, row) {
        return Err(UniqueViolation);
      }
      documents := documents[newId := row];
      result := Ok(true);
    }

    method RetryDocument(key: MutationKey, expectedVersion: nat) returns (result: Result<bool, ApiError>)
      modifies this`documents, this`mutations
      ensures (Rows(), result) == RetryTx(old(Rows()), key, expectedVersion)
    {
      var id := key.documentId;
      if id !in documents {
        return Err(DocumentNotFound);
      }
      var current := documents[id];
      var check := BeginMutation(Tables(documents, attempts, mutations), current, key, expectedVersion, RetryRequest);
      match check {
        case Duplicate => return Ok(false);
        case Refused(error) => return Err(error);
        case Fresh =>
      }
      if !Retryable(current.status) {
        return Err(RetryNotAllowed);
      }
      documents := documents[id := current.(status := Queued, errorCode := None, version := current.version + 1)];
      mutations := mutations[key := RetryRequest];
      result := Ok(true);
    }

    method VoidDocument(sale: SaleRead, deviceId: DeviceId, mutationId: MutationId, expectedVersion: nat,
                        reason: string, newId: DocumentId)
      returns (result: Result<bool, ApiError>)
      modifies this`documents, this`mutations
      ensures (Rows(), result) == VoidTx(old(Rows()), sale, deviceId, mutationId, expectedVersion, reason, newId)
    {
      if sale.id !in documents {
        return Err(DocumentNotFound);
      }
      var current := documents[sale.id];
      var key := MutationKey(sale.id, deviceId, mutationId);
      var t := Tables(documents, attempts, mutations);
      var request := VoidRequest(sale.id, reason);
      var check := BeginMutation(t, current, key, expectedVersion, request);
      match check {
        case Duplicate => return Ok(false);
        case Refused(error) => return Err(error);
        case Fresh =>
      }
      if ExistsVoidOf(t, sale.id) {
        return Ok(false);
      }
      var row := NewVoid(sale, deviceId);
      if newId in documents || !UniqueFor(t, row) {
        return Err(UniqueViolation);
      }
      documents := documents[newId := row];
      documents := documents[sale.id := current.(version := current.version + 1)];
      mutations := mutations[key := request];
      result := Ok(true);
    }
  }
}
