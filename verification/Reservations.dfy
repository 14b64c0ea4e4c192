/**
 * Reservations at the door: check-in opens a table session, completion needs that session closed, and
 * no-show and payment expiry give the table back. The point of sale works on the same sessions meanwhile.
 */
module Reservations {
  import opened Wrappers
  import opened TableSessions

  type ReservationId(==, !new, 0) = nat

  datatype ReservationStatus =
    | PendingPayment | Confirmed | CheckedIn | Seated | Completed | ReservationCancelled | Expired | NoShow
    | RefundPending | Refunded

  datatype Action = CheckIn | Seat | Complete | MarkNoShow

  datatype Reservation = Reservation(
    organizationId: OrganizationId, locationId: LocationId, status: ReservationStatus,
    partySize: nat, tableSessionId: Option<SessionId>, version: nat)

  /** A group assignment has no single dining table. */
  datatype Assignment = Assignment(diningTableId: Option<TableId>, active: bool)

  datatype HistoryRow = HistoryRow(from: Option<ReservationStatus>, to: ReservationStatus)

  datatype Hall = Hall(
    db: Database,
    reservations: map<ReservationId, Reservation>,
    assignments: map<ReservationId, Assignment>,
    history: map<ReservationId, seq<HistoryRow>>,
    operations: map<(ReservationId, nat), Action>)

  datatype OperationError =
    | ReservationNotFound | MutationReused | ReservationVersionConflict | OperationNotAllowed
    | TableMissing | AlreadyCheckedIn | TableOccupied | TableSessionMissing | TableSessionStillOpen

  function TransitionFrom(action: Action): ReservationStatus {
    match action
    case CheckIn => Confirmed
    case Seat => CheckedIn
    case Complete => Seated
    case MarkNoShow => Confirmed
  }

  function TransitionTo(action: Action): ReservationStatus {
    match action
    case CheckIn => CheckedIn
    case Seat => Seated
    case Complete => Completed
    case MarkNoShow => NoShow
  }

  datatype OperationCall = OperationCall(
    organizationId: OrganizationId, deviceId: DeviceId, reservationId: ReservationId,
    action: Action, mutationId: nat, expectedVersion: nat)

  function ActiveTable(h: Hall, id: ReservationId): Option<TableId> {
    if id in h.assignments && h.assignments[id].active then h.assignments[id].diningTableId else None
  }

  function CheckInInput(r: Reservation, call: OperationCall, tableId: TableId): OpenInput {
    OpenInput(r.organizationId, call.deviceId, call.mutationId, tableId, r.locationId, r.partySize,
              Some("Check-in"), CheckInRequest(call.reservationId, tableId, r.partySize))
  }

  /** Opening the reservation's session: the new tables, or why not. */
  function OpenForReservation(h: Hall, call: OperationCall, sessionId: SessionId): Result<Database, OperationError>
    requires call.reservationId in h.reservations
  {
    var r := h.reservations[call.reservationId];
    var tableId := ActiveTable(h, call.reservationId);
    if tableId.None? then Err(TableMissing)
    else if r.tableSessionId.Some? then Err(AlreadyCheckedIn)
    else
      match InsertSession(h.db, CheckInInput(r, call, tableId.value), sessionId)
      case Ok(db) => Ok(db)
      case Err(_) => Err(TableOccupied)
  }

  function SessionForCompletion(h: Hall, r: Reservation): Option<OperationError> {
    if r.tableSessionId.None? || r.tableSessionId.value !in h.db.sessions then Some(TableSessionMissing)
    else if h.db.sessions[r.tableSessionId.value].status != Closed then Some(TableSessionStillOpen)
    else None
  }

  function Released(assignments: map<ReservationId, Assignment>, id: ReservationId): map<ReservationId, Assignment> {
    if id in assignments && assignments[id].active then assignments[id := assignments[id].(active := false)]
    else assignments
  }

  function Moved(r: Reservation, status: ReservationStatus): Reservation {
    r.(status := status, version := r.version + 1)
  }

  function Appended(history: map<ReservationId, seq<HistoryRow>>, id: ReservationId, row: HistoryRow)
    : map<ReservationId, seq<HistoryRow>>
  {
    history[id := (if id in history then history[id] else []) + [row]]
  }

  /** `apply`: Ok(true) performed the operation, Ok(false) recognised a repetition. */
  function ApplyTx(h: Hall, call: OperationCall, sessionId: SessionId): (Hall, Result<bool, OperationError>) {
    var id := call.reservationId;
    if id !in h.reservations || h.reservations[id].organizationId != call.organizationId
    then (h, Err(ReservationNotFound)) else
    var r := h.reservations[id];
    if (id, call.mutationId) in h.operations then
      (h, if h.operations[(id, call.mutationId)] != call.action then Err(MutationReused) else Ok(false))
    else if r.version != call.expectedVersion then (h, Err(ReservationVersionConflict))
    else if r.status != TransitionFrom(call.action) then (h, Err(OperationNotAllowed))
    else if call.action == CheckIn then
      match OpenForReservation(h, call, sessionId)
      case Err(error) => (h, Err(error))
      case Ok(db) => (Recorded(h.(db := db), call, r.(tableSessionId := Some(sessionId))), Ok(true))
    else if call.action == Complete && SessionForCompletion(h, r).Some? then (h, Err(SessionForCompletion(h, r).value))
    else (Recorded(h, call, r), Ok(true))
  }

  /** The writes every accepted operation ends with. */
  function Recorded(h: Hall, call: OperationCall, r: Reservation): Hall {
    var id, next := call.reservationId, TransitionTo(call.action);
    h.(reservations := h.reservations[id := Moved(r, next)],
       assignments :=
         if call.action == Complete || call.action == MarkNoShow then Released(h.assignments, id) else h.assignments,
       history := Appended(h.history, id, HistoryRow(Some(r.status), next)),
       operations := h.operations[(id, call.mutationId) := call.action])
  }

  /** Payment expiry of one selected row: the assignment first, then the reservation if it is still pending. */
  function ExpireOne(h: Hall, id: ReservationId): Hall {
    var released := h.(assignments := Released(h.assignments, id));
    if id in h.reservations && h.reservations[id].status == PendingPayment then
      released.(reservations := h.reservations[id := Moved(h.reservations[id], Expired)],
                history := Appended(h.history, id, HistoryRow(Some(PendingPayment), Expired)))
    else released
  }

  function ExpireAll(h: Hall, selected: seq<ReservationId>): Hall {
    if selected == [] then h else ExpireOne(ExpireAll(h, selected[..|selected| - 1]), selected[|selected| - 1])
  }

  function SelectPending(h: Hall, due: seq<ReservationId>): seq<ReservationId> {
    if due == [] then [] else
    (if due[0] in h.reservations && h.reservations[due[0]].status == PendingPayment then [due[0]] else [])
    + SelectPending(h, due[1..])
  }

  function Limited(rows: seq<ReservationId>, limit: nat): seq<ReservationId> {
    if |rows| <= limit then rows else rows[..limit]
  }

  datatype Step =
    | Create(id: ReservationId, organizationId: OrganizationId, locationId: LocationId, partySize: nat, paid: bool,
             table: Option<TableId>)
    | Pay(id: ReservationId, late: bool)
    | Operate(call: OperationCall, sessionId: SessionId)
    | ExpireDue(due: seq<ReservationId>, limit: nat)
    | OpenAtPos(input: OpenInput, newSession: SessionId)
    | MutateAtPos(mutation: Call)
    | OrderProgress(orderId: OrderId, status: OrderStatus)

  function Next(h: Hall, step: Step): Hall {
    match step
    case Create(id, organizationId, locationId, partySize, paid, table) =>
      if id in h.reservations || id in h.assignments || id in h.history then h else
      var status := if paid then Confirmed else PendingPayment;
      h.(reservations := h.reservations[id := Reservation(organizationId, locationId, status, partySize, None, 1)],
         assignments := h.assignments[id := Assignment(table, true)],
         history := h.history[id := [HistoryRow(None, status)]])
    case Pay(id, late) =>
      if id !in h.reservations || (h.reservations[id].status != PendingPayment && h.reservations[id].status != Expired)
      then h else
      var r := h.reservations[id];
      var next := if late || r.status == Expired then RefundPending else Confirmed;
      h.(reservations := h.reservations[id := Moved(r, next)],
         assignments := if next == RefundPending then Released(h.assignments, id) else h.assignments,
         history := Appended(h.history, id, HistoryRow(Some(r.status), next)))
    case Operate(call, sessionId) => ApplyTx(h, call, sessionId).0
    case ExpireDue(due, limit) => ExpireAll(h, Limited(SelectPending(h, due), limit))
    case OpenAtPos(input, newSession) => h.(db := OpenTx(h.db, input, newSession).0)
    case MutateAtPos(mutation) => h.(db := MutateTx(h.db, mutation).0)
    case OrderProgress(orderId, status) =>
      if orderId in h.db.orders
      then h.(db := h.db.(orders := h.db.orders[orderId := h.db.orders[orderId].(status := status)])) else h
  }

  function Run(h: Hall, steps: seq<Step>): Hall {
    if steps == [] then h else Next(Run(h, steps[..|steps| - 1]), steps[|steps| - 1])
  }

  function Opening(tables: map<TableId, DiningTable>, orders: map<OrderId, Order>): Hall {
    Hall(Database(tables, orders, map[], map[], map[]), map[], map[], map[], map[])
  }

  // ---------------------------------------------------------------------------------------------
  // The invariant
  // ---------------------------------------------------------------------------------------------

  /** An unbroken chain of status changes from creation to the given status. */
  ghost predicate UnbrokenChain(rows: seq<HistoryRow>, status: ReservationStatus) {
    && rows != [] && rows[0].from.None? && rows[|rows| - 1].to == status
    && forall i :: 0 < i < |rows| ==> rows[i].from == Some(rows[i - 1].to)
  }

  predicate AtTable(status: ReservationStatus) {
    status == CheckedIn || status == Seated || status == Completed
  }

  predicate GivesTableBack(status: ReservationStatus) {
    status == Completed || status == NoShow || status == Expired || status == RefundPending
  }

  ghost predicate ReservationOk(r: Reservation, rows: seq<HistoryRow>, active: bool, sessions: map<SessionId, Session>)
  {
    && UnbrokenChain(rows, r.status)
    && r.version == |rows|
    && (r.tableSessionId.Some? <==> AtTable(r.status))
    && (r.tableSessionId.Some? ==> r.tableSessionId.value in sessions)
    && (r.status == Completed ==> sessions[r.tableSessionId.value].status == Closed)
    && (GivesTableBack(r.status) ==> !active)
  }

  predicate IsActive(assignments: map<ReservationId, Assignment>, id: ReservationId) {
    id in assignments && assignments[id].active
  }

  ghost predicate OkAt(h: Hall, id: ReservationId)
    requires id in h.reservations && h.history.Keys == h.reservations.Keys
  {
    ReservationOk(h.reservations[id], h.history[id], IsActive(h.assignments, id), h.db.sessions)
  }

  ghost predicate SessionsOwnedOnce(reservations: map<ReservationId, Reservation>) {
    forall i, j :: (i in reservations && j in reservations && reservations[i].tableSessionId.Some?
                    && reservations[i].tableSessionId == reservations[j].tableSessionId) ==> i == j
  }

  ghost predicate HallInv(h: Hall) {
    && Inv(h.db)
    && h.history.Keys == h.reservations.Keys
    && (forall id {:trigger OkAt(h, id)} :: id in h.reservations ==> OkAt(h, id))
    && SessionsOwnedOnce(h.reservations)
  }

  /** Steps of the point of sale: the tables move forward, the reservations stay. */
  lemma TablesStepKeepsInv(h: Hall, db: Database)
    requires HallInv(h) && Inv(db) && Monotone(h.db, db)
    ensures HallInv(h.(db := db))
  {
    forall id | id in h.reservations
      ensures OkAt(h.(db := db), id)
    {
      assert OkAt(h, id);
    }
  }

  /** One reservation moved along the chain; everything else as it was. */
  ghost predicate MovesOne(h: Hall, h': Hall, id: ReservationId, next: ReservationStatus) {
    && id in h.reservations && h'.reservations.Keys == h.reservations.Keys
    && h'.reservations
       == h.reservations[id := Moved(h.reservations[id], next).(tableSessionId := h'.reservations[id].tableSessionId)]
    && h'.history == Appended(h.history, id, HistoryRow(Some(h.reservations[id].status), next))
    && (forall i :: i != id ==> IsActive(h'.assignments, i) == IsActive(h.assignments, i))
    && (GivesTableBack(next) ==> !IsActive(h'.assignments, id))
  }

  /** The session the moved reservation has: none, the one it had, or a new one; closed when it completes. */
  ghost predicate SessionFits(h: Hall, h': Hall, id: ReservationId, next: ReservationStatus)
    requires id in h.reservations && id in h'.reservations
  {
    var s := h'.reservations[id].tableSessionId;
    && (s.Some? <==> AtTable(next))
    && (s.Some? ==> s.value in h'.db.sessions && (s == h.reservations[id].tableSessionId || s.value !in h.db.sessions))
    && (next == Completed ==> h'.db.sessions[s.value].status == Closed)
  }

  lemma MoveKeepsRows(h: Hall, h': Hall, id: ReservationId, next: ReservationStatus, i: ReservationId)
    requires HallInv(h) && MovesOne(h, h', id, next) && SessionFits(h, h', id, next) && Monotone(h.db, h'.db)
             && i in h.reservations
    ensures h'.history.Keys == h'.reservations.Keys && OkAt(h', i)
  {
    assert OkAt(h, i);
  }

  lemma MoveKeepsOwners(h: Hall, h': Hall, id: ReservationId, next: ReservationStatus)
    requires HallInv(h) && MovesOne(h, h', id, next) && SessionFits(h, h', id, next)
    ensures SessionsOwnedOnce(h'.reservations)
  {
    assert OkAt(h, id);
    forall i, j | i in h'.reservations && j in h'.reservations && h'.reservations[i].tableSessionId.Some?
                  && h'.reservations[i].tableSessionId == h'.reservations[j].tableSessionId
      ensures i == j
    {
      assert OkAt(h, i) && OkAt(h, j);
    }
  }

  /** A step that moves one reservation along the chain. */
  lemma MoveKeepsInv(h: Hall, h': Hall, id: ReservationId, next: ReservationStatus)
    requires HallInv(h) && MovesOne(h, h', id, next) && SessionFits(h, h', id, next)
    requires Inv(h'.db) && Monotone(h.db, h'.db)
    ensures HallInv(h')
  {
    MoveKeepsOwners(h, h', id, next);
    forall i | i in h'.reservations
      ensures h'.history.Keys == h'.reservations.Keys && OkAt(h', i)
    {
      MoveKeepsRows(h, h', id, next, i);
    }
  }

  lemma CreateKeepsInv(h: Hall, step: Step)
    requires HallInv(h) && step.Create?
    ensures HallInv(Next(h, step)) && Next(h, step).db == h.db
  {
    var h' := Next(h, step);
    forall i | i in h'.reservations
      ensures OkAt(h', i)
    {
      if i in h.reservations {
        assert OkAt(h, i);
      }
    }
  }

  /** The insert touches no session that was there before. */
  lemma InsertMonotone(db: Database, i: OpenInput, id: SessionId)
    requires InsertSession(db, i, id).Ok?
    ensures Monotone(db, InsertSession(db, i, id).value)
  {
  }

  lemma CheckInKeepsInv(h: Hall, call: OperationCall, sessionId: SessionId)
    requires HallInv(h) && call.action == CheckIn && ApplyTx(h, call, sessionId).1 == Ok(true)
    ensures HallInv(ApplyTx(h, call, sessionId).0)
    ensures Monotone(h.db, ApplyTx(h, call, sessionId).0.db)
  {
    var h', id := ApplyTx(h, call, sessionId).0, call.reservationId;
    var input := CheckInInput(h.reservations[id], call, ActiveTable(h, id).value);
    assert InsertSession(h.db, input, sessionId) == Ok(h'.db);
    InsertKeepsInv(h.db, input, sessionId);
    InsertMonotone(h.db, input, sessionId);
    assert OkAt(h, id);
    MoveKeepsInv(h, h', id, CheckedIn);
  }

  lemma LaterOperationKeepsInv(h: Hall, call: OperationCall, sessionId: SessionId)
    requires HallInv(h) && call.action != CheckIn && ApplyTx(h, call, sessionId).1 == Ok(true)
    ensures HallInv(ApplyTx(h, call, sessionId).0)
    ensures ApplyTx(h, call, sessionId).0.db == h.db
  {
    var h', id := ApplyTx(h, call, sessionId).0, call.reservationId;
    assert OkAt(h, id);
    MoveKeepsInv(h, h', id, TransitionTo(call.action));
  }

  lemma OperateKeepsInv(h: Hall, call: OperationCall, sessionId: SessionId)
    requires HallInv(h)
    ensures HallInv(ApplyTx(h, call, sessionId).0)
    ensures Monotone(h.db, ApplyTx(h, call, sessionId).0.db)
  {
    if ApplyTx(h, call, sessionId).1 == Ok(true) {
      if call.action == CheckIn {
        CheckInKeepsInv(h, call, sessionId);
      } else {
        LaterOperationKeepsInv(h, call, sessionId);
      }
    } else {
      assert ApplyTx(h, call, sessionId).0 == h;
    }
  }

  lemma ExpireOneKeepsInv(h: Hall, id: ReservationId)
    requires HallInv(h)
    ensures HallInv(ExpireOne(h, id))
  {
    var h' := ExpireOne(h, id);
    if id in h.reservations && h.reservations[id].status == PendingPayment {
      assert OkAt(h, id);
      MoveKeepsInv(h, h', id, Expired);
    } else {
      forall i | i in h'.reservations
        ensures OkAt(h', i)
      {
        assert OkAt(h, i);
      }
    }
  }

  lemma {:induction false} ExpireAllKeepsInv(h: Hall, selected: seq<ReservationId>)
    requires HallInv(h)
    ensures HallInv(ExpireAll(h, selected)) && ExpireAll(h, selected).db == h.db
  {
    if selected != [] {
      ExpireAllKeepsInv(h, selected[..|selected| - 1]);
      ExpireOneKeepsInv(ExpireAll(h, selected[..|selected| - 1]), selected[|selected| - 1]);
    }
  }

  lemma PayKeepsInv(h: Hall, id: ReservationId, late: bool)
    requires HallInv(h)
    ensures HallInv(Next(h, Pay(id, late))) && Next(h, Pay(id, late)).db == h.db
  {
    var h' := Next(h, Pay(id, late));
    if h' != h {
      assert OkAt(h, id);
      MoveKeepsInv(h, h', id, h'.reservations[id].status);
    }
  }

  lemma OpenAtPosKeepsInv(h: Hall, input: OpenInput, id: SessionId)
    requires HallInv(h)
    ensures var db := OpenTx(h.db, input, id).0; HallInv(h.(db := db)) && Monotone(h.db, db)
  {
    if OpenTx(h.db, input, id).1 == Ok(true) {
      InsertKeepsInv(h.db, input, id);
      InsertMonotone(h.db, input, id);
    }
    TablesStepKeepsInv(h, OpenTx(h.db, input, id).0);
  }

  lemma MutateAtPosKeepsInv(h: Hall, mutation: Call)
    requires HallInv(h)
    ensures var db := MutateTx(h.db, mutation).0; HallInv(h.(db := db)) && Monotone(h.db, db)
  {
    MutateKeepsInv(h.db, mutation);
    MutateMonotone(h.db, mutation);
    TablesStepKeepsInv(h, MutateTx(h.db, mutation).0);
  }

  lemma OrdersKeepInv(db: Database, orders: map<OrderId, Order>)
    requires Inv(db)
    ensures Inv(db.(orders := orders)) && Monotone(db, db.(orders := orders))
  {
    forall id | id in db.sessions
      ensures SessionOk(id, db.sessions[id], db.mutations)
    {
    }
  }

  /** Every step keeps the invariant and moves the session tables only forward. */
  lemma NextKeepsInv(h: Hall, step: Step)
    requires HallInv(h)
    ensures HallInv(Next(h, step))
    ensures Monotone(h.db, Next(h, step).db)
  {
    if step.OpenAtPos? {
      OpenAtPosKeepsInv(h, step.input, step.newSession);
    } else if step.MutateAtPos? {
      MutateAtPosKeepsInv(h, step.mutation);
    } else if step.OrderProgress? {
      OrdersKeepInv(h.db, Next(h, step).db.orders);
      TablesStepKeepsInv(h, Next(h, step).db);
    } else if step.Create? {
      CreateKeepsInv(h, step);
    } else if step.Pay? {
      PayKeepsInv(h, step.id, step.late);
    } else if step.Operate? {
      OperateKeepsInv(h, step.call, step.sessionId);
    } else {
      ExpireAllKeepsInv(h, Limited(SelectPending(h, step.due), step.limit));
    }
  }

  lemma {:induction false} RunKeepsInv(h: Hall, steps: seq<Step>)
    requires HallInv(h)
    ensures HallInv(Run(h, steps)) && Monotone(h.db, Run(h, steps).db)
  {
    if steps != [] {
      RunKeepsInv(h, steps[..|steps| - 1]);
      NextKeepsInv(Run(h, steps[..|steps| - 1]), steps[|steps| - 1]);
    }
  }
}
