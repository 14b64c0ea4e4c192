/** What each operation on a reservation writes, exactly when it is accepted, and where a check-in seats the party. */
module ReservationEffects {
  import opened Wrappers
  import opened TableSessions
  import opened TableSessionEffects
  import opened Reservations
  import opened ReservationSafety

  /** The status an action starts from. */
  ghost predicate StartsFrom(action: Action, status: ReservationStatus) {
    match action
    case CheckIn => status == Confirmed
    case Seat => status == CheckedIn
    case Complete => status == Seated
    case MarkNoShow => status == Confirmed
  }

  /** The status it leads to. */
  ghost predicate LeadsTo(action: Action, status: ReservationStatus) {
    match action
    case CheckIn => status == CheckedIn
    case Seat => status == Seated
    case Complete => status == Completed
    case MarkNoShow => status == NoShow
  }

  /** The party's table: its active assignment's, unless that is a group. */
  ghost predicate AssignedTable(h: Hall, id: ReservationId, tableId: TableId) {
    id in h.assignments && h.assignments[id].active && h.assignments[id].diningTableId == Some(tableId)
  }

  /** The table is free, and so are the new session's key and the device's client id. */
  ghost predicate CanSit(h: Hall, call: OperationCall, sessionId: SessionId) {
    && call.reservationId in h.reservations && h.reservations[call.reservationId].tableSessionId.None?
    && sessionId !in h.db.sessions
    && (exists tableId :: AssignedTable(h, call.reservationId, tableId)
          && TableFree(h.db, sessionId, h.reservations[call.reservationId].organizationId, tableId))
    && !exists j :: j in h.db.sessions
         && h.db.sessions[j].organizationId == h.reservations[call.reservationId].organizationId
         && h.db.sessions[j].deviceId == call.deviceId && h.db.sessions[j].clientSessionId == call.mutationId
  }

  /** The party's session is there and closed. */
  ghost predicate CanLeave(h: Hall, r: Reservation) {
    r.tableSessionId.Some? && r.tableSessionId.value in h.db.sessions
    && h.db.sessions[r.tableSessionId.value].status == Closed
  }

  ghost predicate Known(h: Hall, call: OperationCall) {
    call.reservationId in h.reservations && h.reservations[call.reservationId].organizationId == call.organizationId
  }

  /** A request that is not a repetition, at the version and in the status its action asks for. */
  ghost predicate Timely(h: Hall, call: OperationCall) {
    && Known(h, call) && (call.reservationId, call.mutationId) !in h.operations
    && h.reservations[call.reservationId].version == call.expectedVersion
    && StartsFrom(call.action, h.reservations[call.reservationId].status)
  }

  /** Exactly when an operation is performed; otherwise nothing changes. */
  lemma OperationAccepted(h: Hall, call: OperationCall, sessionId: SessionId)
    ensures ApplyTx(h, call, sessionId).1 == Ok(true) <==>
              && Timely(h, call)
              && (call.action == CheckIn ==> CanSit(h, call, sessionId))
              && (call.action == Complete ==> CanLeave(h, h.reservations[call.reservationId]))
    ensures ApplyTx(h, call, sessionId).1 != Ok(true) ==> ApplyTx(h, call, sessionId).0 == h
  {
    if Timely(h, call) && call.action == CheckIn {
      CheckInOpens(h, call, sessionId);
    }
  }

  /** The session of a check-in: at the party's table, location and size. */
  ghost predicate SeatedAt(s: Session, r: Reservation, tableId: TableId, call: OperationCall) {
    && s.status == Open && s.version == 1
    && s.organizationId == r.organizationId && s.locationId == r.locationId && s.tableId == tableId
    && s.guestCount == r.partySize && s.deviceId == call.deviceId && s.clientSessionId == call.mutationId
    && s.request == CheckInRequest(call.reservationId, tableId, r.partySize)
    && s.activeTableKey.Some? && s.activeTableKey.value.organizationId == r.organizationId
    && s.activeTableKey.value.tableId == tableId
  }

  lemma CheckInOpens(h: Hall, call: OperationCall, sessionId: SessionId)
    requires Known(h, call)
    ensures OpenForReservation(h, call, sessionId).Ok? <==> CanSit(h, call, sessionId)
    ensures OpenForReservation(h, call, sessionId).Ok? ==>
              var db := OpenForReservation(h, call, sessionId).value;
              && db == h.db.(sessions := db.sessions) && db.sessions.Keys == h.db.sessions.Keys + {sessionId}
              && (forall j :: j in h.db.sessions ==> db.sessions[j] == h.db.sessions[j])
              && forall tableId :: AssignedTable(h, call.reservationId, tableId) ==>
                   SeatedAt(db.sessions[sessionId], h.reservations[call.reservationId], tableId, call)
  {
    var r := h.reservations[call.reservationId];
    var tableId := ActiveTable(h, call.reservationId);
    if tableId.Some? && r.tableSessionId.None? {
      assert AssignedTable(h, call.reservationId, tableId.value);
      InsertIsRecorded(h.db, CheckInInput(r, call, tableId.value), sessionId);
    }
  }

  /** Everything a performed operation leaves on reservations, assignments, history and operations. */
  ghost predicate Performed(h: Hall, h': Hall, call: OperationCall, sessionId: SessionId)
    requires call.reservationId in h.reservations
  {
    var id, r := call.reservationId, h.reservations[call.reservationId];
    && h'.reservations.Keys == h.reservations.Keys
    && (forall i :: i in h.reservations && i != id ==> h'.reservations[i] == h.reservations[i])
    && var r' := h'.reservations[id];
       && LeadsTo(call.action, r'.status) && r'.version == r.version + 1
       && r'.tableSessionId == (if call.action == CheckIn then Some(sessionId) else r.tableSessionId)
       && r' == r.(status := r'.status, version := r'.version, tableSessionId := r'.tableSessionId)
       && id in h'.history && h'.history.Keys == h.history.Keys + {id}
       && h'.history[id] ==
            (if id in h.history then h.history[id] else []) + [HistoryRow(Some(r.status), r'.status)]
       && (forall i :: i in h.history && i != id ==> h'.history[i] == h.history[i])
       && h'.assignments.Keys == h.assignments.Keys
       && (forall i :: i in h.assignments && i != id ==> h'.assignments[i] == h.assignments[i])
       && (id in h.assignments ==>
             h'.assignments[id] == if call.action in {Complete, MarkNoShow} then h.assignments[id].(active := false)
                                   else h.assignments[id])
       && h'.operations == h.operations[(id, call.mutationId) := call.action]
  }

  /**
   * What a performed operation leaves. A check-in opens the party's session at its table; no other touches sessions.
   */
  lemma OperationIsRecorded(h: Hall, call: OperationCall, sessionId: SessionId)
    requires ApplyTx(h, call, sessionId).1 == Ok(true)
    ensures var h' := ApplyTx(h, call, sessionId).0;
            && Performed(h, h', call, sessionId)
            && (call.action != CheckIn ==> h'.db == h.db)
            && (call.action == CheckIn ==>
                  && h'.db == h.db.(sessions := h'.db.sessions)
                  && sessionId !in h.db.sessions && h'.db.sessions.Keys == h.db.sessions.Keys + {sessionId}
                  && (forall j :: j in h.db.sessions ==> h'.db.sessions[j] == h.db.sessions[j]))
  {
    OperationAccepted(h, call, sessionId);
    if call.action == CheckIn {
      CheckInOpens(h, call, sessionId);
    }
  }

  /** Where a check-in seats the party. */
  lemma CheckInSeatsAtItsTable(h: Hall, call: OperationCall, sessionId: SessionId)
    requires ApplyTx(h, call, sessionId).1 == Ok(true) && call.action == CheckIn
    ensures exists tableId ::
              && AssignedTable(h, call.reservationId, tableId)
              && sessionId in ApplyTx(h, call, sessionId).0.db.sessions
              && SeatedAt(ApplyTx(h, call, sessionId).0.db.sessions[sessionId], h.reservations[call.reservationId],
                          tableId, call)
  {
    OperationAccepted(h, call, sessionId);
    CheckInOpens(h, call, sessionId);
    var tableId :| AssignedTable(h, call.reservationId, tableId);
    assert SeatedAt(ApplyTx(h, call, sessionId).0.db.sessions[sessionId], h.reservations[call.reservationId], tableId,
                    call);
  }

  /** Which refusal an operation gets, each exactly in its case. */
  lemma OperationRefused(h: Hall, call: OperationCall, sessionId: SessionId)
    ensures var result := ApplyTx(h, call, sessionId).1;
            var repeated := Known(h, call) && (call.reservationId, call.mutationId) in h.operations;
            && (result == Err(ReservationNotFound) <==> !Known(h, call))
            && (result == Err(MutationReused) <==>
                  repeated && h.operations[(call.reservationId, call.mutationId)] != call.action)
            && (result == Ok(false) <==>
                  repeated && h.operations[(call.reservationId, call.mutationId)] == call.action)
            && (result == Err(ReservationVersionConflict) <==>
                  Known(h, call) && !repeated && h.reservations[call.reservationId].version != call.expectedVersion)
            && (result == Err(OperationNotAllowed) <==>
                  && Known(h, call) && !repeated
                  && h.reservations[call.reservationId].version == call.expectedVersion
                  && !StartsFrom(call.action, h.reservations[call.reservationId].status))
            && (result == Err(TableMissing) <==>
                  Timely(h, call) && call.action == CheckIn
                  && forall tableId :: !AssignedTable(h, call.reservationId, tableId))
            && (result == Err(TableSessionStillOpen) <==>
                  && Timely(h, call) && call.action == Complete
                  && var s := h.reservations[call.reservationId].tableSessionId;
                     s.Some? && s.value in h.db.sessions && h.db.sessions[s.value].status != Closed)
  {
    if Timely(h, call) && call.action == CheckIn && ActiveTable(h, call.reservationId).Some? {
      assert AssignedTable(h, call.reservationId, ActiveTable(h, call.reservationId).value);
    }
  }

  // ---------------------------------------------------------------------------------------------
  // Creation and payment
  // ---------------------------------------------------------------------------------------------

  /** A new reservation: confirmed when nothing is to be paid, its table assigned, its history begun. */
  lemma CreationIsRecorded(h: Hall, id: ReservationId, organizationId: OrganizationId, locationId: LocationId,
                           partySize: nat, paid: bool, table: Option<TableId>)
    ensures var h' := Next(h, Create(id, organizationId, locationId, partySize, paid, table));
            if id in h.reservations || id in h.assignments || id in h.history then h' == h else
              var status := if paid then Confirmed else PendingPayment;
              && h'.db == h.db && h'.operations == h.operations
              && h'.history == h.history[id := [HistoryRow(None, status)]]
              && h'.assignments == h.assignments[id := Assignment(table, true)]
              && h'.reservations.Keys == h.reservations.Keys + {id}
              && (forall i :: i in h.reservations ==> h'.reservations[i] == h.reservations[i])
              && var r := h'.reservations[id];
                 && r.organizationId == organizationId && r.locationId == locationId && r.partySize == partySize
                 && r.status == status && r.tableSessionId == None && r.version == 1
  {
  }

  /** A payment confirms a pending reservation; a late one, or one that expired meanwhile, is refunded instead. */
  lemma PaymentIsRecorded(h: Hall, id: ReservationId, late: bool)
    ensures var h' := Next(h, Pay(id, late));
            if !(id in h.reservations && h.reservations[id].status in {PendingPayment, Expired}) then h' == h else
              var r := h.reservations[id];
              var refunded := late || r.status == Expired;
              var next := if refunded then RefundPending else Confirmed;
              && h'.db == h.db && h'.operations == h.operations
              && h'.reservations == h.reservations[id := r.(status := next, version := r.version + 1)]
              && id in h'.history && h'.history[id] ==
                   (if id in h.history then h.history[id] else []) + [HistoryRow(Some(r.status), next)]
              && h'.assignments.Keys == h.assignments.Keys
              && (forall i :: i in h.assignments ==>
                    h'.assignments[i] == if i == id && refunded then h.assignments[i].(active := false)
                                         else h.assignments[i])
  {
  }
}
