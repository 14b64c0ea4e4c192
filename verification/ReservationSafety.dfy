/** What holds of reservations, their tables and their history in every run, and the service that performs the steps. */
module ReservationSafety {
  import opened Wrappers
  import opened TableSessions
  import opened Reservations

  /** Any run of the door and the till, from an empty hall. */
  function Evening(tables: map<TableId, DiningTable>, orders: map<OrderId, Order>, steps: seq<Step>): Hall {
    Run(Opening(tables, orders), steps)
  }

  lemma EveningKeepsInv(tables: map<TableId, DiningTable>, orders: map<OrderId, Order>, steps: seq<Step>)
    ensures HallInv(Evening(tables, orders, steps))
  {
    RunKeepsInv(Opening(tables, orders), steps);
  }

  /** A party that was let in owns a session nobody else owns; a completed one's session is closed. */
  lemma GuestsOwnTheirSession(tables: map<TableId, DiningTable>, orders: map<OrderId, Order>, steps: seq<Step>,
                              id: ReservationId)
    requires id in Evening(tables, orders, steps).reservations
    ensures var h := Evening(tables, orders, steps);
            var r := h.reservations[id];
            && (AtTable(r.status) <==> r.tableSessionId.Some?)
            && (AtTable(r.status) ==>
                  && r.tableSessionId.value in h.db.sessions
                  && (forall other ::
                        other in h.reservations && h.reservations[other].tableSessionId == r.tableSessionId ==>
                          other == id))
            && (r.status == Completed ==> h.db.sessions[r.tableSessionId.value].status == Closed)
  {
    EveningKeepsInv(tables, orders, steps);
    assert OkAt(Evening(tables, orders, steps), id);
  }

  /** Completed, absent, expired and refunded-in-progress reservations hold no table. */
  lemma TablesGivenBack(tables: map<TableId, DiningTable>, orders: map<OrderId, Order>, steps: seq<Step>,
                        id: ReservationId)
    requires id in Evening(tables, orders, steps).reservations
    ensures var h := Evening(tables, orders, steps);
            GivesTableBack(h.reservations[id].status) ==> !IsActive(h.assignments, id)
  {
    EveningKeepsInv(tables, orders, steps);
    assert OkAt(Evening(tables, orders, steps), id);
  }

  /** The history is a chain from creation to the current status, one row per version. */
  lemma HistoryIsUnbroken(tables: map<TableId, DiningTable>, orders: map<OrderId, Order>, steps: seq<Step>,
                          id: ReservationId)
    requires id in Evening(tables, orders, steps).reservations
    ensures var h := Evening(tables, orders, steps);
            && id in h.history && UnbrokenChain(h.history[id], h.reservations[id].status)
            && h.reservations[id].version == |h.history[id]|
  {
    EveningKeepsInv(tables, orders, steps);
    assert OkAt(Evening(tables, orders, steps), id);
  }

  /** Two writers, one table: never two open sessions on it. */
  lemma NoTableOpenedTwice(tables: map<TableId, DiningTable>, orders: map<OrderId, Order>, steps: seq<Step>,
                           i: SessionId, j: SessionId)
    requires var sessions := Evening(tables, orders, steps).db.sessions;
             && i in sessions && j in sessions && sessions[i].status == Open && sessions[j].status == Open
             && sessions[i].organizationId == sessions[j].organizationId && sessions[i].tableId == sessions[j].tableId
    ensures i == j
  {
    EveningKeepsInv(tables, orders, steps);
    OneOpenSessionPerTable(Evening(tables, orders, steps).db, i, j);
  }

  /**
   * Every session, whoever opened it: keyed exactly while open, by its current table; one version per recorded
   * mutation.
   */
  lemma SessionsKeyedAndCounted(tables: map<TableId, DiningTable>, orders: map<OrderId, Order>, steps: seq<Step>,
                                id: SessionId)
    requires id in Evening(tables, orders, steps).db.sessions
    ensures var db := Evening(tables, orders, steps).db;
            var s := db.sessions[id];
            && (s.activeTableKey.Some? <==> s.status == Open)
            && (s.status == Open ==> s.activeTableKey == Some(ActiveTableKey(s.organizationId, s.tableId)))
            && s.version == 1 + |MutationsOf(db.mutations, id)|
  {
    EveningKeepsInv(tables, orders, steps);
    var db := Evening(tables, orders, steps).db;
    assert SessionOk(id, db.sessions[id], db.mutations);
  }

  /** A mutation of a session is performed once: its key never changes anything again, in any later state. */
  lemma MutationAppliedOnce(h: Hall, call: Call, steps: seq<Step>, again: Call)
    requires HallInv(h) && MutateTx(h.db, call).1 == Ok(true) && again.key == call.key
    ensures var db := Run(h.(db := MutateTx(h.db, call).0), steps).db;
            MutateTx(db, again).0 == db && MutateTx(db, again).1 != Ok(true)
  {
    var h1 := h.(db := MutateTx(h.db, call).0);
    MutateAtPosKeepsInv(h, call);
    RunKeepsInv(h1, steps);
    RecordedIsKnown(h.db, call);
    KnownKeyChangesNothing(Run(h1, steps).db, again);
  }

  lemma RecordedIsKnown(db: Database, call: Call)
    requires MutateTx(db, call).1 == Ok(true)
    ensures call.key in MutateTx(db, call).0.mutations
  {
  }

  lemma KnownKeyChangesNothing(db: Database, call: Call)
    requires call.key in db.mutations
    ensures MutateTx(db, call).0 == db && MutateTx(db, call).1 != Ok(true)
  {
  }

  // ---------------------------------------------------------------------------------------------
  // What one step leaves alone
  // ---------------------------------------------------------------------------------------------

  /** No step takes a reservation out of COMPLETED, detaches its session, or forgets an operation. */
  ghost predicate Later(h: Hall, h': Hall, id: ReservationId) {
    && (forall key :: key in h.operations ==> key in h'.operations && h'.operations[key] == h.operations[key])
    && (id in h.reservations ==>
          && id in h'.reservations
          && (h.reservations[id].tableSessionId.Some? ==>
                h'.reservations[id].tableSessionId == h.reservations[id].tableSessionId)
          && (h.reservations[id].status == Completed ==> h'.reservations[id] == h.reservations[id]))
  }

  /** What expiring the selected rows does, however often the selection repeats a row. */
  lemma {:induction false} ExpiryMeaning(h: Hall, selected: seq<ReservationId>, id: ReservationId)
    requires id in h.reservations && id in h.history
    ensures var h' := ExpireAll(h, selected);
            && h'.db == h.db && h'.operations == h.operations
            && id in h'.reservations && id in h'.history
            && (if id in selected && h.reservations[id].status == PendingPayment
                then h'.reservations[id] == Moved(h.reservations[id], Expired)
                     && h'.history[id] == h.history[id] + [HistoryRow(Some(PendingPayment), Expired)]
                else h'.reservations[id] == h.reservations[id] && h'.history[id] == h.history[id])
            && IsActive(h'.assignments, id) == (IsActive(h.assignments, id) && id !in selected)
  {
    if selected != [] {
      var rest, last := selected[..|selected| - 1], selected[|selected| - 1];
      ExpiryMeaning(h, rest, id);
      assert selected == rest + [last];
    }
  }

  lemma {:induction false} SelectedArePending(h: Hall, due: seq<ReservationId>, id: ReservationId)
    ensures id in SelectPending(h, due) <==>
              id in due && id in h.reservations && h.reservations[id].status == PendingPayment
  {
    if due != [] {
      SelectedArePending(h, due[1..], id);
      assert due == [due[0]] + due[1..];
    }
  }

  /** One pass of payment expiry, when the limit does not cut it short, expires exactly the due pending reservations. */
  lemma ExpiryPass(h: Hall, due: seq<ReservationId>, limit: nat, id: ReservationId)
    requires HallInv(h) && id in h.reservations && |SelectPending(h, due)| <= limit
    ensures var h' := Next(h, ExpireDue(due, limit));
            && id in h'.reservations
            && (h'.reservations[id] != h.reservations[id] <==> id in due && h.reservations[id].status == PendingPayment)
            && (id in due && h.reservations[id].status == PendingPayment ==>
                  h'.reservations[id].status == Expired && !IsActive(h'.assignments, id))
  {
    ExpiryMeaning(h, SelectPending(h, due), id);
    SelectedArePending(h, due, id);
  }

  lemma NextIsLater(h: Hall, step: Step, id: ReservationId)
    requires HallInv(h)
    ensures Later(h, Next(h, step), id)
  {
    if step.ExpireDue? {
      ExpireIsLater(h, Limited(SelectPending(h, step.due), step.limit), id);
    } else if step.Operate? {
      OperateIsLater(h, step.call, step.sessionId, id);
    }
  }

  lemma ExpireIsLater(h: Hall, selected: seq<ReservationId>, id: ReservationId)
    requires HallInv(h)
    ensures Later(h, ExpireAll(h, selected), id)
  {
    if id in h.reservations {
      ExpiryMeaning(h, selected, id);
    } else {
      ExpiryKeepsOperations(h, selected);
    }
  }

  lemma {:induction false} ExpiryKeepsOperations(h: Hall, selected: seq<ReservationId>)
    ensures ExpireAll(h, selected).operations == h.operations
  {
    if selected != [] {
      ExpiryKeepsOperations(h, selected[..|selected| - 1]);
    }
  }

  lemma OperateIsLater(h: Hall, call: OperationCall, sessionId: SessionId, id: ReservationId)
    requires HallInv(h)
    ensures Later(h, ApplyTx(h, call, sessionId).0, id)
  {
    if ApplyTx(h, call, sessionId).1 == Ok(true) {
      assert OkAt(h, call.reservationId);
    }
  }

  lemma {:induction false} RunIsLater(h: Hall, steps: seq<Step>, id: ReservationId)
    requires HallInv(h)
    ensures Later(h, Run(h, steps), id)
  {
    if steps != [] {
      var before := Run(h, steps[..|steps| - 1]);
      RunIsLater(h, steps[..|steps| - 1], id);
      RunKeepsInv(h, steps[..|steps| - 1]);
      NextIsLater(before, steps[|steps| - 1], id);
    }
  }

  /** A completed reservation stays completed and its session stays closed, whatever happens afterwards. */
  lemma CompletedForever(h: Hall, steps: seq<Step>, id: ReservationId)
    requires HallInv(h) && id in h.reservations && h.reservations[id].status == Completed
    ensures var h' := Run(h, steps);
            && id in h'.reservations && h'.reservations[id] == h.reservations[id]
            && h.reservations[id].tableSessionId.Some?
            && var s := h.reservations[id].tableSessionId.value;
               s in h.db.sessions && s in h'.db.sessions && h'.db.sessions[s] == h.db.sessions[s]
               && h'.db.sessions[s].status == Closed
  {
    RunIsLater(h, steps, id);
    RunKeepsInv(h, steps);
    assert OkAt(h, id);
  }

  /** An operation is performed once: later requests with its mutation id change nothing. */
  lemma OperationAppliedOnce(h: Hall, call: OperationCall, sessionId: SessionId, steps: seq<Step>, again: OperationCall,
                             other: SessionId)
    requires HallInv(h) && ApplyTx(h, call, sessionId).1 == Ok(true)
    requires again.reservationId == call.reservationId && again.mutationId == call.mutationId
    ensures var h' := Run(ApplyTx(h, call, sessionId).0, steps);
            && ApplyTx(h', again, other).0 == h'
            && (again.organizationId == call.organizationId && again.action == call.action ==>
                  ApplyTx(h', again, other).1 == Ok(false) || ApplyTx(h', again, other).1 == Err(ReservationNotFound))
            && (again.action != call.action ==> ApplyTx(h', again, other).1.Err?)
  {
    OperateKeepsInv(h, call, sessionId);
    RunIsLater(ApplyTx(h, call, sessionId).0, steps, call.reservationId);
  }

  /** Exactly when a fresh completion is accepted. */
  lemma CompletesExactlyWhen(h: Hall, call: OperationCall, sessionId: SessionId)
    requires HallInv(h) && call.action == Complete
    requires call.reservationId in h.reservations
             && h.reservations[call.reservationId].organizationId == call.organizationId
    requires (call.reservationId, call.mutationId) !in h.operations
    ensures var r := h.reservations[call.reservationId];
            r.status == Seated ==> r.tableSessionId.Some? && r.tableSessionId.value in h.db.sessions
    ensures var r := h.reservations[call.reservationId];
            ApplyTx(h, call, sessionId).1 == Ok(true) <==>
              && r.version == call.expectedVersion && r.status == Seated
              && h.db.sessions[r.tableSessionId.value].status == Closed
  {
    assert OkAt(h, call.reservationId);
  }

  /**
   * The dead end: once the point of sale cancels (rather than closes) the session of a party at its table,
   * that reservation can never be completed.
   */
  lemma CancelledSessionNeverCompletes(h: Hall, steps: seq<Step>, id: ReservationId)
    requires HallInv(h) && id in h.reservations
    requires h.reservations[id].status == CheckedIn || h.reservations[id].status == Seated
    requires h.reservations[id].tableSessionId.Some? && h.reservations[id].tableSessionId.value in h.db.sessions
    requires h.db.sessions[h.reservations[id].tableSessionId.value].status == Cancelled
    ensures id in Run(h, steps).reservations && Run(h, steps).reservations[id].status != Completed
  {
    RunIsLater(h, steps, id);
    RunKeepsInv(h, steps);
    assert OkAt(Run(h, steps), id);
  }

  // ---------------------------------------------------------------------------------------------
  // The service
  // ---------------------------------------------------------------------------------------------

  class ReservationDesk {
    var db: Database
    var reservations: map<ReservationId, Reservation>
    var assignments: map<ReservationId, Assignment>
    var history: map<ReservationId, seq<HistoryRow>>
    var operations: map<(ReservationId, nat), Action>

    ghost function Rows(): Hall
      reads this
    {
      Hall(db, reservations, assignments, history, operations)
    }

    constructor (tables: map<TableId, DiningTable>, orders: map<OrderId, Order>)
      ensures Rows() == Opening(tables, orders) && HallInv(Rows())
    {
      db := Database(tables, orders, map[], map[], map[]);
      reservations, assignments, history, operations := map[], map[], map[], map[];
    }

    method OpenReservationTableSession(r: Reservation, call: OperationCall, sessionId: SessionId)
      returns (error: Option<OperationError>)
      requires call.reservationId in reservations && reservations[call.reservationId] == r
      modifies this`db
      ensures error.Some? ==> OpenForReservation(old(Rows()), call, sessionId) == Err(error.value) && db == old(db)
      ensures error.None? ==> OpenForReservation(old(Rows()), call, sessionId) == Ok(db)
    {
      var id := call.reservationId;
      if id !in assignments || !assignments[id].active || assignments[id].diningTableId.None? {
        return Some(TableMissing);
      }
      if r.tableSessionId.Some? {
        return Some(AlreadyCheckedIn);
      }
      var inserted := InsertSession(db, CheckInInput(r, call, assignments[id].diningTableId.value), sessionId);
      if inserted.Err? {
        return Some(TableOccupied);
      }
      db := inserted.value;
      error := None;
    }

    method AssertTableSessionClosed(tableSessionId: Option<SessionId>) returns (error: Option<OperationError>)
      ensures error.None? <==> (&& tableSessionId.Some? && tableSessionId.value in db.sessions
                                && db.sessions[tableSessionId.value].status == Closed)
      ensures error == Some(TableSessionMissing) <==> tableSessionId.None? || tableSessionId.value !in db.sessions
      ensures error.Some? ==> error.value == TableSessionMissing || error.value == TableSessionStillOpen
    {
      if tableSessionId.None? || tableSessionId.value !in db.sessions {
        return Some(TableSessionMissing);
      }
      if db.sessions[tableSessionId.value].status != Closed {
        return Some(TableSessionStillOpen);
      }
      error := None;
    }

    method ReleaseEventAssignment(id: ReservationId)
      modifies this`assignments
      ensures assignments == Released(old(assignments), id)
      ensures !IsActive(assignments, id) && assignments.Keys == old(assignments).Keys
      ensures forall other :: other in assignments ==>
                && assignments[other].diningTableId == old(assignments)[other].diningTableId
                && (other != id ==> assignments[other] == old(assignments)[other])
    {
      if id in assignments && assignments[id].active {
        assignments := assignments[id := assignments[id].(active := false)];
      }
    }

    method UpdateReservation(id: ReservationId, next: ReservationStatus, tableSessionId: Option<SessionId>)
      requires id in reservations
      modifies this`reservations
      ensures reservations == old(reservations)[id :=
                Moved(old(reservations)[id], next).(
                  tableSessionId :=
                    if tableSessionId.Some? then tableSessionId else old(reservations)[id].tableSessionId)]
    {
      var r := reservations[id].(status := next, version := reservations[id].version + 1);
      if tableSessionId.Some? {
        r := r.(tableSessionId := tableSessionId);
      }
      reservations := reservations[id := r];
    }

    method AppendHistory(id: ReservationId, row: HistoryRow)
      modifies this`history
      ensures history == Appended(old(history), id, row)
    {
      var rows := [];
      if id in history {
        rows := history[id];
      }
      history := history[id := rows + [row]];
    }

    /** The writes every accepted operation ends with. */
    method RecordOperation(call: OperationCall, tableSessionId: Option<SessionId>)
      requires call.reservationId in reservations
      requires tableSessionId.None? ==> reservations[call.reservationId].tableSessionId.None?
      modifies this`reservations, this`assignments, this`history, this`operations
      ensures Rows() == Recorded(old(Rows()), call,
                                 old(reservations)[call.reservationId].(tableSessionId := tableSessionId))
    {
      var id, next := call.reservationId, TransitionTo(call.action);
      var from := reservations[id].status;
      UpdateReservation(id, next, tableSessionId);
      if call.action == Complete || call.action == MarkNoShow {
        ReleaseEventAssignment(id);
      }
      AppendHistory(id, HistoryRow(Some(from), next));
      operations := operations[(id, call.mutationId) := call.action];
    }

    method Apply(call: OperationCall, sessionId: SessionId) returns (result: Result<bool, OperationError>)
      modifies this
      ensures (Rows(), result) == ApplyTx(old(Rows()), call, sessionId)
    {
      var id := call.reservationId;
      if id !in reservations || reservations[id].organizationId != call.organizationId {
        return Err(ReservationNotFound);
      }
      var r := reservations[id];
      if (id, call.mutationId) in operations {
        if operations[(id, call.mutationId)] != call.action {
          return Err(MutationReused);
        }
        return Ok(false);
      }
      if r.version != call.expectedVersion {
        return Err(ReservationVersionConflict);
      }
      if r.status != TransitionFrom(call.action) {
        return Err(OperationNotAllowed);
      }
      var tableSessionId := r.tableSessionId;
      if call.action == CheckIn {
        var error := OpenReservationTableSession(r, call, sessionId);
        if error.Some? {
          return Err(error.value);
        }
        tableSessionId := Some(sessionId);
      }
      if call.action == Complete {
        var error := AssertTableSessionClosed(r.tableSessionId);
        if error.Some? {
          return Err(error.value);
        }
      }
      RecordOperation(call, tableSessionId);
      result := Ok(true);
    }

    /** `expireAvailable`: the rows are selected first, then handled one by one. */
    method ExpireAvailable(due: seq<ReservationId>, limit: nat) returns (count: nat)
      requires HallInv(Rows())
      modifies this`reservations, this`assignments, this`history
      ensures HallInv(Rows())
      ensures Rows() == Next(old(Rows()), ExpireDue(due, limit))
      ensures count == |Limited(SelectPending(old(Rows()), due), limit)|
    {
      ghost var before := Rows();
      var rows := Limited(SelectPending(Hall(db, reservations, assignments, history, operations), due), limit);
      ExpireAllKeepsInv(before, rows);
      count := 0;
      while count < |rows|
        invariant count <= |rows|
        invariant Rows() == ExpireAll(before, rows[..count])
      {
        assert rows[..count + 1][..count] == rows[..count];
        ReleaseEventAssignment(rows[count]);
        if rows[count] in reservations && reservations[rows[count]].status == PendingPayment {
          UpdateReservation(rows[count], Expired, None);
          AppendHistory(rows[count], HistoryRow(Some(PendingPayment), Expired));
        }
        count := count + 1;
      }
      assert rows[..count] == rows;
    }
  }
}
