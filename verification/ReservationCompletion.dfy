/**
 * Which parties at their table can still be completed: exactly those whose session was not cancelled. The runs that
 * complete one settle its orders, close the session, seat the party if need be, and complete.
 */
module ReservationCompletion {
  import opened Wrappers
  import opened TableSessions
  import opened Reservations
  import opened ReservationSafety

  // ---------------------------------------------------------------------------------------------
  // Composing runs
  // ---------------------------------------------------------------------------------------------

  lemma RunOne(h: Hall, step: Step)
    ensures Run(h, [step]) == Next(h, step)
  {
    assert [step][..0] == [];
    assert Run(h, []) == h;
  }

  lemma {:induction false} RunConcat(h: Hall, a: seq<Step>, b: seq<Step>)
    ensures Run(h, a + b) == Run(Run(h, a), b)
  {
    if b == [] {
      assert a + b == a;
    } else {
      RunConcat(h, a, b[..|b| - 1]);
      assert (a + b)[..|a + b| - 1] == a + b[..|b| - 1];
    }
  }

  lemma {:induction false} Unused(s: set<nat>) returns (n: nat)
    ensures forall x :: x in s ==> x < n
  {
    n := 0;
    if s != {} {
      var y :| y in s;
      var m := Unused(s - {y});
      n := if y < m then m else y + 1;
      forall x | x in s
        ensures x < n
      {
        assert x != y ==> x in s - {y};
      }
    }
  }

  // ---------------------------------------------------------------------------------------------
  // Settling the orders
  // ---------------------------------------------------------------------------------------------

  /** An open or held order can be cancelled, one that awaits payment can be paid. */
  function Settling(status: OrderStatus): (r: OrderStatus)
    ensures Settled(r)
  {
    if status == AwaitingPayment then OrderPaid else OrderCancelled
  }

  ghost function Unsettled(db: Database, id: SessionId): set<OrderId> {
    set o | o in db.attachments && db.attachments[o] == id && o in db.orders && !Settled(db.orders[o].status)
  }

  lemma SettleOne(h: Hall, id: SessionId, o: OrderId)
    requires o in Unsettled(h.db, id)
    ensures var h' := Next(h, OrderProgress(o, Settling(h.db.orders[o].status)));
            h' == h.(db := h.db.(orders := h'.db.orders)) && Unsettled(h'.db, id) == Unsettled(h.db, id) - {o}
  {
  }

  /** Every order of the session can be settled, nothing else changing. */
  lemma {:induction false} SettleOrders(h: Hall, id: SessionId) returns (steps: seq<Step>)
    ensures var h' := Run(h, steps);
            h' == h.(db := h.db.(orders := h'.db.orders)) && AllOrdersSettled(h'.db, id)
    decreases Unsettled(h.db, id)
  {
    if Unsettled(h.db, id) == {} {
      steps := [];
      forall o | o in h.db.attachments && h.db.attachments[o] == id && o in h.db.orders
        ensures Settled(h.db.orders[o].status)
      {
        assert o !in Unsettled(h.db, id);
      }
    } else {
      var o :| o in Unsettled(h.db, id);
      var step := OrderProgress(o, Settling(h.db.orders[o].status));
      SettleOne(h, id, o);
      var rest := SettleOrders(Next(h, step), id);
      steps := [step] + rest;
      RunOne(h, step);
      RunConcat(h, [step], rest);
    }
  }

  // ---------------------------------------------------------------------------------------------
  // Closing, seating, completing
  // ---------------------------------------------------------------------------------------------

  /** Everything but the session tables is as it was. */
  ghost predicate SameReservations(h: Hall, h': Hall) {
    h' == h.(db := h'.db)
  }

  lemma CloseNow(h: Hall, id: SessionId) returns (step: Step)
    requires id in h.db.sessions && h.db.sessions[id].status == Open && AllOrdersSettled(h.db, id)
    ensures var h' := Next(h, step);
            SameReservations(h, h') && id in h'.db.sessions && h'.db.sessions[id].status == Closed
  {
    var s := h.db.sessions[id];
    var key := FreshKey(h.db.mutations, s.organizationId, s.deviceId);
    step := MutateAtPos(Call(key, id, s.version, Close(None)));
    ClosesWith(h.db, id, key);
  }

  lemma FreshKey(mutations: map<MutationKey, MutationRow>, organizationId: OrganizationId, deviceId: DeviceId)
    returns (key: MutationKey)
    ensures key !in mutations && key.organizationId == organizationId
  {
    var used := set k | k in mutations :: k.mutationId;
    var n := Unused(used);
    key := MutationKey(organizationId, deviceId, n);
    assert key in mutations ==> n in used;
  }

  lemma ClosesWith(db: Database, id: SessionId, key: MutationKey)
    requires id in db.sessions && db.sessions[id].status == Open && AllOrdersSettled(db, id)
    requires key !in db.mutations && key.organizationId == db.sessions[id].organizationId
    ensures var db' := MutateTx(db, Call(key, id, db.sessions[id].version, Close(None))).0;
            id in db'.sessions && db'.sessions[id].status == Closed
  {
    assert Work(db, id, Close(None)).Ok?;
  }

  /** An open session can be closed. */
  lemma CloseSession(h: Hall, id: SessionId) returns (steps: seq<Step>)
    requires id in h.db.sessions && h.db.sessions[id].status == Open
    ensures var h' := Run(h, steps);
            SameReservations(h, h') && id in h'.db.sessions && h'.db.sessions[id].status == Closed
  {
    var settle := SettleOrders(h, id);
    var settled := Run(h, settle);
    var close := CloseNow(settled, id);
    steps := settle + [close];
    RunConcat(h, settle, [close]);
    RunOne(settled, close);
  }

  /** A fresh operation at the current version. */
  lemma FreshCall(h: Hall, id: ReservationId, action: Action) returns (call: OperationCall)
    requires id in h.reservations
    ensures call == OperationCall(h.reservations[id].organizationId, 0, id, action, call.mutationId,
                                  h.reservations[id].version)
    ensures (id, call.mutationId) !in h.operations
  {
    var used := set key | key in h.operations :: key.1;
    var n := Unused(used);
    assert (id, n) in h.operations ==> (id, n).1 in used;
    call := OperationCall(h.reservations[id].organizationId, 0, id, action, n, h.reservations[id].version);
  }

  lemma SeatNow(h: Hall, id: ReservationId) returns (step: Step)
    requires id in h.reservations && h.reservations[id].status == CheckedIn
    ensures var h' := Next(h, step);
            && h'.db == h.db && id in h'.reservations && h'.reservations[id].status == Seated
            && h'.reservations[id].tableSessionId == h.reservations[id].tableSessionId
  {
    var call := FreshCall(h, id, Seat);
    step := Operate(call, 0);
    assert ApplyTx(h, call, 0).1 == Ok(true);
  }

  lemma CompleteNow(h: Hall, id: ReservationId) returns (step: Step)
    requires id in h.reservations && h.reservations[id].status == Seated
    requires var s := h.reservations[id].tableSessionId;
             s.Some? && s.value in h.db.sessions && h.db.sessions[s.value].status == Closed
    ensures CompletedIn(Next(h, step), id)
  {
    var call := FreshCall(h, id, Complete);
    step := Operate(call, 0);
    assert SessionForCompletion(h, h.reservations[id]).None?;
    assert ApplyTx(h, call, 0).1 == Ok(true);
  }

  predicate CompletedIn(h: Hall, id: ReservationId) {
    id in h.reservations && h.reservations[id].status == Completed
  }

  lemma FinishWhenClosed(h: Hall, id: ReservationId) returns (steps: seq<Step>)
    requires id in h.reservations && (h.reservations[id].status == CheckedIn || h.reservations[id].status == Seated)
    requires var s := h.reservations[id].tableSessionId;
             s.Some? && s.value in h.db.sessions && h.db.sessions[s.value].status == Closed
    ensures CompletedIn(Run(h, steps), id)
  {
    if h.reservations[id].status == Seated {
      var complete := CompleteNow(h, id);
      steps := [complete];
      RunOne(h, complete);
    } else {
      var seat := SeatNow(h, id);
      var complete := CompleteNow(Next(h, seat), id);
      steps := [seat] + [complete];
      RunOne(h, seat);
      RunConcat(h, [seat], [complete]);
      RunOne(Next(h, seat), complete);
    }
  }

  lemma Completable(h: Hall, id: ReservationId) returns (steps: seq<Step>)
    requires id in h.reservations && (h.reservations[id].status == CheckedIn || h.reservations[id].status == Seated)
    requires var s := h.reservations[id].tableSessionId;
             s.Some? && s.value in h.db.sessions && h.db.sessions[s.value].status != Cancelled
    ensures CompletedIn(Run(h, steps), id)
  {
    var s := h.reservations[id].tableSessionId.value;
    if h.db.sessions[s].status == Closed {
      steps := FinishWhenClosed(h, id);
    } else {
      var close := CloseSession(h, s);
      var finish := FinishWhenClosed(Run(h, close), id);
      steps := close + finish;
      RunConcat(h, close, finish);
    }
  }

  /** Some continuation completes the reservation. */
  ghost predicate CanComplete(h: Hall, id: ReservationId) {
    exists steps :: CompletedIn(Run(h, steps), id)
  }

  /**
   * A party at its table can be completed exactly when the point of sale has not cancelled its session: a cancelled
   * one is a dead end, and from every other state some run completes the reservation.
   */
  lemma CompletableExactlyWhen(h: Hall, id: ReservationId)
    requires HallInv(h) && id in h.reservations
    requires h.reservations[id].status == CheckedIn || h.reservations[id].status == Seated
    ensures h.reservations[id].tableSessionId.Some? && h.reservations[id].tableSessionId.value in h.db.sessions
    ensures CanComplete(h, id) <==>
              h.db.sessions[h.reservations[id].tableSessionId.value].status != Cancelled
  {
    assert OkAt(h, id);
    if h.db.sessions[h.reservations[id].tableSessionId.value].status != Cancelled {
      var steps := Completable(h, id);
      assert CompletedIn(Run(h, steps), id);
    } else {
      forall steps
        ensures !CompletedIn(Run(h, steps), id)
      {
        CancelledSessionNeverCompletes(h, steps, id);
      }
    }
  }

  // ---------------------------------------------------------------------------------------------
  // Both failures are reachable
  // ---------------------------------------------------------------------------------------------

  function Room(): map<TableId, DiningTable> {
    map[1 := DiningTable(0, 0, true), 2 := DiningTable(0, 0, true)]
  }

  /** A paid reservation is let in, and the point of sale cancels its session. */
  function CancelledAtTable(): seq<Step> {
    [Create(7, 0, 0, 2, true, Some(1)),
     Operate(OperationCall(0, 0, 7, CheckIn, 1, 1), 3),
     MutateAtPos(Call(MutationKey(0, 0, 2), 3, 1, Cancel(None)))]
  }

  lemma RunThree(h: Hall, a: Step, b: Step, c: Step)
    ensures Run(h, [a, b, c]) == Next(Next(Next(h, a), b), c)
  {
    assert [a, b, c] == [a] + ([b] + [c]);
    RunConcat(h, [a], [b] + [c]);
    RunConcat(Next(h, a), [b], [c]);
    RunOne(h, a);
    RunOne(Next(h, a), b);
    RunOne(Next(Next(h, a), b), c);
  }

  lemma CheckedInHall(h: Hall)
    requires h == Next(Next(Opening(Room(), map[]), CancelledAtTable()[0]), CancelledAtTable()[1])
    ensures 7 in h.reservations && h.reservations[7].status == CheckedIn && h.reservations[7].tableSessionId == Some(3)
    ensures h.db.orders == map[] && h.db.attachments == map[] && h.db.mutations == map[]
    ensures 3 in h.db.sessions && h.db.sessions[3].status == Open && h.db.sessions[3].version == 1
            && h.db.sessions[3].organizationId == 0
  {
    var made := Next(Opening(Room(), map[]), CancelledAtTable()[0]);
    assert made.reservations[7] == Reservation(0, 0, Confirmed, 2, None, 1);
    assert made.assignments[7] == Assignment(Some(1), true);
    assert ApplyTx(made, OperationCall(0, 0, 7, CheckIn, 1, 1), 3).1 == Ok(true);
  }

  /** The dead end is reached from the opening in three steps, and no continuation leads out of it. */
  lemma DeadEndIsReached(more: seq<Step>)
    ensures var h := Evening(Room(), map[], CancelledAtTable());
            && 7 in h.reservations && h.reservations[7].status == CheckedIn
               && h.reservations[7].tableSessionId == Some(3)
            && 3 in h.db.sessions && h.db.sessions[3].status == Cancelled
            && !CompletedIn(Run(h, more), 7)
  {
    var steps := CancelledAtTable();
    var h0 := Opening(Room(), map[]);
    var h2 := Next(Next(h0, steps[0]), steps[1]);
    RunThree(h0, steps[0], steps[1], steps[2]);
    assert steps == [steps[0], steps[1], steps[2]];
    CheckedInHall(h2);
    CancelsIt(h2);
    var h := Evening(Room(), map[], steps);
    EveningKeepsInv(Room(), map[], steps);
    CancelledSessionNeverCompletes(h, more, 7);
  }

  lemma CancelsIt(h: Hall)
    requires 3 in h.db.sessions && h.db.sessions[3].status == Open && h.db.sessions[3].version == 1
             && h.db.sessions[3].organizationId == 0
    requires h.db.attachments == map[] && h.db.mutations == map[]
    ensures var h' := Next(h, CancelledAtTable()[2]);
            SameReservations(h, h') && 3 in h'.db.sessions && h'.db.sessions[3].status == Cancelled
  {
    var call := Call(MutationKey(0, 0, 2), 3, 1, Cancel(None));
    assert AllOrdersSettled(h.db, 3);
    assert MutateTx(h.db, call).1 == Ok(true);
  }

  /** Two tables are opened and the first session is closed under mutation id 9. */
  function FirstTableClosed(): seq<Step> {
    [OpenAtPos(OpenInput(0, 0, 1, 1, 0, 2, None, PosRequest(1, 2, None)), 1),
     OpenAtPos(OpenInput(0, 0, 2, 2, 0, 2, None, PosRequest(2, 2, None)), 2),
     MutateAtPos(Call(MutationKey(0, 0, 9), 1, 1, Close(None)))]
  }

  lemma TwoOpenSessions(h: Hall)
    requires h == Next(Next(Opening(Room(), map[]), FirstTableClosed()[0]), FirstTableClosed()[1])
    ensures h.db.attachments == map[] && h.db.mutations == map[] && h.db.sessions.Keys == {1, 2}
    ensures forall id :: id in h.db.sessions ==>
              h.db.sessions[id].status == Open && h.db.sessions[id].version == 1
                && h.db.sessions[id].organizationId == 0
  {
    var first := Next(Opening(Room(), map[]), FirstTableClosed()[0]);
    assert first.db.sessions.Keys == {1};
    assert first.db.sessions[1].activeTableKey == Some(ActiveTableKey(0, 1));
  }

  lemma ClosesFirst(h: Hall)
    requires h.db.attachments == map[] && h.db.mutations == map[] && h.db.sessions.Keys == {1, 2}
    requires forall id :: id in h.db.sessions ==>
               h.db.sessions[id].status == Open && h.db.sessions[id].version == 1
                 && h.db.sessions[id].organizationId == 0
    ensures var db, key := Next(h, FirstTableClosed()[2]).db, MutationKey(0, 0, 9);
            && db.sessions.Keys == {1, 2} && db.sessions[2] == h.db.sessions[2] && db.sessions[1].status == Closed
            && key in db.mutations && db.mutations[key] == MutationRow(1, Close(None), 2)
  {
    var call := Call(MutationKey(0, 0, 9), 1, 1, Close(None));
    assert 1 in h.db.sessions && AllOrdersSettled(h.db, 1);
    assert MutateTx(h.db, call).1 == Ok(true);
  }

  /**
   * Reached from the opening: closing the second session under the id that closed the first is answered with success,
   * nothing changes, the second session stays open, and the record on file is the first session's.
   */
  lemma RepetitionOnAnotherSession()
    ensures var db := Evening(Room(), map[], FirstTableClosed()).db;
            var call := Call(MutationKey(0, 0, 9), 2, 1, Close(None));
            && MutateTx(db, call) == (db, Ok(false))
            && 2 in db.sessions && db.sessions[2].status == Open
            && call.key in db.mutations && db.mutations[call.key].sessionId == 1 && !OnRecord(db, call)
  {
    var steps := FirstTableClosed();
    var h0 := Opening(Room(), map[]);
    var h2 := Next(Next(h0, steps[0]), steps[1]);
    RunThree(h0, steps[0], steps[1], steps[2]);
    assert steps == [steps[0], steps[1], steps[2]];
    TwoOpenSessions(h2);
    ClosesFirst(h2);
    assert 2 in h2.db.sessions;
  }
}
