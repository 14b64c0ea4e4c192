/** What each call on a table session writes, exactly when it is accepted, and which refusal it gets otherwise. */
module TableSessionEffects {
  import opened Wrappers
  import opened JsText
  import opened TableSessions

  // ---------------------------------------------------------------------------------------------
  // Opening
  // ---------------------------------------------------------------------------------------------

  /** No session of the organization holds the table's key. */
  ghost predicate TableFree(db: Database, self: SessionId, organizationId: OrganizationId, tableId: TableId) {
    forall i :: i in db.sessions && i != self && db.sessions[i].activeTableKey.Some? ==>
      !(db.sessions[i].activeTableKey.value.organizationId == organizationId
        && db.sessions[i].activeTableKey.value.tableId == tableId)
  }

  ghost predicate ClientUsed(db: Database, i: OpenInput) {
    exists j :: j in db.sessions && db.sessions[j].organizationId == i.organizationId
      && db.sessions[j].deviceId == i.deviceId && db.sessions[j].clientSessionId == i.clientSessionId
  }

  /** The table named by the input is in service at the organization's location. */
  ghost predicate TableInService(db: Database, i: OpenInput) {
    i.tableId in db.tables && db.tables[i.tableId].active
    && db.tables[i.tableId].organizationId == i.organizationId && db.tables[i.tableId].locationId == i.locationId
  }

  /** The new row: open, at the table and location asked for, keyed by its table, version 1. */
  ghost predicate OpenedAs(s: Session, i: OpenInput) {
    && s.status == Open && s.version == 1
    && s.organizationId == i.organizationId && s.locationId == i.locationId && s.tableId == i.tableId
    && s.deviceId == i.deviceId && s.clientSessionId == i.clientSessionId && s.request == i.request
    && s.guestCount == i.guestCount && s.note == i.note
    && s.activeTableKey.Some? && s.activeTableKey.value.organizationId == i.organizationId
    && s.activeTableKey.value.tableId == i.tableId
  }

  /** The insert of the point of sale and of the check-in. */
  lemma InsertIsRecorded(db: Database, i: OpenInput, id: SessionId)
    ensures var result := InsertSession(db, i, id);
            && (result.Ok? <==>
                  && id !in db.sessions && TableFree(db, id, i.organizationId, i.tableId) && !ClientUsed(db, i))
            && (result.Ok? ==>
                  && result.value == db.(sessions := result.value.sessions)
                  && result.value.sessions.Keys == db.sessions.Keys + {id}
                  && (forall j :: j in db.sessions ==> result.value.sessions[j] == db.sessions[j])
                  && OpenedAs(result.value.sessions[id], i))
            && (result.Err? ==> result.error == TableAlreadyOccupied)
  {
  }

  /** Opening: a new session exactly on a free table in service, for an unused client id. */
  lemma OpeningIsRecorded(db: Database, i: OpenInput, id: SessionId)
    ensures var (db', result) := OpenTx(db, i, id);
            && (result == Ok(true) <==>
                  && TableInService(db, i) && !ClientUsed(db, i)
                  && id !in db.sessions && TableFree(db, id, i.organizationId, i.tableId))
            && (result == Err(TableNotFound) <==> !TableInService(db, i))
            && (result == Err(ClientSessionIdReused) <==>
                  && TableInService(db, i)
                  && exists j :: j in db.sessions && db.sessions[j].organizationId == i.organizationId
                       && db.sessions[j].deviceId == i.deviceId
                       && db.sessions[j].clientSessionId == i.clientSessionId && db.sessions[j].request != i.request)
            && (result != Ok(true) ==> db' == db)
            && (result == Ok(true) ==>
                  && db' == db.(sessions := db'.sessions) && db'.sessions.Keys == db.sessions.Keys + {id}
                  && (forall j :: j in db.sessions ==> db'.sessions[j] == db.sessions[j])
                  && OpenedAs(db'.sessions[id], i))
  {
    InsertIsRecorded(db, i, id);
    assert ClientUsed(db, i) <==> exists j :: j in db.sessions && SameOpen(db.sessions[j], i);
  }

  // ---------------------------------------------------------------------------------------------
  // Changing
  // ---------------------------------------------------------------------------------------------

  ghost predicate UnsettledOrder(db: Database, id: SessionId) {
    exists o :: o in db.attachments && db.attachments[o] == id && o in db.orders
      && db.orders[o].status != OrderPaid && db.orders[o].status != OrderCancelled
  }

  /** What the change asks of the rows it touches. */
  ghost predicate CanChange(db: Database, id: SessionId, change: Change)
    requires id in db.sessions
  {
    var s := db.sessions[id];
    match change
    case Update(guestCount, newNote) => guestCount.Some? || newNote.Some?
    case AttachOrder(o) =>
      && o in db.orders && db.orders[o].organizationId == s.organizationId && db.orders[o].locationId == s.locationId
      && db.orders[o].status in {OrderOpen, OrderHeld} && o !in db.attachments
    case Move(tableId) =>
      && tableId in db.tables && db.tables[tableId].active && db.tables[tableId].organizationId == s.organizationId
      && db.tables[tableId].locationId == s.locationId && TableFree(db, id, s.organizationId, tableId)
    case Close(_) => !UnsettledOrder(db, id)
    case Cancel(_) => !UnsettledOrder(db, id)
  }

  /** What the change leaves on the session, on the order it attaches, and nowhere else. */
  ghost predicate Changed(db: Database, db': Database, id: SessionId, change: Change)
    requires id in db.sessions && id in db'.sessions
  {
    var s, s' := db.sessions[id], db'.sessions[id];
    match change
    case Update(guestCount, newNote) =>
      && db'.orders == db.orders && db'.attachments == db.attachments
      && s'.guestCount == (if guestCount.Some? then guestCount.value else s.guestCount)
      && (newNote.None? ==> s'.note == s.note)
      && (newNote.Some? ==> s'.note == if Trim(newNote.value) == "" then None else Some(Trim(newNote.value)))
      && s' == s.(guestCount := s'.guestCount, note := s'.note, version := s'.version)
    case AttachOrder(o) =>
      && s' == s.(version := s'.version)
      && db'.attachments.Keys == db.attachments.Keys + {o} && db'.attachments[o] == id
      && (forall p :: p in db.attachments && p != o ==> db'.attachments[p] == db.attachments[p])
      && o in db.orders && db'.orders.Keys == db.orders.Keys
      && (forall p :: p in db.orders && p != o ==> db'.orders[p] == db.orders[p])
      && db'.orders[o].tableService
      && db'.orders[o].version == db.orders[o].version + (if db.orders[o].tableService then 0 else 1)
      && db'.orders[o] == db.orders[o].(tableService := true, version := db'.orders[o].version)
    case Move(tableId) =>
      && db'.orders == db.orders && db'.attachments == db.attachments
      && s'.tableId == tableId && s'.activeTableKey == Some(ActiveTableKey(s.organizationId, tableId))
      && s' == s.(tableId := tableId, activeTableKey := s'.activeTableKey, version := s'.version)
    case Close(_) =>
      && db'.orders == db.orders && db'.attachments == db.attachments
      && s' == s.(status := Closed, activeTableKey := None, version := s'.version)
    case Cancel(_) =>
      && db'.orders == db.orders && db'.attachments == db.attachments
      && s' == s.(status := Cancelled, activeTableKey := None, version := s'.version)
  }

  ghost predicate Found(db: Database, call: Call) {
    call.sessionId in db.sessions && db.sessions[call.sessionId].organizationId == call.key.organizationId
  }

  lemma FreeIsFree(db: Database, self: SessionId, organizationId: OrganizationId, tableId: TableId)
    ensures KeyFree(db.sessions, self, ActiveTableKey(organizationId, tableId))
            <==> TableFree(db, self, organizationId, tableId)
  {
  }

  lemma WorkAccepted(db: Database, call: Call)
    requires Found(db, call) && db.sessions[call.sessionId].status == Open
    ensures Precheck(db, call).None? && Work(db, call.sessionId, call.change).Ok? <==>
              CanChange(db, call.sessionId, call.change)
  {
    assert AllOrdersSettled(db, call.sessionId) <==> !UnsettledOrder(db, call.sessionId);
    if call.change.Move? {
      FreeIsFree(db, call.sessionId, db.sessions[call.sessionId].organizationId, call.change.tableId);
    }
  }

  lemma WorkChanges(db: Database, id: SessionId, change: Change)
    requires id in db.sessions && db.sessions[id].status == Open && Work(db, id, change).Ok?
    ensures var db' := Work(db, id, change).value;
            && db'.sessions.Keys == db.sessions.Keys && db'.tables == db.tables && db'.mutations == db.mutations
            && (forall i :: i in db.sessions && i != id ==> db'.sessions[i] == db.sessions[i])
            && db'.sessions[id].version == db.sessions[id].version + 1
            && Changed(db, db', id, change)
  {
  }

  /** Everything a performed mutation leaves. */
  ghost predicate Performed(db: Database, db': Database, call: Call)
    requires call.sessionId in db.sessions
  {
    var id := call.sessionId;
    && db'.sessions.Keys == db.sessions.Keys && db'.tables == db.tables
    && (forall i :: i in db.sessions && i != id ==> db'.sessions[i] == db.sessions[i])
    && db'.sessions[id].version == db.sessions[id].version + 1
    && Changed(db, db', id, call.change)
    && db'.mutations == db.mutations[call.key := MutationRow(id, call.change, db.sessions[id].version + 1)]
  }

  /**
   * A mutation leaves its change, one version further, on record under its key: exactly if nothing speaks against it.
   */
  lemma MutationIsRecorded(db: Database, call: Call)
    ensures var (db', result) := MutateTx(db, call);
            && (result == Ok(true) <==>
                  && Found(db, call) && call.key !in db.mutations && db.sessions[call.sessionId].status == Open
                  && db.sessions[call.sessionId].version == call.expectedVersion
                  && CanChange(db, call.sessionId, call.change))
            && (result != Ok(true) ==> db' == db)
            && (result == Ok(true) ==> Performed(db, db', call))
  {
    if Found(db, call) && db.sessions[call.sessionId].status == Open {
      WorkAccepted(db, call);
      if Work(db, call.sessionId, call.change).Ok? {
        WorkChanges(db, call.sessionId, call.change);
        var worked := Work(db, call.sessionId, call.change).value;
        if MutateTx(db, call).1 == Ok(true) {
          ChangedKeepsRecord(db, worked, MutateTx(db, call).0, call.sessionId, call.change);
        }
      }
    }
  }

  /** The change is about sessions, orders and attachments, whatever the mutation table says. */
  lemma ChangedKeepsRecord(db: Database, worked: Database, db': Database, id: SessionId, change: Change)
    requires id in db.sessions && id in worked.sessions && Changed(db, worked, id, change)
    requires db' == worked.(mutations := db'.mutations)
    ensures Changed(db, db', id, change)
  {
  }

  /** Which refusal the frame gives, each exactly in its case; `early` is what the entry points check first. */
  lemma RefusalsOfTheFrame(db: Database, call: Call)
    ensures var result := MutateTx(db, call).1;
            var early :=
              || (call.change.Update? && call.change.guestCount.None? && call.change.newNote.None?)
              || (call.change.Move?
                  && !(&& call.change.tableId in db.tables && db.tables[call.change.tableId].active
                       && db.tables[call.change.tableId].organizationId == call.key.organizationId));
            && (early <==> result == Err(UpdateEmpty) || result == Err(TableNotFound))
            && (result == Err(UpdateEmpty) ==> call.change.Update?)
            && (result == Err(TableNotFound) ==> call.change.Move?)
            && (result == Err(SessionNotFound) <==> !early && !Found(db, call))
            && (result == Err(MutationIdReused) <==>
                  !early && Found(db, call) && call.key in db.mutations && db.mutations[call.key].change != call.change)
            && (result == Ok(false) <==>
                  !early && Found(db, call) && call.key in db.mutations && db.mutations[call.key].change == call.change)
            && (result == Err(SessionNotOpen) <==>
                  !early && Found(db, call) && call.key !in db.mutations && db.sessions[call.sessionId].status != Open)
            && (result == Err(VersionConflict) <==>
                  && !early && Found(db, call) && call.key !in db.mutations
                  && db.sessions[call.sessionId].status == Open
                  && db.sessions[call.sessionId].version != call.expectedVersion)
  {
  }

  /** Which refusal the change itself gives, once the frame let it through. */
  lemma RefusalsOfTheChange(db: Database, call: Call)
    requires Found(db, call) && call.key !in db.mutations && db.sessions[call.sessionId].status == Open
    requires db.sessions[call.sessionId].version == call.expectedVersion
    ensures var result, s := MutateTx(db, call).1, db.sessions[call.sessionId];
            && (result == Err(OrderNotFound) <==>
                  call.change.AttachOrder?
                  && var o := call.change.orderId;
                     !(o in db.orders && db.orders[o].organizationId == s.organizationId
                       && db.orders[o].locationId == s.locationId))
            && (result == Err(OrderAlreadyAttached) ==>
                  call.change.AttachOrder? && call.change.orderId in db.attachments)
            && (result == Err(OrderNotAttachable) ==>
                  && call.change.AttachOrder? && call.change.orderId in db.orders
                  && db.orders[call.change.orderId].status !in {OrderOpen, OrderHeld})
            && (result == Err(TableLocationMismatch) ==>
                  call.change.Move? && call.change.tableId in db.tables
                  && db.tables[call.change.tableId].locationId != s.locationId)
            && (result == Err(TableAlreadyOccupied) ==>
                  call.change.Move? && !TableFree(db, call.sessionId, s.organizationId, call.change.tableId))
            && (result == Err(HasOpenOrders) <==>
                  (call.change.Close? || call.change.Cancel?) && UnsettledOrder(db, call.sessionId))
  {
    assert AllOrdersSettled(db, call.sessionId) <==> !UnsettledOrder(db, call.sessionId);
    if call.change.Move? {
      FreeIsFree(db, call.sessionId, db.sessions[call.sessionId].organizationId, call.change.tableId);
    }
  }
}
