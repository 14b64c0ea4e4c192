/**
 * Table sessions: versioned, idempotent mutations over the session, order and mutation rows.
 * The active-table key, unique per organization, is what keeps a table from being opened twice.
 */
module TableSessions {
  import opened Wrappers
  import opened JsText

  type OrganizationId = nat
  type LocationId = nat
  type TableId = nat
  type DeviceId = nat
  type OrderId(==, !new, 0) = nat
  type SessionId(==, !new, 0) = nat

  datatype SessionStatus = Open | Closed | Cancelled

  /** `organization:table`; the text form is injective because identifiers contain no colon. */
  datatype ActiveTableKey = ActiveTableKey(organizationId: OrganizationId, tableId: TableId)

  /** What the request hash of an opened session covers. */
  datatype OpenRequest =
    | PosRequest(tableId: TableId, guestCount: nat, note: Option<string>)
    | CheckInRequest(reservationId: nat, tableId: TableId, guestCount: nat)

  datatype Session = Session(
    organizationId: OrganizationId, locationId: LocationId, tableId: TableId,
    deviceId: DeviceId, clientSessionId: nat, request: OpenRequest, status: SessionStatus,
    guestCount: nat, note: Option<string>, activeTableKey: Option<ActiveTableKey>, version: nat)

  datatype OrderStatus = OrderOpen | OrderHeld | AwaitingPayment | OrderPaid | OrderCancelled

  datatype Order = Order(organizationId: OrganizationId, locationId: LocationId, status: OrderStatus,
                         tableService: bool, version: nat)

  datatype DiningTable = DiningTable(organizationId: OrganizationId, locationId: LocationId, active: bool)

  /**
   * The operation and payload of a mutation: what its request hash covers, the hash being injective. A note is hashed
   * as it was sent and trimmed only for the row.
   */
  datatype Change =
    | Update(guestCount: Option<nat>, newNote: Option<string>)
    | AttachOrder(orderId: OrderId)
    | Move(tableId: TableId)
    | Close(reason: Option<string>)
    | Cancel(reason: Option<string>)

  datatype MutationKey = MutationKey(organizationId: OrganizationId, deviceId: DeviceId, mutationId: nat)

  datatype MutationRow = MutationRow(sessionId: SessionId, change: Change, responseVersion: nat)

  datatype Database = Database(
    tables: map<TableId, DiningTable>,
    orders: map<OrderId, Order>,
    sessions: map<SessionId, Session>,
    attachments: map<OrderId, SessionId>,
    mutations: map<MutationKey, MutationRow>)

  datatype SessionError =
    | TableNotFound | ClientSessionIdReused | TableAlreadyOccupied | SessionNotFound | MutationIdReused
    | SessionNotOpen | VersionConflict | UpdateEmpty | OrderNotFound | OrderNotAttachable | OrderAlreadyAttached
    | TableLocationMismatch | HasOpenOrders

  // ---------------------------------------------------------------------------------------------
  // Opening
  // ---------------------------------------------------------------------------------------------

  /** The two unique indexes on sessions, for a row about to be written under `self`. */
  predicate KeyFree(sessions: map<SessionId, Session>, self: SessionId, key: ActiveTableKey) {
    forall id :: id in sessions && id != self ==> sessions[id].activeTableKey != Some(key)
  }

  predicate ClientIdFree(sessions: map<SessionId, Session>, organizationId: OrganizationId, deviceId: DeviceId,
                         clientSessionId: nat)
  {
    forall id :: id in sessions ==>
      !(sessions[id].organizationId == organizationId && sessions[id].deviceId == deviceId
        && sessions[id].clientSessionId == clientSessionId)
  }

  datatype OpenInput = OpenInput(
    organizationId: OrganizationId, deviceId: DeviceId, clientSessionId: nat, tableId: TableId,
    locationId: LocationId, guestCount: nat, note: Option<string>, request: OpenRequest)

  function NewSession(i: OpenInput): Session {
    Session(i.organizationId, i.locationId, i.tableId, i.deviceId, i.clientSessionId, i.request, Open, i.guestCount,
            i.note, Some(ActiveTableKey(i.organizationId, i.tableId)), 1)
  }

  /** The insert both writers share: the point of sale and the reservation check-in. */
  function InsertSession(db: Database, i: OpenInput, id: SessionId): Result<Database, SessionError> {
    if id in db.sessions || !KeyFree(db.sessions, id, ActiveTableKey(i.organizationId, i.tableId))
       || !ClientIdFree(db.sessions, i.organizationId, i.deviceId, i.clientSessionId)
    then Err(TableAlreadyOccupied)
    else Ok(db.(sessions := db.sessions[id := NewSession(i)]))
  }

  predicate SameOpen(s: Session, i: OpenInput) {
    s.organizationId == i.organizationId && s.deviceId == i.deviceId && s.clientSessionId == i.clientSessionId
  }

  /** `openSession`: Ok(true) opened a session, Ok(false) found the one already opened by the same request. */
  function OpenTx(db: Database, i: OpenInput, id: SessionId): (Database, Result<bool, SessionError>) {
    if i.tableId !in db.tables || db.tables[i.tableId].organizationId != i.organizationId
       || !db.tables[i.tableId].active
       || db.tables[i.tableId].locationId != i.locationId
    then (db, Err(TableNotFound))
    else if exists j :: j in db.sessions && SameOpen(db.sessions[j], i) then
      (db, if forall j :: j in db.sessions && SameOpen(db.sessions[j], i) ==> db.sessions[j].request == i.request
           then Ok(false) else Err(ClientSessionIdReused))
    else
      match InsertSession(db, i, id)
      case Ok(db') => (db', Ok(true))
      case Err(error) => (db, Err(error))
  }

  // ---------------------------------------------------------------------------------------------
  // Mutations
  // ---------------------------------------------------------------------------------------------

  predicate Settled(status: OrderStatus) {
    status == OrderPaid || status == OrderCancelled
  }

  predicate AllOrdersSettled(db: Database, id: SessionId) {
    forall o :: o in db.attachments && db.attachments[o] == id && o in db.orders ==> Settled(db.orders[o].status)
  }

  function WithSession(db: Database, id: SessionId, s: Session): Database {
    db.(sessions := db.sessions[id := s])
  }

  function Bumped(s: Session): Session {
    s.(version := s.version + 1)
  }

  function NoteOf(sent: string): Option<string> {
    if Trim(sent) == "" then None else Some(Trim(sent))
  }

  function Work(db: Database, id: SessionId, change: Change): Result<Database, SessionError>
    requires id in db.sessions
  {
    var s := db.sessions[id];
    match change
    case Update(guestCount, newNote) =>
      Ok(WithSession(db, id, Bumped(s).(
        guestCount := if guestCount.Some? then guestCount.value else s.guestCount,
        note := if newNote.Some? then NoteOf(newNote.value) else s.note)))
    case AttachOrder(orderId) =>
      if orderId !in db.orders || db.orders[orderId].organizationId != s.organizationId
         || db.orders[orderId].locationId != s.locationId then Err(OrderNotFound)
      else if db.orders[orderId].status != OrderOpen && db.orders[orderId].status != OrderHeld
      then Err(OrderNotAttachable)
      else if orderId in db.attachments then Err(OrderAlreadyAttached)
      else
        var o := db.orders[orderId];
        var o' := if o.tableService then o else o.(tableService := true, version := o.version + 1);
        Ok(WithSession(db, id, Bumped(s)).(
          orders := db.orders[orderId := o'], attachments := db.attachments[orderId := id]))
    case Move(tableId) =>
      if tableId !in db.tables || db.tables[tableId].locationId != s.locationId then Err(TableLocationMismatch)
      else if !KeyFree(db.sessions, id, ActiveTableKey(s.organizationId, tableId)) then Err(TableAlreadyOccupied)
      else Ok(WithSession(db, id, Bumped(s).(
        tableId := tableId, activeTableKey := Some(ActiveTableKey(s.organizationId, tableId)))))
    case Close(_) => Finish(db, id, Closed)
    case Cancel(_) => Finish(db, id, Cancelled)
  }

  function Finish(db: Database, id: SessionId, next: SessionStatus): Result<Database, SessionError>
    requires id in db.sessions
  {
    var s := db.sessions[id];
    if s.status != Open then Err(SessionNotOpen)
    else if !AllOrdersSettled(db, id) then Err(HasOpenOrders)
    else Ok(WithSession(db, id, Bumped(s).(status := next, activeTableKey := None)))
  }

  datatype Call = Call(key: MutationKey, sessionId: SessionId, expectedVersion: nat, change: Change)

  /** What the entry points check before the transaction begins. */
  function Precheck(db: Database, call: Call): Option<SessionError> {
    match call.change
    case Update(guestCount, newNote) => if guestCount.None? && newNote.None? then Some(UpdateEmpty) else None
    case Move(tableId) =>
      if tableId !in db.tables || db.tables[tableId].organizationId != call.key.organizationId
         || !db.tables[tableId].active
      then Some(TableNotFound) else None
    case _ => None
  }

  /** `mutateSession`: Ok(true) changed the session, Ok(false) recognised a repetition. */
  function MutateTx(db: Database, call: Call): (Database, Result<bool, SessionError>) {
    var id := call.sessionId;
    if Precheck(db, call).Some? then (db, Err(Precheck(db, call).value))
    else if id !in db.sessions || db.sessions[id].organizationId != call.key.organizationId
    then (db, Err(SessionNotFound))
    else if call.key in db.mutations then
      (db, if db.mutations[call.key].change != call.change then Err(MutationIdReused) else Ok(false))
    else if db.sessions[id].status != Open then (db, Err(SessionNotOpen))
    else if db.sessions[id].version != call.expectedVersion then (db, Err(VersionConflict))
    else
      match Work(db, id, call.change)
      case Err(error) => (db, Err(error))
      case Ok(db') =>
        (db'.(mutations := db'.mutations[call.key := MutationRow(id, call.change, db.sessions[id].version + 1)]),
         Ok(true))
  }

  // ---------------------------------------------------------------------------------------------
  // The invariant
  // ---------------------------------------------------------------------------------------------

  ghost function MutationsOf(mutations: map<MutationKey, MutationRow>, id: SessionId): set<MutationKey> {
    set key | key in mutations && mutations[key].sessionId == id
  }

  /** The key is set exactly while the session is open, and names its current table. */
  ghost predicate KeyNamesTable(s: Session) {
    s.activeTableKey == if s.status == Open then Some(ActiveTableKey(s.organizationId, s.tableId)) else None
  }

  ghost predicate SessionOk(id: SessionId, s: Session, mutations: map<MutationKey, MutationRow>) {
    KeyNamesTable(s) && s.version == 1 + |MutationsOf(mutations, id)|
  }

  ghost predicate KeysUnique(sessions: map<SessionId, Session>) {
    forall i, j :: (i in sessions && j in sessions && sessions[i].activeTableKey.Some?
                    && sessions[i].activeTableKey == sessions[j].activeTableKey) ==> i == j
  }

  ghost predicate Inv(db: Database) {
    && (forall id {:trigger SessionOk(id, db.sessions[id], db.mutations)} ::
          id in db.sessions ==> SessionOk(id, db.sessions[id], db.mutations))
    && KeysUnique(db.sessions)
    && (forall key :: key in db.mutations ==> db.mutations[key].sessionId in db.sessions)
    && (forall o :: o in db.attachments ==> db.attachments[o] in db.sessions)
  }

  /** Each table of an organization has at most one open session. */
  lemma OneOpenSessionPerTable(db: Database, i: SessionId, j: SessionId)
    requires Inv(db) && i in db.sessions && j in db.sessions
    requires db.sessions[i].status == Open && db.sessions[j].status == Open
    requires db.sessions[i].organizationId == db.sessions[j].organizationId
    requires db.sessions[i].tableId == db.sessions[j].tableId
    ensures i == j
  {
    assert SessionOk(i, db.sessions[i], db.mutations) && SessionOk(j, db.sessions[j], db.mutations);
  }

  lemma InsertKeepsInv(db: Database, i: OpenInput, id: SessionId)
    requires Inv(db)
    ensures InsertSession(db, i, id).Ok? ==>
              Inv(InsertSession(db, i, id).value) && id !in db.sessions
              && InsertSession(db, i, id).value == db.(sessions := db.sessions[id := NewSession(i)])
  {
    if InsertSession(db, i, id).Ok? {
      var db' := InsertSession(db, i, id).value;
      assert MutationsOf(db.mutations, id) == {};
      forall j | j in db'.sessions
        ensures SessionOk(j, db'.sessions[j], db'.mutations)
      {
        if j != id {
          assert SessionOk(j, db.sessions[j], db.mutations);
        }
      }
    }
  }

  lemma MutationAdded(mutations: map<MutationKey, MutationRow>, key: MutationKey, row: MutationRow)
    requires key !in mutations
    ensures forall id :: id != row.sessionId ==> MutationsOf(mutations[key := row], id) == MutationsOf(mutations, id)
    ensures |MutationsOf(mutations[key := row], row.sessionId)| == |MutationsOf(mutations, row.sessionId)| + 1
  {
    assert MutationsOf(mutations[key := row], row.sessionId) == MutationsOf(mutations, row.sessionId) + {key};
  }

  /** What a successful piece of work does to its session and to everything else. */
  lemma WorkEffect(db: Database, id: SessionId, change: Change)
    requires Inv(db) && id in db.sessions && db.sessions[id].status == Open && Work(db, id, change).Ok?
    ensures var db', s := Work(db, id, change).value, db.sessions[id];
            && db'.sessions.Keys == db.sessions.Keys && db'.mutations == db.mutations && db'.tables == db.tables
            && (forall i :: i in db.sessions && i != id ==> db'.sessions[i] == db.sessions[i])
            && var s' := db'.sessions[id];
               && s'.version == s.version + 1 && KeyNamesTable(s')
               && s'.organizationId == s.organizationId && s'.locationId == s.locationId
               && (s'.status == Open ==> KeyFree(db.sessions, id, ActiveTableKey(s'.organizationId, s'.tableId)))
               && (s'.status != Open ==> AllOrdersSettled(db, id))
               && (forall o :: o in db.attachments ==> o in db'.attachments && db'.attachments[o] == db.attachments[o])
               && (forall o :: o in db'.attachments && o !in db.attachments ==> db'.attachments[o] == id)
  {
    assert SessionOk(id, db.sessions[id], db.mutations);
    assert KeyFree(db.sessions, id, ActiveTableKey(db.sessions[id].organizationId, db.sessions[id].tableId));
  }

  lemma MutateKeepsInv(db: Database, call: Call)
    requires Inv(db)
    ensures Inv(MutateTx(db, call).0)
  {
    var (db', answer) := MutateTx(db, call);
    if answer == Ok(true) {
      var id := call.sessionId;
      WorkEffect(db, id, call.change);
      MutationAdded(db.mutations, call.key, db'.mutations[call.key]);
      assert SessionOk(id, db.sessions[id], db.mutations);
      forall i | i in db'.sessions
        ensures SessionOk(i, db'.sessions[i], db'.mutations)
      {
        assert SessionOk(i, db.sessions[i], db.mutations);
      }
      assert KeysUnique(db'.sessions);
    }
  }

  /** An attached order stays with its session, and a session that left OPEN never changes again. */
  ghost predicate Monotone(db: Database, db': Database) {
    && (forall id :: id in db.sessions ==> id in db'.sessions)
    && (forall id :: id in db.sessions && db.sessions[id].status != Open ==> db'.sessions[id] == db.sessions[id])
    && (forall o :: o in db.attachments ==> o in db'.attachments && db'.attachments[o] == db.attachments[o])
    && (forall key :: key in db.mutations ==> key in db'.mutations && db'.mutations[key] == db.mutations[key])
  }

  lemma MutateMonotone(db: Database, call: Call)
    requires Inv(db)
    ensures Monotone(db, MutateTx(db, call).0)
  {
    if MutateTx(db, call).1 == Ok(true) {
      WorkEffect(db, call.sessionId, call.change);
    }
  }

  /** A session leaves OPEN only when every order attached to it is paid or cancelled. */
  lemma LeavesOpenOnlySettled(db: Database, call: Call, id: SessionId)
    requires Inv(db) && id in db.sessions && db.sessions[id].status == Open
    ensures var db' := MutateTx(db, call).0;
            id in db'.sessions && (db'.sessions[id].status != Open ==>
              id == call.sessionId && AllOrdersSettled(db, id) && AllOrdersSettled(db', id))
  {
    if MutateTx(db, call).1 == Ok(true) {
      WorkEffect(db, call.sessionId, call.change);
    }
  }

  /** Exactly when a call performs its mutation now; in every other case nothing changes. */
  lemma PerformedExactlyWhen(db: Database, call: Call)
    requires Inv(db) && call.sessionId in db.sessions
    requires db.sessions[call.sessionId].organizationId == call.key.organizationId
    ensures MutateTx(db, call).1 == Ok(true) <==>
              && Precheck(db, call).None? && call.key !in db.mutations && db.sessions[call.sessionId].status == Open
              && db.sessions[call.sessionId].version == call.expectedVersion
              && Work(db, call.sessionId, call.change).Ok?
    ensures MutateTx(db, call).1 != Ok(true) ==> MutateTx(db, call).0 == db
  {
  }

  /** The change the call asks for is on record, for the session the call names. */
  predicate OnRecord(db: Database, call: Call) {
    call.key in db.mutations && db.mutations[call.key].sessionId == call.sessionId
      && db.mutations[call.key].change == call.change
  }

  /**
   * The request hash does not cover the session. So an answer of success means that the named session carries the
   * change exactly when the mutation id was fresh or had been used on that very session.
   */
  lemma SuccessIsTrueExactlyWhen(db: Database, call: Call)
    requires MutateTx(db, call).1.Ok?
    ensures OnRecord(MutateTx(db, call).0, call) <==>
              call.key !in db.mutations || db.mutations[call.key].sessionId == call.sessionId
  {
    if call.key !in db.mutations {
      PerformedKeepsOthers(db, call);
    }
  }

  lemma PerformedKeepsOthers(db: Database, call: Call)
    requires MutateTx(db, call).1 == Ok(true)
    ensures var db' := MutateTx(db, call).0;
            && call.key in db'.mutations
            && db'.mutations[call.key] ==
                 MutationRow(call.sessionId, call.change, db.sessions[call.sessionId].version + 1)
  {
  }

  /** Exactly the calls that are answered with success although the session they name never got the change. */
  lemma SwallowedExactlyWhen(db: Database, call: Call)
    ensures (MutateTx(db, call).1.Ok? && !OnRecord(MutateTx(db, call).0, call)) <==>
              && Precheck(db, call).None? && call.sessionId in db.sessions
              && db.sessions[call.sessionId].organizationId == call.key.organizationId
              && call.key in db.mutations && db.mutations[call.key].change == call.change
              && db.mutations[call.key].sessionId != call.sessionId
  {
    if MutateTx(db, call).1.Ok? {
      SuccessIsTrueExactlyWhen(db, call);
    }
  }

  // ---------------------------------------------------------------------------------------------
  // The service
  // ---------------------------------------------------------------------------------------------

  class HospitalityDatabase {
    var tables: map<TableId, DiningTable>
    var orders: map<OrderId, Order>
    var sessions: map<SessionId, Session>
    var attachments: map<OrderId, SessionId>
    var mutations: map<MutationKey, MutationRow>

    ghost function Rows(): Database
      reads this
    {
      Database(tables, orders, sessions, attachments, mutations)
    }

    constructor (tables: map<TableId, DiningTable>, orders: map<OrderId, Order>)
      ensures Rows() == Database(tables, orders, map[], map[], map[])
    {
      this.tables, this.orders, sessions, attachments, mutations := tables, orders, map[], map[], map[];
    }

    method OpenSession(i: OpenInput, id: SessionId) returns (result: Result<bool, SessionError>)
      requires Inv(Rows())
      modifies this`sessions
      ensures Inv(Rows())
      ensures (Rows(), result) == OpenTx(old(Rows()), i, id)
    {
      InsertKeepsInv(Rows(), i, id);
      if i.tableId !in tables || tables[i.tableId].organizationId != i.organizationId || !tables[i.tableId].active
         || tables[i.tableId].locationId != i.locationId
      {
        return Err(TableNotFound);
      }
      if j :| j in sessions && SameOpen(sessions[j], i) {
        if forall k :: k in sessions && SameOpen(sessions[k], i) ==> sessions[k].request == i.request {
          return Ok(false);
        }
        return Err(ClientSessionIdReused);
      }
      if id in sessions || !KeyFree(sessions, id, ActiveTableKey(i.organizationId, i.tableId))
         || !ClientIdFree(sessions, i.organizationId, i.deviceId, i.clientSessionId)
      {
        return Err(TableAlreadyOccupied);
      }
      sessions := sessions[id := NewSession(i)];
      result := Ok(true);
    }

    method AttachOrderTo(id: SessionId, orderId: OrderId) returns (error: Option<SessionError>)
      requires id in sessions
      modifies this`sessions, this`orders, this`attachments
      ensures error.Some? ==> Work(old(Rows()), id, AttachOrder(orderId)) == Err(error.value) && Rows() == old(Rows())
      ensures error.None? ==> Work(old(Rows()), id, AttachOrder(orderId)) == Ok(Rows())
    {
      var s := sessions[id];
      if orderId !in orders || orders[orderId].organizationId != s.organizationId
         || orders[orderId].locationId != s.locationId
      {
        return Some(OrderNotFound);
      }
      var order := orders[orderId];
      if order.status != OrderOpen && order.status != OrderHeld {
        return Some(OrderNotAttachable);
      }
      if orderId in attachments {
        return Some(OrderAlreadyAttached);
      }
      if !order.tableService {
        order := order.(tableService := true, version := order.version + 1);
      }
      orders := orders[orderId := order];
      attachments := attachments[orderId := id];
      sessions := sessions[id := Bumped(s)];
      error := None;
    }

    method MoveTo(id: SessionId, tableId: TableId) returns (error: Option<SessionError>)
      requires id in sessions
      modifies this`sessions
      ensures error.Some? ==> Work(old(Rows()), id, Move(tableId)) == Err(error.value) && Rows() == old(Rows())
      ensures error.None? ==> Work(old(Rows()), id, Move(tableId)) == Ok(Rows())
    {
      var s := sessions[id];
      if tableId !in tables || tables[tableId].locationId != s.locationId {
        return Some(TableLocationMismatch);
      }
      var key := ActiveTableKey(s.organizationId, tableId);
      if !KeyFree(sessions, id, key) {
        return Some(TableAlreadyOccupied);
      }
      sessions := sessions[id := s.(tableId := tableId, activeTableKey := Some(key), version := s.version + 1)];
      error := None;
    }

    method FinishSession(id: SessionId, next: SessionStatus) returns (error: Option<SessionError>)
      requires id in sessions
      modifies this`sessions
      ensures error.Some? ==> Finish(old(Rows()), id, next) == Err(error.value) && Rows() == old(Rows())
      ensures error.None? ==> Finish(old(Rows()), id, next) == Ok(Rows())
    {
      var s := sessions[id];
      if s.status != Open {
        return Some(SessionNotOpen);
      }
      if o :| o in attachments && attachments[o] == id && o in orders && !Settled(orders[o].status) {
        return Some(HasOpenOrders);
      }
      sessions := sessions[id := s.(status := next, activeTableKey := None, version := s.version + 1)];
      error := None;
    }

    method UpdateSession(id: SessionId, guestCount: Option<nat>, newNote: Option<string>)
      requires id in sessions
      modifies this`sessions
      ensures Work(old(Rows()), id, Update(guestCount, newNote)) == Ok(Rows())
    {
      var s := sessions[id];
      if guestCount.Some? {
        s := s.(guestCount := guestCount.value);
      }
      if newNote.Some? {
        s := s.(note := NoteOf(newNote.value));
      }
      sessions := sessions[id := s.(version := s.version + 1)];
    }

    method MutateSession(call: Call) returns (result: Result<bool, SessionError>)
      requires Inv(Rows())
      modifies this`sessions, this`orders, this`attachments, this`mutations
      ensures Inv(Rows())
      ensures (Rows(), result) == MutateTx(old(Rows()), call)
    {
      MutateKeepsInv(Rows(), call);
      var refused := Precheck(Database(tables, orders, sessions, attachments, mutations), call);
      if refused.Some? {
        return Err(refused.value);
      }
      var id := call.sessionId;
      if id !in sessions || sessions[id].organizationId != call.key.organizationId {
        return Err(SessionNotFound);
      }
      if call.key in mutations {
        if mutations[call.key].change != call.change {
          return Err(MutationIdReused);
        }
        return Ok(false);
      }
      if sessions[id].status != Open {
        return Err(SessionNotOpen);
      }
      if sessions[id].version != call.expectedVersion {
        return Err(VersionConflict);
      }
      var responseVersion := sessions[id].version + 1;
      var error: Option<SessionError> := None;
      match call.change {
        case Update(guestCount, newNote) => UpdateSession(id, guestCount, newNote);
        case AttachOrder(orderId) => error := AttachOrderTo(id, orderId);
        case Move(tableId) => error := MoveTo(id, tableId);
        case Close(_) => error := FinishSession(id, Closed);
        case Cancel(_) => error := FinishSession(id, Cancelled);
      }
      if error.Some? {
        return Err(error.value);
      }
      mutations := mutations[call.key := MutationRow(id, call.change, responseVersion)];
      result := Ok(true);
    }
  }
}
