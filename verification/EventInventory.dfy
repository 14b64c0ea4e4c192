/**
 * The table inventory of an event: single tables are merged into groups and split again while the event is on
 * sale. Whatever the order of merges and splits, the same physical tables and seats stay in the inventory.
 */
module EventInventory {
  import opened Wrappers
  import opened JsText

  type TableId(==, !new, 0) = nat
  type GroupId(==, !new, 0) = nat

  datatype EventStatus = Draft | Published | SoldOut | EventCancelled | EventCompleted | Archived

  datatype Unit = Unit(capacity: nat, enabled: bool)

  datatype Group = Group(code: string, capacity: nat)

  datatype Member = Member(groupId: GroupId, capacity: nat, sortOrder: nat)

  /** One event; the inventory's rows are keyed by what its two unique indexes make unique. */
  datatype Event = Event(
    status: EventStatus, capacity: nat, maxPartySize: Option<nat>, version: nat,
    tables: map<TableId, Unit>,
    groupUnits: map<GroupId, Unit>,
    groups: map<GroupId, Group>,
    members: map<TableId, Member>)

  datatype InventoryError =
    | InventoryLocked | GroupSourceInvalid | TablesAssigned | ConstraintViolated | GroupNotFound
    | NotEditable | NotInFuture | BookingClosed | InventoryEmpty | InventoryInactive | CapacityInsufficient
    | RulesMissing | PartyExceedsCapacity | PartyExceedsTable

  /** The largest value of a database integer column. */
  const MAX_INTEGER := 0x7FFF_FFFF

  predicate Mutable(status: EventStatus) {
    status == Draft || status == Published || status == SoldOut
  }

  // ---------------------------------------------------------------------------------------------
  // Merge
  // ---------------------------------------------------------------------------------------------

  function UpperChar(c: char): char {
    if 'a' <= c <= 'z' then c - 'a' + 'A' else c
  }

  function NormalizedCode(code: string): string {
    seq(|Trim(code)|, i requires 0 <= i < |Trim(code)| => UpperChar(Trim(code)[i]))
  }

  /** `Array.from(new Set(ids))`: first occurrences, in order. */
  function Distinct(ids: seq<TableId>): (r: seq<TableId>)
    ensures forall t :: t in r <==> t in ids
    ensures forall i, j :: 0 <= i < j < |r| ==> r[i] != r[j]
  {
    if ids == [] then [] else
    var rest, last := Distinct(ids[..|ids| - 1]), ids[|ids| - 1];
    assert ids == ids[..|ids| - 1] + [last];
    if last in rest then rest else rest + [last]
  }

  function Ids(ids: seq<TableId>): set<TableId> {
    set t | t in ids
  }

  predicate Single(e: Event, active: set<TableId>, t: TableId) {
    t in e.tables && e.tables[t].enabled && t in active
  }

  function SeatsOf(tables: map<TableId, Unit>, ids: seq<TableId>): nat {
    if ids == [] then 0
    else SeatsOf(tables, ids[..|ids| - 1]) + if ids[|ids| - 1] in tables then tables[ids[|ids| - 1]].capacity else 0
  }

  function WithMembers(members: map<TableId, Member>, tables: map<TableId, Unit>, groupId: GroupId, ids: seq<TableId>)
    : map<TableId, Member>
    requires forall t :: t in ids ==> t in tables
  {
    if ids == [] then members
    else
      var n := |ids| - 1;
      WithMembers(members, tables, groupId, ids[..n])[ids[n] := Member(groupId, tables[ids[n]].capacity, n)]
  }

  /** The keys, unique indexes and checks of the tables a merge writes. */
  predicate Violates(groups: map<GroupId, Group>, groupUnits: map<GroupId, Unit>, members: map<TableId, Member>,
                     groupId: GroupId, code: string, total: nat, ids: seq<TableId>)
  {
    || groupId in groups || groupId in groupUnits || (exists g :: g in groups && groups[g].code == code)
    || !(0 < total <= MAX_INTEGER) || (exists t :: t in ids && t in members)
  }

  /** `merge`; `active` are the tables currently in service, `held` those with a live hold or reservation. */
  function MergeTx(e: Event, groupId: GroupId, code: string, requested: seq<TableId>, active: set<TableId>,
                   held: set<TableId>)
    : (Event, Option<InventoryError>)
  {
    var ids := Distinct(requested);
    var total := SeatsOf(e.tables, ids);
    if !Mutable(e.status) then (e, Some(InventoryLocked))
    else if exists t :: t in ids && !Single(e, active, t) then (e, Some(GroupSourceInvalid))
    else if exists t :: t in ids && t in held then (e, Some(TablesAssigned))
    else if Violates(e.groups, e.groupUnits, e.members, groupId, NormalizedCode(code), total, ids)
    then (e, Some(ConstraintViolated))
    else
      assert forall t :: t in ids ==> Single(e, active, t);
      (e.(groups := e.groups[groupId := Group(NormalizedCode(code), total)],
          members := WithMembers(e.members, e.tables, groupId, ids),
          tables := e.tables - Ids(ids),
          groupUnits := e.groupUnits[groupId := Unit(total, true)],
          version := e.version + 1), None)
  }

  // ---------------------------------------------------------------------------------------------
  // Split
  // ---------------------------------------------------------------------------------------------

  function MembersOf(members: map<TableId, Member>, groupId: GroupId): map<TableId, Member> {
    map t | t in members && members[t].groupId == groupId :: members[t]
  }

  function AsUnits(members: map<TableId, Member>): map<TableId, Unit> {
    map t | t in members :: Unit(members[t].capacity, true)
  }

  /** `split`: the member rows come back as enabled single tables, overwriting any row already there. */
  function SplitTx(e: Event, groupId: GroupId, held: set<TableId>, groupHeld: bool): (Event, Option<InventoryError>) {
    var back := MembersOf(e.members, groupId);
    if !Mutable(e.status) then (e, Some(InventoryLocked))
    else if groupId !in e.groups then (e, Some(GroupNotFound))
    else if (exists t :: t in back && t in held) || groupHeld then (e, Some(TablesAssigned))
    else
      (e.(groupUnits := e.groupUnits - {groupId}, tables := e.tables + AsUnits(back), groups := e.groups - {groupId},
          members := e.members - back.Keys, version := e.version + 1), None)
  }

  // ---------------------------------------------------------------------------------------------
  // Capacity and publication
  // ---------------------------------------------------------------------------------------------

  function Seats(u: Unit): nat {
    if u.enabled then u.capacity else 0
  }

  ghost function Sum(units: map<nat, Unit>): nat
    decreases units.Keys
  {
    if units == map[] then 0 else
    var k :| k in units;
    Seats(units[k]) + Sum(units - {k})
  }

  /** The enabled capacity of the inventory: what `inventoryMetrics` sums. */
  ghost function InventoryCapacity(e: Event): nat {
    Sum(e.tables) + Sum(e.groupUnits)
  }

  predicate AllEnabled(units: map<nat, Unit>) {
    forall k :: k in units ==> units[k].enabled
  }

  /** Some enabled unit has at least n seats: the largest capacity is at least n. */
  ghost predicate SomeUnitSeats(e: Event, n: nat) {
    (exists t :: t in e.tables && e.tables[t].enabled && e.tables[t].capacity >= n)
    || (exists g :: g in e.groupUnits && e.groupUnits[g].enabled && e.groupUnits[g].capacity >= n)
  }

  /** `publish`, with the order of its checks. */
  ghost function PublishTx(e: Event, startsInFuture: bool, bookingClosesInFuture: bool): (Event, Option<InventoryError>)
  {
    if e.status != Draft then (e, Some(NotEditable))
    else if !startsInFuture then (e, Some(NotInFuture))
    else if !bookingClosesInFuture then (e, Some(BookingClosed))
    else if e.tables == map[] && e.groupUnits == map[] then (e, Some(InventoryEmpty))
    else if !(AllEnabled(e.tables) && AllEnabled(e.groupUnits)) then (e, Some(InventoryInactive))
    else if InventoryCapacity(e) < e.capacity then (e, Some(CapacityInsufficient))
    else if e.maxPartySize.None? then (e, Some(RulesMissing))
    else if e.maxPartySize.value > e.capacity then (e, Some(PartyExceedsCapacity))
    else if SomeUnitSeats(e, 1) && !SomeUnitSeats(e, e.maxPartySize.value) then (e, Some(PartyExceedsTable))
    else (e.(status := Published, version := e.version + 1), None)
  }

  /** `replaceTables` on a draft: every inventory row is replaced, group units included; groups and members stay. */
  function ReplaceTx(e: Event, rows: map<TableId, nat>, accepted: bool): Event {
    if e.status != Draft || !accepted then e
    else e.(tables := map t | t in rows :: Unit(rows[t], true), groupUnits := map[], version := e.version + 1)
  }

  // ---------------------------------------------------------------------------------------------
  // Steps and runs
  // ---------------------------------------------------------------------------------------------

  datatype Step =
    | Merge(groupId: GroupId, code: string, requested: seq<TableId>, active: set<TableId>, held: set<TableId>)
    | Split(groupId: GroupId, held: set<TableId>, groupHeld: bool)
    | Publish(startsInFuture: bool, bookingClosesInFuture: bool)
    | EditDraft(capacity: nat, maxPartySize: Option<nat>)
    | ReplaceTables(rows: map<TableId, nat>, accepted: bool)
    | Cancel
    | Archive
    | Relabel(status: EventStatus)

  /** `Relabel` stands for a change among the statuses after publication that no other step makes. */
  ghost function Next(e: Event, step: Step): Event {
    match step
    case Merge(groupId, code, requested, active, held) => MergeTx(e, groupId, code, requested, active, held).0
    case Split(groupId, held, groupHeld) => SplitTx(e, groupId, held, groupHeld).0
    case Publish(startsInFuture, bookingClosesInFuture) => PublishTx(e, startsInFuture, bookingClosesInFuture).0
    case EditDraft(capacity, maxPartySize) =>
      if e.status == Draft then e.(capacity := capacity, maxPartySize := maxPartySize, version := e.version + 1) else e
    case ReplaceTables(rows, accepted) => ReplaceTx(e, rows, accepted)
    case Cancel =>
      if e.status in {Published, SoldOut} then e.(status := EventCancelled, version := e.version + 1) else e
    case Archive =>
      if e.status in {Draft, EventCancelled, EventCompleted}
      then e.(status := Archived, version := e.version + 1) else e
    case Relabel(status) =>
      if e.status != Draft && status != Draft then e.(status := status, version := e.version + 1) else e
  }

  ghost function Run(e: Event, steps: seq<Step>): Event {
    if steps == [] then e else Next(Run(e, steps[..|steps| - 1]), steps[|steps| - 1])
  }

  // ---------------------------------------------------------------------------------------------
  // The invariant
  // ---------------------------------------------------------------------------------------------

  /** Every physical table of the event, whether it stands alone or inside a group. */
  function Physical(e: Event): map<TableId, Unit> {
    e.tables + AsUnits(e.members)
  }

  ghost predicate GroupOk(e: Event, g: GroupId)
    requires g in e.groups && g in e.groupUnits
  {
    e.groupUnits[g] == Unit(e.groups[g].capacity, true) && e.groups[g].capacity == Sum(AsUnits(MembersOf(e.members, g)))
  }

  /** The units partition the physical tables, and a group counts exactly the seats of its members. */
  ghost predicate Partition(e: Event) {
    && e.tables.Keys !! e.members.Keys
    && e.groupUnits.Keys == e.groups.Keys
    && (forall t :: t in e.members ==> e.members[t].groupId in e.groups)
    && (forall g {:trigger GroupOk(e, g)} :: g in e.groups ==> GroupOk(e, g))
    && InventoryCapacity(e) == Sum(Physical(e))
  }

  lemma {:induction false} SumRemove(units: map<nat, Unit>, k: nat)
    requires k in units
    ensures Sum(units) == Seats(units[k]) + Sum(units - {k})
    decreases units.Keys
  {
    var j :| j in units && Sum(units) == Seats(units[j]) + Sum(units - {j});
    if j != k {
      SumRemove(units - {j}, k);
      SumRemove(units - {k}, j);
      assert units - {j} - {k} == units - {k} - {j};
    }
  }

  lemma {:induction false} SumUnion(a: map<nat, Unit>, b: map<nat, Unit>)
    requires a.Keys !! b.Keys
    ensures Sum(a + b) == Sum(a) + Sum(b)
    decreases a.Keys
  {
    if a == map[] {
      assert a + b == b;
    } else {
      var k :| k in a;
      SumRemove(a, k);
      SumRemove(a + b, k);
      assert (a + b) - {k} == (a - {k}) + b;
      SumUnion(a - {k}, b);
    }
  }

  lemma SumAdd(units: map<nat, Unit>, k: nat, u: Unit)
    requires k !in units
    ensures Sum(units[k := u]) == Sum(units) + Seats(u)
  {
    SumRemove(units[k := u], k);
    assert units[k := u] - {k} == units;
  }

  function Chosen(tables: map<TableId, Unit>, ids: set<TableId>): map<TableId, Unit> {
    map t | t in tables && t in ids :: tables[t]
  }

  ghost predicate NoRepeats(ids: seq<TableId>) {
    forall i, j :: 0 <= i < j < |ids| ==> ids[i] != ids[j]
  }

  lemma IdsSnoc(ids: seq<TableId>)
    requires ids != [] && NoRepeats(ids)
    ensures var n := |ids| - 1;
            Ids(ids) == Ids(ids[..n]) + {ids[n]} && ids[n] !in Ids(ids[..n]) && NoRepeats(ids[..n])
  {
    assert ids == ids[..|ids| - 1] + [ids[|ids| - 1]];
  }

  lemma ChosenSnoc(tables: map<TableId, Unit>, ids: set<TableId>, t: TableId)
    requires t in tables && t !in ids
    ensures Sum(Chosen(tables, ids + {t})) == Sum(Chosen(tables, ids)) + Seats(tables[t])
  {
    SumRemove(Chosen(tables, ids + {t}), t);
    assert Chosen(tables, ids + {t}) - {t} == Chosen(tables, ids);
  }

  /** The running total of a merge is the capacity of the chosen rows. */
  lemma {:induction false} SeatsAreSum(tables: map<TableId, Unit>, ids: seq<TableId>)
    requires NoRepeats(ids)
    requires forall t :: t in Ids(ids) ==> t in tables && tables[t].enabled
    ensures SeatsOf(tables, ids) == Sum(Chosen(tables, Ids(ids)))
  {
    if ids == [] {
      assert Chosen(tables, Ids(ids)) == map[];
    } else {
      var n := |ids| - 1;
      IdsSnoc(ids);
      SeatsAreSum(tables, ids[..n]);
      ChosenSnoc(tables, Ids(ids[..n]), ids[n]);
      assert ids[n] in Ids(ids);
    }
  }

  /** The chosen tables have joined group g; everybody else is where they were. */
  ghost predicate Joined(members: map<TableId, Member>, members': map<TableId, Member>, tables: map<TableId, Unit>,
                         g: GroupId, ids: set<TableId>)
    requires ids <= tables.Keys
  {
    && members'.Keys == members.Keys + ids
    && (forall t :: t in members && t !in ids ==> members'[t] == members[t])
    && (forall t :: t in ids ==> members'[t].groupId == g && members'[t].capacity == tables[t].capacity)
  }

  /** The members a merge adds, in the order of the request. */
  lemma {:induction false} MembersAdded(members: map<TableId, Member>, tables: map<TableId, Unit>, g: GroupId,
                                        ids: seq<TableId>)
    requires Ids(ids) <= tables.Keys && NoRepeats(ids)
    ensures Joined(members, WithMembers(members, tables, g, ids), tables, g, Ids(ids))
    ensures forall i :: 0 <= i < |ids| ==> WithMembers(members, tables, g, ids)[ids[i]].sortOrder == i
  {
    if ids != [] {
      IdsSnoc(ids);
      MembersAdded(members, tables, g, ids[..|ids| - 1]);
    }
  }

  lemma JoiningKeepsPhysical(tables: map<TableId, Unit>, members: map<TableId, Member>, members': map<TableId, Member>,
                             g: GroupId, ids: set<TableId>)
    requires ids <= tables.Keys && tables.Keys !! members.Keys && Joined(members, members', tables, g, ids)
    requires forall t :: t in ids ==> tables[t].enabled
    ensures (tables - ids) + AsUnits(members') == tables + AsUnits(members)
    ensures (tables - ids).Keys !! members'.Keys
  {
  }

  lemma JoiningFillsGroup(tables: map<TableId, Unit>, members: map<TableId, Member>, members': map<TableId, Member>,
                          g: GroupId, ids: set<TableId>)
    requires ids <= tables.Keys && tables.Keys !! members.Keys && Joined(members, members', tables, g, ids)
    requires forall t :: t in ids ==> tables[t].enabled
    requires forall t :: t in members ==> members[t].groupId != g
    ensures AsUnits(MembersOf(members', g)) == Chosen(tables, ids)
    ensures forall h {:trigger MembersOf(members', h)} :: h != g ==> MembersOf(members', h) == MembersOf(members, h)
  {
    forall h | h != g
      ensures MembersOf(members', h) == MembersOf(members, h)
    {
    }
  }

  lemma SumChosen(tables: map<TableId, Unit>, ids: set<TableId>)
    requires ids <= tables.Keys
    ensures Sum(tables - ids) + Sum(Chosen(tables, ids)) == Sum(tables)
  {
    assert tables == (tables - ids) + Chosen(tables, ids);
    SumUnion(tables - ids, Chosen(tables, ids));
  }

  /** A merge in terms of sets: what a successful one reads and writes. */
  ghost predicate Merged(e: Event, e': Event, g: GroupId, code: string, ids: set<TableId>) {
    && ids <= e.tables.Keys && (forall t :: t in ids ==> e.tables[t].enabled)
    && g !in e.groups && g !in e.groupUnits
    && e'.tables == e.tables - ids
    && Joined(e.members, e'.members, e.tables, g, ids)
    && var total := Sum(Chosen(e.tables, ids));
       e'.groups == e.groups[g := Group(code, total)] && e'.groupUnits == e.groupUnits[g := Unit(total, true)]
  }

  lemma MergeIsMerged(e: Event, g: GroupId, code: string, requested: seq<TableId>, active: set<TableId>,
                      held: set<TableId>)
    requires MergeTx(e, g, code, requested, active, held).1.None?
    ensures Merged(e, MergeTx(e, g, code, requested, active, held).0, g, NormalizedCode(code), Ids(Distinct(requested)))
  {
    var ids := Distinct(requested);
    forall t | t in Ids(ids)
      ensures t in e.tables && e.tables[t].enabled
    {
      assert Single(e, active, t);
    }
    SeatsAreSum(e.tables, ids);
    MembersAdded(e.members, e.tables, g, ids);
  }

  lemma MergedGroupsOk(e: Event, e': Event, g: GroupId, code: string, ids: set<TableId>, h: GroupId)
    requires Partition(e) && Merged(e, e', g, code, ids) && h in e'.groups
    ensures GroupOk(e', h)
  {
    JoiningFillsGroup(e.tables, e.members, e'.members, g, ids);
    if h != g {
      assert GroupOk(e, h);
      assert MembersOf(e'.members, h) == MembersOf(e.members, h);
    }
  }

  lemma MergedKeepsCapacity(e: Event, e': Event, g: GroupId, code: string, ids: set<TableId>)
    requires e.tables.Keys !! e.members.Keys && Merged(e, e', g, code, ids)
    ensures Physical(e') == Physical(e) && InventoryCapacity(e') == InventoryCapacity(e)
    ensures e'.tables.Keys !! e'.members.Keys
  {
    JoiningKeepsPhysical(e.tables, e.members, e'.members, g, ids);
    SumChosen(e.tables, ids);
    SumAdd(e.groupUnits, g, e'.groupUnits[g]);
  }

  lemma MergedKeepsPartition(e: Event, e': Event, g: GroupId, code: string, ids: set<TableId>)
    requires Partition(e) && Merged(e, e', g, code, ids)
    ensures Partition(e') && Physical(e') == Physical(e) && InventoryCapacity(e') == InventoryCapacity(e)
  {
    MergedKeepsCapacity(e, e', g, code, ids);
    forall h | h in e'.groups
      ensures GroupOk(e', h)
    {
      MergedGroupsOk(e, e', g, code, ids, h);
    }
  }

  lemma MergeKeepsPartition(e: Event, g: GroupId, code: string, requested: seq<TableId>, active: set<TableId>,
                            held: set<TableId>)
    requires Partition(e)
    ensures var e' := MergeTx(e, g, code, requested, active, held).0;
            Partition(e') && Physical(e') == Physical(e) && InventoryCapacity(e') == InventoryCapacity(e)
  {
    if MergeTx(e, g, code, requested, active, held).1.None? {
      MergeIsMerged(e, g, code, requested, active, held);
      MergedKeepsPartition(e, MergeTx(e, g, code, requested, active, held).0, g, NormalizedCode(code),
                           Ids(Distinct(requested)));
    } else {
      assert MergeTx(e, g, code, requested, active, held).0 == e;
    }
  }

  lemma LeavingKeepsPhysical(tables: map<TableId, Unit>, members: map<TableId, Member>, g: GroupId)
    requires tables.Keys !! members.Keys
    ensures var back := MembersOf(members, g);
            && (tables + AsUnits(back)) + AsUnits(members - back.Keys) == tables + AsUnits(members)
            && (tables + AsUnits(back)).Keys !! (members - back.Keys).Keys
    ensures forall h {:trigger MembersOf(members - MembersOf(members, g).Keys, h)} ::
              h != g ==> MembersOf(members - MembersOf(members, g).Keys, h) == MembersOf(members, h)
  {
  }

  lemma SplitKeepsPartition(e: Event, g: GroupId, held: set<TableId>, groupHeld: bool)
    requires Partition(e)
    ensures var e' := SplitTx(e, g, held, groupHeld).0;
            Partition(e') && Physical(e') == Physical(e) && InventoryCapacity(e') == InventoryCapacity(e)
  {
    var (e', error) := SplitTx(e, g, held, groupHeld);
    if error.None? {
      assert GroupOk(e, g);
      LeavingKeepsPhysical(e.tables, e.members, g);
      SumUnion(e.tables, AsUnits(MembersOf(e.members, g)));
      SumRemove(e.groupUnits, g);
      forall h | h in e'.groups
        ensures GroupOk(e', h)
      {
        assert GroupOk(e, h);
        assert MembersOf(e'.members, h) == MembersOf(e.members, h);
      }
    }
  }
}
