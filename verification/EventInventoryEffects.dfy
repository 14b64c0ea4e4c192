/** What merges, splits and publication write, exactly when they are accepted, and which refusal they get otherwise. */
module EventInventoryEffects {
  import opened Wrappers
  import opened JsText
  import opened EventInventory
  import opened EventInventorySafety

  /** The event is a draft or on sale. */
  ghost predicate Open(e: Event) {
    e.status in {Draft, Published, SoldOut}
  }

  /** What is asked for first comes first: the tables of a prefix are a prefix of the tables. */
  lemma {:induction false} DistinctKeepsOrder(ids: seq<TableId>, n: nat)
    requires n <= |ids|
    ensures Distinct(ids[..n]) <= Distinct(ids)
  {
    if n == |ids| {
      assert ids[..n] == ids;
    } else {
      assert ids[..|ids| - 1][..n] == ids[..n];
      DistinctKeepsOrder(ids[..|ids| - 1], n);
    }
  }

  /** The code of a group: trimmed, its letters a to z in upper case, everything else as it was. */
  lemma CodeIsUpperCase(code: string)
    ensures |NormalizedCode(code)| == |Trim(code)|
    ensures forall i :: 0 <= i < |Trim(code)| ==>
              NormalizedCode(code)[i] as int
              == Trim(code)[i] as int - if 97 <= Trim(code)[i] as int <= 122 then 32 else 0
  {
  }

  /** The group's key and code are unused. */
  ghost predicate NewGroup(e: Event, g: GroupId, code: string) {
    g !in e.groups && g !in e.groupUnits && forall h :: h in e.groups ==> e.groups[h].code != code
  }

  /** The members of a new group, in the order asked for, beside those that were there. */
  ghost predicate Joins(members: map<TableId, Member>, members': map<TableId, Member>, tables: map<TableId, Unit>,
                        g: GroupId, ids: seq<TableId>)
  {
    && members'.Keys == members.Keys + Ids(ids)
    && (forall t :: t in members ==> members'[t] == members[t])
    && (forall i :: 0 <= i < |ids| ==> ids[i] in tables && members'[ids[i]] == Member(g, tables[ids[i]].capacity, i))
  }

  lemma MembersJoin(members: map<TableId, Member>, tables: map<TableId, Unit>, g: GroupId, ids: seq<TableId>)
    requires Ids(ids) <= tables.Keys && NoRepeats(ids) && Ids(ids) !! members.Keys
    ensures Joins(members, WithMembers(members, tables, g, ids), tables, g, ids)
  {
    MembersAdded(members, tables, g, ids);
    assert forall i :: 0 <= i < |ids| ==> ids[i] in Ids(ids);
  }

  ghost predicate AllSingle(e: Event, active: set<TableId>, ids: seq<TableId>) {
    forall t :: t in ids ==> t in e.tables && e.tables[t].enabled && t in active
  }

  /** The checks of a merge look at the tables asked for, repetitions or not. */
  lemma ChecksOfMerge(e: Event, active: set<TableId>, held: set<TableId>, requested: seq<TableId>)
    ensures (exists t :: t in Distinct(requested) && !Single(e, active, t)) <==> !AllSingle(e, active, requested)
    ensures (exists t :: t in Distinct(requested) && t in held) <==> exists t :: t in requested && t in held
    ensures Ids(Distinct(requested)) == Ids(requested)
    ensures AllSingle(e, active, requested) ==>
              SeatsOf(e.tables, Distinct(requested)) == Sum(Chosen(e.tables, Ids(requested)))
  {
    var ids := Distinct(requested);
    if !AllSingle(e, active, requested) {
      var t :| t in requested && !(t in e.tables && e.tables[t].enabled && t in active);
      assert t in ids && !Single(e, active, t);
    } else {
      SeatsAreSum(e.tables, ids);
    }
  }

  /** What the unique indexes and checks of the group's rows demand. */
  lemma ChecksOfGroup(e: Event, g: GroupId, code: string, requested: seq<TableId>, total: nat)
    ensures !Violates(e.groups, e.groupUnits, e.members, g, code, total, Distinct(requested)) <==>
              && NewGroup(e, g, code) && 0 < total <= 2_147_483_647
              && forall t :: t in requested ==> t !in e.members
  {
    if !(forall t :: t in requested ==> t !in e.members) {
      var t :| t in requested && t in e.members;
      assert t in Distinct(requested);
    }
  }

  /** A refused merge changes nothing; an accepted one is the four writes. */
  lemma MergeByChecks(e: Event, g: GroupId, code: string, requested: seq<TableId>, active: set<TableId>,
                      held: set<TableId>)
    ensures var ids := Distinct(requested);
            var (e', error) := MergeTx(e, g, code, requested, active, held);
            if !Mutable(e.status) then e' == e && error == Some(InventoryLocked)
            else if exists t :: t in ids && !Single(e, active, t) then e' == e && error == Some(GroupSourceInvalid)
            else if exists t :: t in ids && t in held then e' == e && error == Some(TablesAssigned)
            else if Violates(e.groups, e.groupUnits, e.members, g, NormalizedCode(code), SeatsOf(e.tables, ids), ids)
            then e' == e && error == Some(ConstraintViolated)
            else error == None
  {
  }

  /**
   * A merge is accepted exactly for available tables with at least one seat under an unused key and code, and is
   * otherwise refused for the first reason.
   */
  lemma MergeAccepted(e: Event, g: GroupId, code: string, requested: seq<TableId>, active: set<TableId>,
                      held: set<TableId>)
    ensures var error := MergeTx(e, g, code, requested, active, held).1;
            var single, used := AllSingle(e, active, requested), exists t :: t in requested && t in held;
            && (error.None? <==>
                  && Open(e) && single && !used && NewGroup(e, g, NormalizedCode(code))
                  && 0 < Sum(Chosen(e.tables, Ids(requested))) <= 2_147_483_647
                  && forall t :: t in requested ==> t !in e.members)
            && (error.Some? ==> MergeTx(e, g, code, requested, active, held).0 == e)
            && (error == Some(InventoryLocked) <==> !Open(e))
            && (error == Some(GroupSourceInvalid) <==> Open(e) && !single)
            && (error == Some(TablesAssigned) <==> Open(e) && single && used)
  {
    MergeByChecks(e, g, code, requested, active, held);
    ChecksOfMerge(e, active, held, requested);
    ChecksOfGroup(e, g, NormalizedCode(code), requested, SeatsOf(e.tables, Distinct(requested)));
  }

  /** What an accepted merge writes, apart from the members. */
  lemma MergeWrites(e: Event, g: GroupId, code: string, requested: seq<TableId>, active: set<TableId>,
                    held: set<TableId>)
    requires MergeTx(e, g, code, requested, active, held).1.None?
    ensures var e', ids := MergeTx(e, g, code, requested, active, held).0, Distinct(requested);
            && (forall t :: t in ids ==> t in e.tables)
            && e' == Event(e.status, e.capacity, e.maxPartySize, e.version + 1, e.tables - Ids(ids),
                           e.groupUnits[g := Unit(SeatsOf(e.tables, ids), true)],
                           e.groups[g := Group(NormalizedCode(code), SeatsOf(e.tables, ids))],
                           WithMembers(e.members, e.tables, g, ids))
  {
  }

  /** The tables leave the inventory, become the group's members, and its unit has their seats. */
  lemma MergeIsRecorded(e: Event, g: GroupId, code: string, requested: seq<TableId>, active: set<TableId>,
                        held: set<TableId>)
    requires MergeTx(e, g, code, requested, active, held).1.None?
    ensures var e', total := MergeTx(e, g, code, requested, active, held).0, Sum(Chosen(e.tables, Ids(requested)));
            && e' == Event(e.status, e.capacity, e.maxPartySize, e.version + 1, e.tables - Ids(requested),
                           e.groupUnits[g := Unit(total, true)],
                           e.groups[g := Group(NormalizedCode(code), total)], e'.members)
            && Joins(e.members, e'.members, e.tables, g, Distinct(requested))
  {
    MergeAccepted(e, g, code, requested, active, held);
    MergeWrites(e, g, code, requested, active, held);
    ChecksOfMerge(e, active, held, requested);
    MembersJoin(e.members, e.tables, g, Distinct(requested));
  }

  /** A split: exactly for a group none of whose tables, nor itself, is in use; its members come back as they went. */
  lemma SplitIsRecorded(e: Event, g: GroupId, held: set<TableId>, groupHeld: bool)
    ensures var (e', error) := SplitTx(e, g, held, groupHeld);
            var used := groupHeld || exists t :: t in e.members && e.members[t].groupId == g && t in held;
            && (error.None? <==> Open(e) && g in e.groups && !used)
            && (error == Some(InventoryLocked) <==> !Open(e))
            && (error == Some(GroupNotFound) <==> Open(e) && g !in e.groups)
            && (error == Some(TablesAssigned) <==> Open(e) && g in e.groups && used)
            && (error.Some? ==> e' == e)
            && (error.None? ==>
                  && e'.version == e.version + 1 && e'.status == e.status
                  && e'.capacity == e.capacity && e'.maxPartySize == e.maxPartySize
                  && e'.groups == e.groups - {g} && e'.groupUnits == e.groupUnits - {g}
                  && (forall t :: t in e'.members <==> t in e.members && e.members[t].groupId != g)
                  && (forall t :: t in e'.members ==> e'.members[t] == e.members[t])
                  && (forall t :: t in e'.tables <==>
                        t in e.tables || (t in e.members && e.members[t].groupId == g))
                  && (forall t :: t in e'.tables ==>
                        e'.tables[t] == if t in e.members && e.members[t].groupId == g
                                        then Unit(e.members[t].capacity, true) else e.tables[t]))
  {
  }

  /** Only enabled units count for the capacity of an inventory. */
  lemma CapacityCountsEnabled(units: map<nat, Unit>, k: nat, capacity: nat)
    requires k !in units
    ensures Sum(map[]) == 0
    ensures Sum(units[k := Unit(capacity, true)]) == Sum(units) + capacity
    ensures Sum(units[k := Unit(capacity, false)]) == Sum(units)
  {
    SumAdd(units, k, Unit(capacity, true));
    SumAdd(units, k, Unit(capacity, false));
  }

  /** Every unit of the inventory is enabled. */
  ghost predicate AllInService(e: Event) {
    (forall t :: t in e.tables ==> e.tables[t].enabled) && (forall g :: g in e.groupUnits ==> e.groupUnits[g].enabled)
  }

  /** Some enabled unit has room for n. */
  ghost predicate Seated(e: Event, n: nat) {
    (exists t :: t in e.tables && e.tables[t].enabled && n <= e.tables[t].capacity)
    || (exists g :: g in e.groupUnits && e.groupUnits[g].enabled && n <= e.groupUnits[g].capacity)
  }

  /** The checks of a publication that come before the booking rules. */
  ghost predicate Presentable(e: Event, startsInFuture: bool, bookingClosesInFuture: bool) {
    && e.status == Draft && startsInFuture && bookingClosesInFuture
    && (e.tables != map[] || e.groupUnits != map[]) && AllInService(e)
    && Sum(e.tables) + Sum(e.groupUnits) >= e.capacity
  }

  /** Publication: a draft in time, with an enabled inventory that holds its capacity and seats its largest party. */
  lemma PublicationIsRecorded(e: Event, startsInFuture: bool, bookingClosesInFuture: bool)
    ensures var (e', error) := PublishTx(e, startsInFuture, bookingClosesInFuture);
            && (error.None? <==>
                  && Presentable(e, startsInFuture, bookingClosesInFuture)
                  && e.maxPartySize.Some? && e.maxPartySize.value <= e.capacity
                  && (Seated(e, 1) ==> Seated(e, e.maxPartySize.value)))
            && (error.Some? ==> e' == e)
            && (error.None? ==> e' == e.(status := Published, version := e.version + 1))
  {
  }

  /** Which refusal a publication gets: the first check that fails. */
  lemma PublicationRefused(e: Event, startsInFuture: bool, bookingClosesInFuture: bool)
    ensures var error := PublishTx(e, startsInFuture, bookingClosesInFuture).1;
            var timely := e.status == Draft && startsInFuture && bookingClosesInFuture;
            var some := e.tables != map[] || e.groupUnits != map[];
            && (error == Some(NotEditable) <==> e.status != Draft)
            && (error == Some(NotInFuture) <==> e.status == Draft && !startsInFuture)
            && (error == Some(BookingClosed) <==> e.status == Draft && startsInFuture && !bookingClosesInFuture)
            && (error == Some(InventoryEmpty) <==> timely && !some)
            && (error == Some(InventoryInactive) <==> timely && some && !AllInService(e))
            && (error == Some(CapacityInsufficient) <==>
                  timely && some && AllInService(e) && Sum(e.tables) + Sum(e.groupUnits) < e.capacity)
            && (error == Some(RulesMissing) <==>
                  Presentable(e, startsInFuture, bookingClosesInFuture) && e.maxPartySize.None?)
            && (error == Some(PartyExceedsCapacity) <==>
                  && Presentable(e, startsInFuture, bookingClosesInFuture)
                  && e.maxPartySize.Some? && e.maxPartySize.value > e.capacity)
            && (error == Some(PartyExceedsTable) <==>
                  && Presentable(e, startsInFuture, bookingClosesInFuture)
                  && e.maxPartySize.Some? && e.maxPartySize.value <= e.capacity
                  && Seated(e, 1) && !Seated(e, e.maxPartySize.value))
  {
  }

  /** The other steps: a publication as above, edits and replacement of a draft, and the changes of status. */
  lemma StepIsRecorded(e: Event, step: Step)
    ensures var e' := Next(e, step);
            && (step.Publish? ==> e' == PublishTx(e, step.startsInFuture, step.bookingClosesInFuture).0)
            && (step.EditDraft? ==>
                  e' == if e.status == Draft
                        then e.(capacity := step.capacity, maxPartySize := step.maxPartySize, version := e.version + 1)
                        else e)
            && (step.ReplaceTables? ==>
                  if e.status == Draft && step.accepted then
                    && e'.tables.Keys == step.rows.Keys
                    && (forall t :: t in step.rows ==> e'.tables[t] == Unit(step.rows[t], true))
                    && e' == e.(tables := e'.tables, groupUnits := map[], version := e.version + 1)
                  else e' == e)
            && (step.Cancel? ==>
                  e' == if e.status == Published || e.status == SoldOut
                        then e.(status := EventCancelled, version := e.version + 1) else e)
            && (step.Archive? ==>
                  e' == if e.status == Draft || e.status == EventCancelled || e.status == EventCompleted
                        then e.(status := Archived, version := e.version + 1) else e)
            && (step.Relabel? ==>
                  e' == if e.status == Draft || step.status == Draft then e
                        else e.(status := step.status, version := e.version + 1))
  {
  }
}
