/** What merges, splits and publication guarantee over whole runs, and the service that performs them. */
module EventInventorySafety {
  import opened Wrappers
  import opened EventInventory
  import opened JsText

  // ---------------------------------------------------------------------------------------------
  // Replacing the tables
  // ---------------------------------------------------------------------------------------------

  lemma {:induction false} NoGroupsNoMembers(e: Event)
    requires Partition(e) && e.groups == map[]
    ensures e.members == map[] && e.groupUnits == map[] && Physical(e) == e.tables
  {
    assert e.members == map[] by {
      if t :| t in e.members {
        assert e.members[t].groupId in e.groups;
      }
    }
    assert e.groupUnits.Keys == {};
    assert AsUnits(e.members) == map[];
  }

  /** Replacing a draft's tables keeps the inventory a partition exactly when the draft has no group. */
  lemma ReplaceKeepsPartitionExactly(e: Event, rows: map<TableId, nat>)
    requires Partition(e) && e.status == Draft
    ensures Partition(ReplaceTx(e, rows, true)) <==> e.groups == map[]
  {
    var e' := ReplaceTx(e, rows, true);
    if e.groups == map[] {
      NoGroupsNoMembers(e);
      assert Physical(e') == e'.tables;
    } else {
      var g :| g in e.groups;
      assert g !in e'.groupUnits.Keys;
    }
  }

  /** A draft without an inventory. */
  function NewDraft(capacity: nat, maxPartySize: Option<nat>): Event {
    Event(Draft, capacity, maxPartySize, 1, map[], map[], map[], map[])
  }

  /** Two tables of four seats are placed and merged into one group. */
  const SET_TABLES := [ReplaceTables(map[1 := 4, 2 := 4], true), Merge(9, "G", [1, 2], {1, 2}, {})]

  /** The draft they lead to. */
  function Banquet(capacity: nat, maxPartySize: Option<nat>): Event {
    Event(Draft, capacity, maxPartySize, 3, map[], map[9 := Unit(8, true)], map[9 := Group("G", 8)],
          map[1 := Member(9, 4, 0), 2 := Member(9, 4, 1)])
  }

  lemma RunTwo(e: Event, first: Step, second: Step)
    ensures Run(e, [first, second]) == Next(Next(e, first), second)
  {
    assert [first, second][..1] == [first] && [first][..0] == [];
    assert Run(e, [first]) == Next(Run(e, []), first);
  }

  lemma PairOfTables(tables: map<TableId, Unit>)
    requires tables == map[1 := Unit(4, true), 2 := Unit(4, true)]
    ensures Distinct([1, 2]) == [1, 2] && Ids([1, 2]) == {1, 2} && tables - {1, 2} == map[]
    ensures SeatsOf(tables, [1, 2]) == 8
    ensures WithMembers(map[], tables, 9, [1, 2]) == map[1 := Member(9, 4, 0), 2 := Member(9, 4, 1)]
  {
    assert [1, 2][..1] == [1] && [1][..0] == [];
    assert Distinct([1]) == [1];
    assert SeatsOf(tables, [1]) == 4;
    assert WithMembers(map[], tables, 9, [1]) == map[1 := Member(9, 4, 0)];
  }

  lemma CodeOfOneLetter()
    ensures NormalizedCode("G") == "G"
  {
    assert TrimStart("G") == "G" && Trim("G") == "G";
  }

  lemma RunOneMore(e: Event, steps: seq<Step>, last: Step)
    ensures Run(e, steps + [last]) == Next(Run(e, steps), last)
  {
    assert (steps + [last])[..|steps|] == steps;
  }

  lemma MergedPair(e: Event)
    requires e.tables == map[1 := Unit(4, true), 2 := Unit(4, true)] && e.groupUnits == map[] && e.groups == map[]
    requires e.members == map[] && e.status == Draft && e.version == 2
    ensures MergeTx(e, 9, "G", [1, 2], {1, 2}, {}) == (Banquet(e.capacity, e.maxPartySize), None)
  {
    PairOfTables(e.tables);
    CodeOfOneLetter();
    assert forall t :: t in [1, 2] ==> Single(e, {1, 2}, t);
  }

  lemma BanquetIsReached(capacity: nat, maxPartySize: Option<nat>)
    ensures Run(NewDraft(capacity, maxPartySize), SET_TABLES) == Banquet(capacity, maxPartySize)
  {
    var e := NewDraft(capacity, maxPartySize);
    RunTwo(e, SET_TABLES[0], SET_TABLES[1]);
    var placed := Next(e, SET_TABLES[0]);
    assert placed.tables == map[1 := Unit(4, true), 2 := Unit(4, true)];
    MergedPair(placed);
  }

  lemma BanquetOk(capacity: nat, maxPartySize: Option<nat>)
    ensures Partition(Banquet(capacity, maxPartySize)) && InventoryCapacity(Banquet(capacity, maxPartySize)) == 8
  {
    var e := Banquet(capacity, maxPartySize);
    var one := map[1 := Unit(4, true)];
    SumAdd(map[], 1, Unit(4, true));
    SumAdd(one, 2, Unit(4, true));
    SumAdd(map[], 9, Unit(8, true));
    assert map[][9 := Unit(8, true)] == e.groupUnits;
    assert MembersOf(e.members, 9) == e.members && AsUnits(e.members) == one[2 := Unit(4, true)];
    assert Physical(e) == AsUnits(e.members);
    assert GroupOk(e, 9);
  }

  /**
   * The orphaned group: a draft's tables are placed, merged and replaced. Its table is then sold as a single, and its
   * other table appears when the group is split.
   */
  lemma ReplaceOrphansGroup()
    ensures var e' := Run(NewDraft(4, None), SET_TABLES + [ReplaceTables(map[1 := 4], true)]);
            && !Partition(e') && 1 in e'.tables && 1 in e'.members
            && 2 !in e'.tables && 2 in SplitTx(e', 9, {}, false).0.tables
  {
    BanquetIsReached(4, None);
    RunOneMore(NewDraft(4, None), SET_TABLES, ReplaceTables(map[1 := 4], true));
    ReplacedBanquet();
  }

  lemma ReplacedBanquet()
    ensures var e' := Next(Banquet(4, None), ReplaceTables(map[1 := 4], true));
            && !Partition(e') && 1 in e'.tables && 1 in e'.members
            && 2 !in e'.tables && 2 in SplitTx(e', 9, {}, false).0.tables
  {
    var e := Banquet(4, None);
    BanquetOk(4, None);
    ReplaceKeepsPartitionExactly(e, map[1 := 4]);
    assert 9 in e.groups;
    assert 2 in MembersOf(e.members, 9);
  }

  // ---------------------------------------------------------------------------------------------
  // Runs
  // ---------------------------------------------------------------------------------------------

  /** Tables are replaced only while no group exists. */
  ghost predicate Orderly(e: Event, steps: seq<Step>) {
    steps == [] || (&& Orderly(e, steps[..|steps| - 1])
                    && (steps[|steps| - 1].ReplaceTables? ==> Run(e, steps[..|steps| - 1]).groups == map[]))
  }

  lemma NextKeepsPartition(e: Event, step: Step)
    requires Partition(e) && (step.ReplaceTables? ==> e.groups == map[])
    ensures Partition(Next(e, step))
    ensures !step.ReplaceTables? || e.status != Draft ==> Physical(Next(e, step)) == Physical(e)
  {
    if step.Merge? {
      MergeKeepsPartition(e, step.groupId, step.code, step.requested, step.active, step.held);
    } else if step.Split? {
      SplitKeepsPartition(e, step.groupId, step.held, step.groupHeld);
    } else if step.ReplaceTables? {
      if e.status == Draft && step.accepted {
        ReplaceKeepsPartitionExactly(e, step.rows);
      }
    } else {
      RelabelKeepsPartition(e, Next(e, step));
    }
  }

  lemma RelabelKeepsPartition(e: Event, e': Event)
    requires Partition(e) && e'.tables == e.tables && e'.groupUnits == e.groupUnits && e'.groups == e.groups
             && e'.members == e.members
    ensures Partition(e') && Physical(e') == Physical(e)
  {
    forall g | g in e'.groups
      ensures GroupOk(e', g)
    {
      assert GroupOk(e, g);
    }
  }

  lemma {:induction false} RunKeepsPartition(e: Event, steps: seq<Step>)
    requires Partition(e) && Orderly(e, steps)
    ensures Partition(Run(e, steps))
  {
    if steps != [] {
      RunKeepsPartition(e, steps[..|steps| - 1]);
      NextKeepsPartition(Run(e, steps[..|steps| - 1]), steps[|steps| - 1]);
    }
  }

  ghost predicate NoReplace(steps: seq<Step>) {
    forall i :: 0 <= i < |steps| ==> !steps[i].ReplaceTables?
  }

  /** Merging, splitting, publishing and editing keep the physical tables and their seats. */
  lemma {:induction false} RunKeepsTables(e: Event, steps: seq<Step>)
    requires Partition(e) && NoReplace(steps)
    ensures Partition(Run(e, steps)) && Physical(Run(e, steps)) == Physical(e)
    ensures InventoryCapacity(Run(e, steps)) == InventoryCapacity(e)
  {
    if steps != [] {
      RunKeepsTables(e, steps[..|steps| - 1]);
      NextKeepsPartition(Run(e, steps[..|steps| - 1]), steps[|steps| - 1]);
    }
  }

  /**
   * From an ungrouped inventory: every single table is always the original one, and ungrouping everything restores it.
   */
  lemma SinglesAreOriginal(e: Event, steps: seq<Step>)
    requires Partition(e) && e.groups == map[] && NoReplace(steps)
    ensures var e' := Run(e, steps);
            && e'.tables.Keys + e'.members.Keys == e.tables.Keys && e'.tables.Keys !! e'.members.Keys
            && (forall t :: t in e'.tables ==> e'.tables[t] == e.tables[t])
            && (forall t :: t in e'.members ==> Unit(e'.members[t].capacity, true) == e.tables[t])
            && (e'.groups == map[] ==> e'.tables == e.tables)
  {
    var e' := Run(e, steps);
    RunKeepsTables(e, steps);
    NoGroupsNoMembers(e);
    assert Physical(e').Keys == e'.tables.Keys + e'.members.Keys;
    forall t | t in e'.tables
      ensures e'.tables[t] == e.tables[t]
    {
      assert Physical(e')[t] == e'.tables[t];
    }
    forall t | t in e'.members
      ensures Unit(e'.members[t].capacity, true) == e.tables[t]
    {
      assert Physical(e')[t] == Unit(e'.members[t].capacity, true);
    }
    if e'.groups == map[] {
      NoGroupsNoMembers(e');
    }
  }

  lemma RegroupingUndone(e: Event, e1: Event, g: GroupId, code: string, ids: set<TableId>)
    requires e.tables.Keys !! e.members.Keys && (forall t :: t in e.members ==> e.members[t].groupId != g)
    requires Merged(e, e1, g, code, ids)
    ensures var back := MembersOf(e1.members, g);
            && back.Keys == ids
            && e1.tables + AsUnits(back) == e.tables && e1.members - ids == e.members
            && e1.groups - {g} == e.groups && e1.groupUnits - {g} == e.groupUnits
  {
    JoiningFillsGroup(e.tables, e.members, e1.members, g, ids);
    assert MembersOf(e1.members, g).Keys == Chosen(e.tables, ids).Keys;
    assert e1.tables + Chosen(e.tables, ids) == e.tables;
  }

  lemma MergedThenSplit(e: Event, e1: Event, g: GroupId, code: string, ids: set<TableId>, held: set<TableId>)
    requires Partition(e) && Merged(e, e1, g, code, ids) && held !! ids
    requires Mutable(e.status) && e1.status == e.status && e1.capacity == e.capacity
             && e1.maxPartySize == e.maxPartySize
    ensures SplitTx(e1, g, held, false) == (e.(version := e1.version + 1), None)
  {
    RegroupingUndone(e, e1, g, code, ids);
  }

  lemma MergeFrame(e: Event, g: GroupId, code: string, requested: seq<TableId>, active: set<TableId>,
                   held: set<TableId>)
    requires MergeTx(e, g, code, requested, active, held).1.None?
    ensures var e1 := MergeTx(e, g, code, requested, active, held).0;
            && Mutable(e.status) && e1.status == e.status && e1.capacity == e.capacity
               && e1.maxPartySize == e.maxPartySize
            && e1.version == e.version + 1
  {
  }

  /** Splitting right after merging gives back the very same rows; only the version moved. */
  lemma SplitUndoesMerge(e: Event, g: GroupId, code: string, requested: seq<TableId>, active: set<TableId>,
                         held: set<TableId>, held': set<TableId>)
    requires Partition(e) && MergeTx(e, g, code, requested, active, held).1.None?
    requires held' !! Ids(Distinct(requested))
    ensures SplitTx(MergeTx(e, g, code, requested, active, held).0, g, held', false)
            == (e.(version := e.version + 2), None)
  {
    var e1 := MergeTx(e, g, code, requested, active, held).0;
    MergeIsMerged(e, g, code, requested, active, held);
    MergeFrame(e, g, code, requested, active, held);
    MergedThenSplit(e, e1, g, NormalizedCode(code), Ids(Distinct(requested)), held');
  }

  /** Off the draft: nothing but the status moves any more, apart from the grouping of the same tables. */
  ghost predicate OnSaleSince(e: Event, e': Event) {
    && e'.status != Draft && e'.capacity == e.capacity && e'.maxPartySize == e.maxPartySize
    && Partition(e') && Physical(e') == Physical(e)
  }

  lemma StepOnSale(e: Event, step: Step)
    requires Partition(e) && e.status != Draft
    ensures OnSaleSince(e, Next(e, step))
  {
    if !step.ReplaceTables? {
      NextKeepsPartition(e, step);
    }
  }

  lemma {:induction false} OnSaleStays(e: Event, steps: seq<Step>)
    requires Partition(e) && e.status != Draft
    ensures OnSaleSince(e, Run(e, steps)) && InventoryCapacity(Run(e, steps)) == InventoryCapacity(e)
  {
    if steps != [] {
      OnSaleStays(e, steps[..|steps| - 1]);
      StepOnSale(Run(e, steps[..|steps| - 1]), steps[|steps| - 1]);
    }
  }

  /** A published event has room for its capacity in every later state, whatever steps follow. */
  lemma PublishedHasRoom(e: Event, startsInFuture: bool, bookingClosesInFuture: bool, steps: seq<Step>)
    requires Partition(e) && PublishTx(e, startsInFuture, bookingClosesInFuture).1.None?
    ensures var e' := Run(PublishTx(e, startsInFuture, bookingClosesInFuture).0, steps);
            && e'.capacity == e.capacity && InventoryCapacity(e') >= e'.capacity
            && Physical(e') == Physical(e)
  {
    var published := PublishTx(e, startsInFuture, bookingClosesInFuture).0;
    RelabelKeepsPartition(e, published);
    OnSaleStays(published, steps);
  }

  // ---------------------------------------------------------------------------------------------
  // The largest party
  // ---------------------------------------------------------------------------------------------

  /** A merge never takes away the unit a party of n would need. */
  lemma MergeKeepsSeating(e: Event, g: GroupId, code: string, requested: seq<TableId>, active: set<TableId>,
                          held: set<TableId>, n: nat)
    requires Partition(e) && SomeUnitSeats(e, n)
    ensures SomeUnitSeats(MergeTx(e, g, code, requested, active, held).0, n)
  {
    var (e', error) := MergeTx(e, g, code, requested, active, held);
    if error.None? {
      var ids := Ids(Distinct(requested));
      MergeIsMerged(e, g, code, requested, active, held);
      if t :| t in e.tables && e.tables[t].enabled && e.tables[t].capacity >= n {
        if t in ids {
          SumRemove(Chosen(e.tables, ids), t);
          assert g in e'.groupUnits && e'.groupUnits[g].capacity >= n;
        } else {
          assert t in e'.tables && e'.tables[t].capacity >= n;
        }
      } else {
        var h :| h in e.groupUnits && e.groupUnits[h].enabled && e.groupUnits[h].capacity >= n;
        assert h in e'.groupUnits && e'.groupUnits[h] == e.groupUnits[h];
      }
    }
  }

  /** Apart from the group itself, some unit seats n. */
  ghost predicate OthersSeat(e: Event, g: GroupId, n: nat) {
    (exists t :: t in e.tables && e.tables[t].enabled && e.tables[t].capacity >= n)
    || (exists h :: h in e.groupUnits && h != g && e.groupUnits[h].enabled && e.groupUnits[h].capacity >= n)
  }

  /** After a split a party of n can be seated exactly when a member or another unit is large enough. */
  lemma SplitSeatsExactly(e: Event, g: GroupId, held: set<TableId>, groupHeld: bool, n: nat)
    requires Partition(e) && SplitTx(e, g, held, groupHeld).1.None?
    ensures SomeUnitSeats(SplitTx(e, g, held, groupHeld).0, n) <==>
              || OthersSeat(e, g, n)
              || exists t :: t in e.members && e.members[t].groupId == g && e.members[t].capacity >= n
  {
    var e' := SplitTx(e, g, held, groupHeld).0;
    forall t
      ensures t in e'.tables <==> t in e.tables || (t in e.members && e.members[t].groupId == g)
      ensures t in e.tables ==> e'.tables[t] == e.tables[t]
      ensures t in e.members && e.members[t].groupId == g ==> e'.tables[t] == Unit(e.members[t].capacity, true)
    {
    }
    if OthersSeat(e, g, n) {
      if t :| t in e.tables && e.tables[t].enabled && e.tables[t].capacity >= n {
        assert t in e'.tables && e'.tables[t].capacity >= n;
      } else {
        var h :| h in e.groupUnits && h != g && e.groupUnits[h].enabled && e.groupUnits[h].capacity >= n;
        assert h in e'.groupUnits && e'.groupUnits[h] == e.groupUnits[h];
      }
    } else if t :| t in e.members && e.members[t].groupId == g && e.members[t].capacity >= n {
      assert t in e'.tables && e'.tables[t].enabled;
    }
  }

  lemma BanquetOnSale()
    ensures var e := Banquet(8, Some(8)); PublishTx(e, true, true) == (e.(status := Published, version := 4), None)
  {
    var e := Banquet(8, Some(8));
    BanquetOk(8, Some(8));
    assert 9 in e.groupUnits && e.groupUnits[9].capacity >= 8;
  }

  /** Placed, merged and published for a party only the group can seat, then split: nobody can seat it any more. */
  lemma SplitCanUnseat()
    ensures var onSale := Run(NewDraft(8, Some(8)), SET_TABLES + [Publish(true, true)]);
            && Partition(onSale) && onSale.status == Published && onSale.maxPartySize == Some(8)
            && SplitTx(onSale, 9, {}, false).1.None?
            && !SomeUnitSeats(SplitTx(onSale, 9, {}, false).0, 8)
  {
    BanquetIsReached(8, Some(8));
    RunOneMore(NewDraft(8, Some(8)), SET_TABLES, Publish(true, true));
    SoldBanquet(Run(NewDraft(8, Some(8)), SET_TABLES + [Publish(true, true)]));
  }

  lemma SoldBanquet(onSale: Event)
    requires onSale == Next(Banquet(8, Some(8)), Publish(true, true))
    ensures Partition(onSale) && onSale.status == Published && onSale.maxPartySize == Some(8)
    ensures SplitTx(onSale, 9, {}, false).1.None? && !SomeUnitSeats(SplitTx(onSale, 9, {}, false).0, 8)
  {
    var e := Banquet(8, Some(8));
    BanquetOnSale();
    assert onSale == e.(status := Published, version := 4);
    BanquetOk(8, Some(8));
    RelabelKeepsPartition(e, onSale);
    SplitOfBanquet(onSale);
  }

  lemma SplitOfBanquet(e: Event)
    requires e == Banquet(8, Some(8)).(status := Published, version := 4)
    ensures SplitTx(e, 9, {}, false).1.None? && !SomeUnitSeats(SplitTx(e, 9, {}, false).0, 8)
  {
    var e' := SplitTx(e, 9, {}, false).0;
    assert e'.groupUnits == map[];
    assert e'.tables == map[1 := Unit(4, true), 2 := Unit(4, true)];
  }

  // ---------------------------------------------------------------------------------------------
  // The service
  // ---------------------------------------------------------------------------------------------

  class EventTableGroups {
    var status: EventStatus
    var capacity: nat
    var maxPartySize: Option<nat>
    var version: nat
    var tables: map<TableId, Unit>
    var groupUnits: map<GroupId, Unit>
    var groups: map<GroupId, Group>
    var members: map<TableId, Member>

    ghost function Rows(): Event
      reads this
    {
      Event(status, capacity, maxPartySize, version, tables, groupUnits, groups, members)
    }

    constructor (capacity: nat)
      ensures Rows() == Event(Draft, capacity, None, 1, map[], map[], map[], map[]) && Partition(Rows())
    {
      status, this.capacity, maxPartySize, version := Draft, capacity, None, 1;
      tables, groupUnits, groups, members := map[], map[], map[], map[];
      new;
      assert Physical(Rows()) == map[];
    }

    /** The members are written one by one, in the order of the request. */
    method InsertMembers(groupId: GroupId, ids: seq<TableId>) returns (total: nat)
      requires forall t :: t in ids ==> t in tables
      modifies this`members
      ensures members == WithMembers(old(members), tables, groupId, ids)
      ensures total == SeatsOf(tables, ids)
    {
      total := 0;
      for i := 0 to |ids|
        invariant members == WithMembers(old(members), tables, groupId, ids[..i])
        invariant total == SeatsOf(tables, ids[..i])
      {
        assert ids[..i + 1][..i] == ids[..i];
        total := total + tables[ids[i]].capacity;
        members := members[ids[i] := Member(groupId, tables[ids[i]].capacity, i)];
      }
      assert ids[..|ids|] == ids;
    }

    method WriteGroup(groupId: GroupId, code: string, total: nat, ids: seq<TableId>)
      requires (forall t :: t in ids ==> t in tables) && total == SeatsOf(tables, ids)
      modifies this`groups, this`members, this`tables, this`groupUnits, this`version
      ensures groups == old(groups)[groupId := Group(code, total)]
      ensures members == WithMembers(old(members), old(tables), groupId, ids)
      ensures tables == old(tables) - Ids(ids) && groupUnits == old(groupUnits)[groupId := Unit(total, true)]
      ensures version == old(version) + 1
    {
      groups := groups[groupId := Group(code, total)];
      var inserted := InsertMembers(groupId, ids);
      tables := tables - (set t | t in ids);
      groupUnits := groupUnits[groupId := Unit(inserted, true)];
      version := version + 1;
    }

    method Merge(groupId: GroupId, code: string, requested: seq<TableId>, active: set<TableId>, held: set<TableId>)
      returns (error: Option<InventoryError>)
      modifies this
      ensures (Rows(), error) == MergeTx(old(Rows()), groupId, code, requested, active, held)
    {
      if !Mutable(status) {
        return Some(InventoryLocked);
      }
      var ids := Distinct(requested);
      if t :| t in ids && !(t in tables && tables[t].enabled && t in active) {
        assert !Single(Rows(), active, t);
        return Some(GroupSourceInvalid);
      }
      if t :| t in ids && t in held {
        return Some(TablesAssigned);
      }
      var normalized, total := NormalizedCode(code), SeatsOf(tables, ids);
      if Violates(groups, groupUnits, members, groupId, normalized, total, ids) {
        return Some(ConstraintViolated);
      }
      WriteGroup(groupId, normalized, total, ids);
      error := None;
    }

    method RestoreTables(back: map<TableId, Member>)
      modifies this`tables
      ensures tables == old(tables) + AsUnits(back)
    {
      var remaining := back.Keys;
      while remaining != {}
        invariant remaining <= back.Keys
        invariant tables == old(tables) + AsUnits(map t | t in back && t !in remaining :: back[t])
      {
        var t :| t in remaining;
        tables := tables[t := Unit(back[t].capacity, true)];
        remaining := remaining - {t};
      }
      assert (map t | t in back && t !in remaining :: back[t]) == back;
    }

    method Split(groupId: GroupId, held: set<TableId>, groupHeld: bool) returns (error: Option<InventoryError>)
      modifies this
      ensures (Rows(), error) == SplitTx(old(Rows()), groupId, held, groupHeld)
    {
      if !Mutable(status) {
        return Some(InventoryLocked);
      }
      if groupId !in groups {
        return Some(GroupNotFound);
      }
      var back := MembersOf(members, groupId);
      if (exists t :: t in back && t in held) || groupHeld {
        return Some(TablesAssigned);
      }
      groupUnits := groupUnits - {groupId};
      RestoreTables(back);
      groups := groups - {groupId};
      members := members - back.Keys;
      version := version + 1;
      error := None;
    }
  }
}
