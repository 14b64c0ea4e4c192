/**
 * The canonical form behind the fiscal request hash: object members sorted by key at every depth. Two values get
 * the same form exactly when they differ only in the order of keys - provided the comparison tells keys apart.
 */
module CanonicalJson {
  import opened Wrappers

  datatype Json =
    | Null
    | Bool(flag: bool)
    | Number(number: real)
    | Text(text: string)
    | Array(items: seq<Json>)
    | Object(members: seq<Member>)

  datatype Member = Member(key: string, value: Json)

  /** The sign says how two keys compare, as with `localeCompare`. */
  type Compare = (string, string) -> int

  ghost predicate TotalPreorder(compare: Compare) {
    && (forall a, b :: compare(a, b) <= 0 || compare(b, a) <= 0)
    && (forall a, b, c {:trigger compare(a, b), compare(b, c)} ::
          compare(a, b) <= 0 && compare(b, c) <= 0 ==> compare(a, c) <= 0)
  }

  // ---------------------------------------------------------------------------------------------
  // The canonical form
  // ---------------------------------------------------------------------------------------------

  /** A stable insertion: equal keys keep their order. */
  function Insert(compare: Compare, m: Member, s: seq<Member>): seq<Member> {
    if s == [] || compare(s[|s| - 1].key, m.key) <= 0 then s + [m]
    else Insert(compare, m, s[..|s| - 1]) + [s[|s| - 1]]
  }

  function Sort(compare: Compare, s: seq<Member>): seq<Member> {
    if s == [] then [] else Insert(compare, s[|s| - 1], Sort(compare, s[..|s| - 1]))
  }

  /** Sorting looks at keys only, so it may come before or after the members' values are made canonical. */
  function Canonical(compare: Compare, j: Json): Json {
    match j
    case Array(items) => Array(seq(|items|, i requires 0 <= i < |items| => Canonical(compare, items[i])))
    case Object(members) => Object(Sort(compare, CanonicalMembers(compare, members)))
    case _ => j
  }

  function CanonicalMembers(compare: Compare, members: seq<Member>): (r: seq<Member>)
    ensures |r| == |members|
    ensures forall i :: 0 <= i < |members| ==> r[i] == Member(members[i].key, Canonical(compare, members[i].value))
  {
    seq(|members|, i requires 0 <= i < |members| => Member(members[i].key, Canonical(compare, members[i].value)))
  }

  // ---------------------------------------------------------------------------------------------
  // Equality up to the order of keys
  // ---------------------------------------------------------------------------------------------

  function KeySet(members: seq<Member>): set<string> {
    set i | 0 <= i < |members| :: members[i].key
  }

  function IndexOf(members: seq<Member>, key: string): (r: Option<nat>)
    ensures r.Some? ==> r.value < |members| && members[r.value].key == key
    ensures r.None? <==> key !in KeySet(members)
  {
    if members == [] then None
    else if members[|members| - 1].key == key then Some(|members| - 1)
    else
      assert forall i :: 0 <= i < |members| - 1 ==> members[..|members| - 1][i] == members[i];
      IndexOf(members[..|members| - 1], key)
  }

  /** Equal except for the order of keys. */
  predicate Same(a: Json, b: Json)
    decreases a
  {
    match a
    case Array(items) =>
      b.Array? && |b.items| == |items| && forall i :: 0 <= i < |items| ==> Same(items[i], b.items[i])
    case Object(members) =>
      b.Object? && KeySet(b.members) == KeySet(members)
      && forall i :: 0 <= i < |members| ==> SameMember(members[i], b.members)
    case _ => a == b
  }

  /** Some object's member with this key has the same value. */
  predicate SameMember(m: Member, members: seq<Member>)
    decreases m
  {
    var found := IndexOf(members, m.key);
    found.Some? && Same(m.value, members[found.value].value)
  }

  ghost predicate DistinctKeys(members: seq<Member>) {
    forall i, j :: 0 <= i < j < |members| ==> members[i].key != members[j].key
  }

  /** Every object, at every depth, has distinct keys: true of every parsed value. */
  ghost predicate Valid(j: Json) {
    match j
    case Array(items) => forall i :: 0 <= i < |items| ==> Valid(items[i])
    case Object(members) => DistinctKeys(members) && forall i :: 0 <= i < |members| ==> Valid(members[i].value)
    case _ => true
  }

  ghost predicate Separates(compare: Compare, members: seq<Member>) {
    forall i, j :: 0 <= i < |members| && 0 <= j < |members| && members[i].key != members[j].key ==>
      !(compare(members[i].key, members[j].key) <= 0 && compare(members[j].key, members[i].key) <= 0)
  }

  /** At every depth, the comparison tells different keys of one object apart. */
  ghost predicate Separated(compare: Compare, j: Json) {
    match j
    case Array(items) => forall i :: 0 <= i < |items| ==> Separated(compare, items[i])
    case Object(members) =>
      Separates(compare, members) && forall i :: 0 <= i < |members| ==> Separated(compare, members[i].value)
    case _ => true
  }

  // ---------------------------------------------------------------------------------------------
  // Sorting
  // ---------------------------------------------------------------------------------------------

  ghost predicate Sorted(compare: Compare, s: seq<Member>) {
    forall i, j :: 0 <= i < j < |s| ==> compare(s[i].key, s[j].key) <= 0
  }

  lemma {:induction false} InsertHolds(compare: Compare, m: Member, s: seq<Member>)
    ensures |Insert(compare, m, s)| == |s| + 1
    ensures forall x :: x in Insert(compare, m, s) <==> x in s || x == m
  {
    if !(s == [] || compare(s[|s| - 1].key, m.key) <= 0) {
      assert s == s[..|s| - 1] + [s[|s| - 1]];
      InsertHolds(compare, m, s[..|s| - 1]);
    }
  }

  lemma {:induction false} InsertSorted(compare: Compare, m: Member, s: seq<Member>)
    requires TotalPreorder(compare) && Sorted(compare, s)
    ensures Sorted(compare, Insert(compare, m, s))
  {
    if s == [] {
    } else {
      var last := s[|s| - 1];
      if compare(last.key, m.key) <= 0 {
        forall i | 0 <= i < |s|
          ensures compare(s[i].key, m.key) <= 0
        {
          assert i < |s| - 1 ==> compare(s[i].key, last.key) <= 0;
        }
      } else {
        var front := Insert(compare, m, s[..|s| - 1]);
        InsertSorted(compare, m, s[..|s| - 1]);
        InsertHolds(compare, m, s[..|s| - 1]);
        forall i | 0 <= i < |front|
          ensures compare(front[i].key, last.key) <= 0
        {
          assert front[i] in front;
        }
      }
    }
  }

  lemma {:induction false} SortSorts(compare: Compare, s: seq<Member>)
    requires TotalPreorder(compare)
    ensures Sorted(compare, Sort(compare, s))
  {
    if s != [] {
      SortSorts(compare, s[..|s| - 1]);
      InsertSorted(compare, s[|s| - 1], Sort(compare, s[..|s| - 1]));
    }
  }

  lemma {:induction false} SortHolds(compare: Compare, s: seq<Member>)
    ensures |Sort(compare, s)| == |s|
    ensures forall x :: x in Sort(compare, s) <==> x in s
  {
    if s != [] {
      SortHolds(compare, s[..|s| - 1]);
      InsertHolds(compare, s[|s| - 1], Sort(compare, s[..|s| - 1]));
      assert s == s[..|s| - 1] + [s[|s| - 1]];
    }
  }

  lemma {:induction false} SortOfSorted(compare: Compare, s: seq<Member>)
    requires Sorted(compare, s)
    ensures Sort(compare, s) == s
  {
    if s != [] {
      SortOfSorted(compare, s[..|s| - 1]);
      assert |s| >= 2 ==> compare(s[|s| - 2].key, s[|s| - 1].key) <= 0;
    }
  }

  lemma {:induction false} InsertDistinct(compare: Compare, m: Member, s: seq<Member>)
    requires DistinctKeys(s) && forall x :: x in s ==> x.key != m.key
    ensures DistinctKeys(Insert(compare, m, s))
  {
    if !(s == [] || compare(s[|s| - 1].key, m.key) <= 0) {
      var front, last := s[..|s| - 1], s[|s| - 1];
      InsertDistinct(compare, m, front);
      InsertHolds(compare, m, front);
      forall i | 0 <= i < |Insert(compare, m, front)|
        ensures Insert(compare, m, front)[i].key != last.key
      {
        assert Insert(compare, m, front)[i] in Insert(compare, m, front);
      }
    }
  }

  lemma {:induction false} SortDistinct(compare: Compare, s: seq<Member>)
    requires DistinctKeys(s)
    ensures DistinctKeys(Sort(compare, s))
  {
    if s != [] {
      SortDistinct(compare, s[..|s| - 1]);
      SortHolds(compare, s[..|s| - 1]);
      InsertDistinct(compare, s[|s| - 1], Sort(compare, s[..|s| - 1]));
    }
  }

  lemma {:induction false} InsertCommutes(compare: Compare, m: Member, s: seq<Member>)
    ensures CanonicalMembers(compare, Insert(compare, m, s))
            == Insert(compare, Member(m.key, Canonical(compare, m.value)), CanonicalMembers(compare, s))
  {
    if !(s == [] || compare(s[|s| - 1].key, m.key) <= 0) {
      InsertCommutes(compare, m, s[..|s| - 1]);
      assert CanonicalMembers(compare, s)[..|s| - 1] == CanonicalMembers(compare, s[..|s| - 1]);
    }
  }

  /** Sorting first and making the values canonical afterwards, as the code does, gives the same members. */
  lemma {:induction false} SortCommutes(compare: Compare, s: seq<Member>)
    ensures CanonicalMembers(compare, Sort(compare, s)) == Sort(compare, CanonicalMembers(compare, s))
  {
    if s != [] {
      var front, last := s[..|s| - 1], s[|s| - 1];
      SortCommutes(compare, front);
      InsertCommutes(compare, last, Sort(compare, front));
      assert CanonicalMembers(compare, s)[..|s| - 1] == CanonicalMembers(compare, front);
    }
  }

  lemma LastIsSame(compare: Compare, a: seq<Member>, b: seq<Member>)
    requires a != [] && b != [] && Sorted(compare, a) && Sorted(compare, b) && DistinctKeys(b) && Separates(compare, b)
    requires forall x :: x in a <==> x in b
    ensures a[|a| - 1] == b[|b| - 1]
  {
    var x, y := a[|a| - 1], b[|b| - 1];
    assert x in b && y in a;
    var i :| 0 <= i < |b| && b[i] == x;
    var j :| 0 <= j < |a| && a[j] == y;
    assert i < |b| - 1 ==> compare(x.key, y.key) <= 0 && x.key != y.key;
    assert j < |a| - 1 ==> compare(y.key, x.key) <= 0;
  }

  lemma FrontHolds(s: seq<Member>, x: Member)
    requires s != [] && DistinctKeys(s)
    ensures x in s[..|s| - 1] <==> x in s && x != s[|s| - 1]
  {
    assert s == s[..|s| - 1] + [s[|s| - 1]];
  }

  lemma BothEmpty(a: seq<Member>, b: seq<Member>)
    requires forall x :: x in a <==> x in b
    ensures a == [] <==> b == []
  {
    assert a != [] ==> a[0] in b;
    assert b != [] ==> b[0] in a;
  }

  /** Two sorted member lists that hold the same members are the same list. */
  lemma {:induction false} SortedIsUnique(compare: Compare, a: seq<Member>, b: seq<Member>)
    requires Sorted(compare, a) && Sorted(compare, b) && DistinctKeys(a) && DistinctKeys(b) && Separates(compare, b)
    requires forall x :: x in a <==> x in b
    ensures a == b
  {
    BothEmpty(a, b);
    if a != [] {
      var a', b' := a[..|a| - 1], b[..|b| - 1];
      LastIsSame(compare, a, b);
      forall x
        ensures x in a' <==> x in b'
      {
        FrontHolds(a, x);
        FrontHolds(b, x);
      }
      SortedIsUnique(compare, a', b');
      assert a == a' + [a[|a| - 1]] && b == b' + [b[|b| - 1]];
    }
  }

  // ---------------------------------------------------------------------------------------------
  // The theorems
  // ---------------------------------------------------------------------------------------------

  lemma CanonicalIsIdempotent(compare: Compare, j: Json)
    requires TotalPreorder(compare)
    ensures Canonical(compare, Canonical(compare, j)) == Canonical(compare, j)
    decreases j
  {
    match j
    case Array(items) =>
      forall i | 0 <= i < |items|
        ensures Canonical(compare, Canonical(compare, items[i])) == Canonical(compare, items[i])
      {
        CanonicalIsIdempotent(compare, items[i]);
      }
    case Object(members) =>
      var once := CanonicalMembers(compare, members);
      forall i | 0 <= i < |members|
        ensures Canonical(compare, once[i].value) == once[i].value
      {
        CanonicalIsIdempotent(compare, members[i].value);
      }
      assert CanonicalMembers(compare, once) == once;
      SortCommutes(compare, once);
      SortSorts(compare, once);
      SortOfSorted(compare, Sort(compare, once));
    case _ =>
  }

  lemma CanonicalIsValid(compare: Compare, j: Json)
    requires Valid(j)
    ensures Valid(Canonical(compare, j))
    decreases j
  {
    match j
    case Array(items) =>
      forall i | 0 <= i < |items|
        ensures Valid(Canonical(compare, items[i]))
      {
        CanonicalIsValid(compare, items[i]);
      }
    case Object(members) =>
      var once := CanonicalMembers(compare, members);
      SortDistinct(compare, once);
      SortHolds(compare, once);
      forall x | x in Sort(compare, once)
        ensures Valid(x.value)
      {
        var i :| 0 <= i < |once| && once[i] == x;
        CanonicalIsValid(compare, members[i].value);
      }
    case _ =>
  }

  lemma DistinctIndex(members: seq<Member>, i: nat)
    requires DistinctKeys(members) && i < |members|
    ensures IndexOf(members, members[i].key) == Some(i)
  {
    assert members[i].key in KeySet(members);
  }

  predicate FoundIn(compare: Compare, m: Member, b: seq<Member>) {
    var found := IndexOf(b, m.key);
    found.Some? && Canonical(compare, m.value) == Canonical(compare, b[found.value].value)
  }

  /** One object's canonical members are found in the other's. */
  lemma MembersOfSame(compare: Compare, a: seq<Member>, b: seq<Member>)
    requires DistinctKeys(a) && DistinctKeys(b) && KeySet(a) == KeySet(b)
    requires forall i :: 0 <= i < |a| ==> FoundIn(compare, a[i], b)
    ensures forall x :: x in CanonicalMembers(compare, a) <==> x in CanonicalMembers(compare, b)
  {
    var ca, cb := CanonicalMembers(compare, a), CanonicalMembers(compare, b);
    forall x | x in ca
      ensures x in cb
    {
      var i :| 0 <= i < |ca| && ca[i] == x;
      assert cb[IndexOf(b, a[i].key).value] == x;
    }
    forall x | x in cb
      ensures x in ca
    {
      var j :| 0 <= j < |cb| && cb[j] == x;
      assert b[j].key in KeySet(a);
      var i :| 0 <= i < |a| && a[i].key == b[j].key;
      DistinctIndex(b, j);
      assert ca[i] == x;
    }
  }

  /** Values that differ only in the order of keys have one canonical form, if the comparison separates their keys. */
  lemma SameHasOneForm(compare: Compare, a: Json, b: Json)
    requires TotalPreorder(compare) && Valid(a) && Valid(b) && Separated(compare, b) && Same(a, b)
    ensures Canonical(compare, a) == Canonical(compare, b)
    decreases a
  {
    match a
    case Array(items) =>
      forall i | 0 <= i < |items|
        ensures Canonical(compare, items[i]) == Canonical(compare, b.items[i])
      {
        SameHasOneForm(compare, items[i], b.items[i]);
      }
    case Object(members) =>
      forall i | 0 <= i < |members|
        ensures FoundIn(compare, members[i], b.members)
      {
        assert SameMember(members[i], b.members);
        SameHasOneForm(compare, members[i].value, b.members[IndexOf(b.members, members[i].key).value].value);
      }
      MembersOfSame(compare, members, b.members);
      SameMembersSort(compare, CanonicalMembers(compare, members), CanonicalMembers(compare, b.members));
    case _ =>
  }

  lemma SortedForm(compare: Compare, s: seq<Member>)
    requires TotalPreorder(compare) && DistinctKeys(s)
    ensures Sorted(compare, Sort(compare, s)) && DistinctKeys(Sort(compare, s))
    ensures forall x :: x in Sort(compare, s) <==> x in s
    ensures Separates(compare, s) ==> Separates(compare, Sort(compare, s))
  {
    SortSorts(compare, s);
    SortDistinct(compare, s);
    SortHolds(compare, s);
    if Separates(compare, s) {
      SortSeparates(compare, s);
    }
  }

  lemma SameMembersSort(compare: Compare, a: seq<Member>, b: seq<Member>)
    requires TotalPreorder(compare) && DistinctKeys(a) && DistinctKeys(b) && Separates(compare, b)
    requires forall x :: x in a <==> x in b
    ensures Sort(compare, a) == Sort(compare, b)
  {
    SortedForm(compare, a);
    SortedForm(compare, b);
    SortedIsUnique(compare, Sort(compare, a), Sort(compare, b));
  }

  lemma SortSeparates(compare: Compare, s: seq<Member>)
    requires Separates(compare, s)
    ensures Separates(compare, Sort(compare, s))
  {
    var t := Sort(compare, s);
    SortHolds(compare, s);
    forall i, j | 0 <= i < |t| && 0 <= j < |t| && t[i].key != t[j].key
      ensures !(compare(t[i].key, t[j].key) <= 0 && compare(t[j].key, t[i].key) <= 0)
    {
      assert t[i] in s && t[j] in s;
      var x :| 0 <= x < |s| && s[x] == t[i];
      var y :| 0 <= y < |s| && s[y] == t[j];
    }
  }

  /** One canonical form means equal up to the order of keys, whatever the comparison. */
  lemma OneFormIsSame(compare: Compare, a: Json, b: Json)
    requires Valid(a) && Valid(b) && Canonical(compare, a) == Canonical(compare, b)
    ensures Same(a, b)
    decreases a
  {
    match a
    case Array(items) =>
      assert b.Array? && |b.items| == |items|;
      forall i | 0 <= i < |items|
        ensures Same(items[i], b.items[i])
      {
        assert Canonical(compare, a).items[i] == Canonical(compare, items[i]);
        assert Canonical(compare, b).items[i] == Canonical(compare, b.items[i]);
        OneFormIsSame(compare, items[i], b.items[i]);
      }
    case Object(members) =>
      assert b.Object?;
      OneFormKeys(compare, members, b.members);
      OneFormKeys(compare, b.members, members);
      forall i | 0 <= i < |members|
        ensures SameMember(members[i], b.members)
      {
        OneFormFound(compare, members, b.members, i);
        OneFormIsSame(compare, members[i].value, b.members[IndexOf(b.members, members[i].key).value].value);
      }
    case _ =>
  }

  lemma OneFormHolds(compare: Compare, s: seq<Member>, t: seq<Member>, x: Member)
    requires Sort(compare, s) == Sort(compare, t)
    ensures x in s <==> x in t
  {
    SortHolds(compare, s);
    SortHolds(compare, t);
  }

  /** The member of the other object with the same key and the same canonical value. */
  lemma MemberFound(compare: Compare, a: seq<Member>, b: seq<Member>, i: nat)
    requires DistinctKeys(b) && i < |a| && CanonicalMembers(compare, a)[i] in CanonicalMembers(compare, b)
    ensures a[i].key in KeySet(b) && IndexOf(b, a[i].key).Some?
    ensures Canonical(compare, a[i].value) == Canonical(compare, b[IndexOf(b, a[i].key).value].value)
  {
    var ca, cb := CanonicalMembers(compare, a), CanonicalMembers(compare, b);
    var j :| 0 <= j < |cb| && cb[j] == ca[i];
    DistinctIndex(b, j);
  }

  lemma OneFormFound(compare: Compare, a: seq<Member>, b: seq<Member>, i: nat)
    requires DistinctKeys(b) && i < |a|
    requires Sort(compare, CanonicalMembers(compare, a)) == Sort(compare, CanonicalMembers(compare, b))
    ensures a[i].key in KeySet(b) && FoundIn(compare, a[i], b)
  {
    var ca, cb := CanonicalMembers(compare, a), CanonicalMembers(compare, b);
    assert ca[i] in ca;
    OneFormHolds(compare, ca, cb, ca[i]);
    MemberFound(compare, a, b, i);
  }

  lemma OneFormKeys(compare: Compare, a: seq<Member>, b: seq<Member>)
    requires DistinctKeys(b)
    requires Sort(compare, CanonicalMembers(compare, a)) == Sort(compare, CanonicalMembers(compare, b))
    ensures KeySet(a) <= KeySet(b)
  {
    forall k | k in KeySet(a)
      ensures k in KeySet(b)
    {
      var i :| 0 <= i < |a| && a[i].key == k;
      OneFormFound(compare, a, b, i);
    }
  }

  /** The canonical form means the same as the value, at every depth. */
  lemma CanonicalKeepsMeaning(compare: Compare, j: Json)
    requires TotalPreorder(compare) && Valid(j)
    ensures Same(j, Canonical(compare, j))
  {
    CanonicalIsValid(compare, j);
    CanonicalIsIdempotent(compare, j);
    OneFormIsSame(compare, j, Canonical(compare, j));
  }

  /** Under a separating comparison, one form exactly when equal up to the order of keys. */
  lemma OneFormExactlyWhenSame(compare: Compare, a: Json, b: Json)
    requires TotalPreorder(compare) && Valid(a) && Valid(b) && Separated(compare, b)
    ensures Canonical(compare, a) == Canonical(compare, b) <==> Same(a, b)
  {
    if Same(a, b) {
      SameHasOneForm(compare, a, b);
    }
    if Canonical(compare, a) == Canonical(compare, b) {
      OneFormIsSame(compare, a, b);
    }
  }

  function Pair(first: string, second: string): Json {
    Object([Member(first, Null), Member(second, Null)])
  }

  /** Two keys the comparison takes for equal: the order they were written in survives into the hash. */
  lemma ConflatedKeysKeepTheirOrder(compare: Compare, k: string, l: string)
    requires k != l && compare(k, l) <= 0 && compare(l, k) <= 0
    ensures Valid(Pair(k, l)) && Valid(Pair(l, k)) && Same(Pair(k, l), Pair(l, k))
    ensures Canonical(compare, Pair(k, l)) != Canonical(compare, Pair(l, k))
  {
    PairForm(compare, k, l);
    PairForm(compare, l, k);
    var a, b := Pair(k, l).members, Pair(l, k).members;
    assert KeySet(a) == {k, l} by {
      assert a[0].key == k && a[1].key == l;
    }
    assert KeySet(b) == {k, l} by {
      assert b[0].key == l && b[1].key == k;
    }
    DistinctIndex(b, 0);
    DistinctIndex(b, 1);
    assert SameMember(a[0], b) && SameMember(a[1], b);
  }

  lemma PairForm(compare: Compare, k: string, l: string)
    requires compare(k, l) <= 0
    ensures Canonical(compare, Pair(k, l)) == Pair(k, l)
  {
    var s := [Member(k, Null), Member(l, Null)];
    assert CanonicalMembers(compare, s) == s;
    assert s[..1] == [Member(k, Null)];
    assert s[..1][..0] == [];
    assert Sort(compare, s[..1]) == s[..1];
  }

  ghost predicate SeparatesAllKeys(compare: Compare) {
    forall k, l :: k != l ==> !(compare(k, l) <= 0 && compare(l, k) <= 0)
  }

  ghost predicate HashesByMeaning(compare: Compare) {
    forall a, b :: Valid(a) && Valid(b) && Same(a, b) ==> Canonical(compare, a) == Canonical(compare, b)
  }

  lemma SeparatedEverywhere(compare: Compare, j: Json)
    requires SeparatesAllKeys(compare)
    ensures Separated(compare, j)
    decreases j
  {
    match j
    case Array(items) =>
      forall i | 0 <= i < |items|
        ensures Separated(compare, items[i])
      {
        SeparatedEverywhere(compare, items[i]);
      }
    case Object(members) =>
      forall i | 0 <= i < |members|
        ensures Separated(compare, members[i].value)
      {
        SeparatedEverywhere(compare, members[i].value);
      }
    case _ =>
  }

  /** The form depends on the meaning alone exactly when no two different keys compare as equal. */
  lemma HashesByMeaningExactly(compare: Compare)
    requires TotalPreorder(compare)
    ensures HashesByMeaning(compare) <==> SeparatesAllKeys(compare)
  {
    if SeparatesAllKeys(compare) {
      forall a, b | Valid(a) && Valid(b) && Same(a, b)
        ensures Canonical(compare, a) == Canonical(compare, b)
      {
        SeparatedEverywhere(compare, b);
        SameHasOneForm(compare, a, b);
      }
    } else {
      var k, l :| k != l && compare(k, l) <= 0 && compare(l, k) <= 0;
      ConflatedKeysKeepTheirOrder(compare, k, l);
    }
  }

  // ---------------------------------------------------------------------------------------------
  // Value by value
  // ---------------------------------------------------------------------------------------------

  lemma SameAsItself(j: Json)
    requires Valid(j)
    ensures Same(j, j)
  {
    OneFormIsSame((k, l) => 0, j, j);
  }

  lemma CanonicalIsSame(compare: Compare, j: Json)
    requires TotalPreorder(compare) && Valid(j)
    ensures Same(Canonical(compare, j), j)
  {
    CanonicalIsValid(compare, j);
    CanonicalIsIdempotent(compare, j);
    OneFormIsSame(compare, Canonical(compare, j), j);
  }

  function Swapped(s: seq<Member>, i: nat, j: nat): (r: seq<Member>)
    requires i < j < |s|
    ensures |r| == |s|
  {
    s[i := s[j]][j := s[i]]
  }

  /** Swapping two members the comparison takes for equal leaves a sorted list sorted. */
  lemma SwapKeepsSorted(compare: Compare, s: seq<Member>, i: nat, j: nat)
    requires TotalPreorder(compare) && Sorted(compare, s) && i < j < |s| && compare(s[j].key, s[i].key) <= 0
    ensures Sorted(compare, Swapped(s, i, j))
  {
    var t := Swapped(s, i, j);
    forall p, q | 0 <= p < q < |t|
      ensures compare(t[p].key, t[q].key) <= 0
    {
      var x, y := s[i].key, s[j].key;
      assert compare(x, y) <= 0;
      assert q > i && q != j && p == i ==> compare(y, x) <= 0 && compare(x, s[q].key) <= 0;
      assert q == i ==> compare(s[p].key, x) <= 0 && compare(x, y) <= 0;
      assert q == j && p != i ==> (p > i ==> compare(s[p].key, y) <= 0 && compare(y, x) <= 0);
      assert p == j ==> compare(x, y) <= 0 && compare(y, s[q].key) <= 0;
    }
  }

  lemma SwapHolds(s: seq<Member>, i: nat, j: nat)
    requires i < j < |s| && DistinctKeys(s)
    ensures forall x :: x in Swapped(s, i, j) <==> x in s
    ensures DistinctKeys(Swapped(s, i, j)) && Swapped(s, i, j) != s
  {
    var t := Swapped(s, i, j);
    assert t[i] == s[j] && t[j] == s[i];
    forall x
      ensures x in t <==> x in s
    {
      if k :| 0 <= k < |s| && s[k] == x {
        assert t[if k == i then j else if k == j then i else k] == x;
      }
      if k :| 0 <= k < |t| && t[k] == x {
        assert s[if k == i then j else if k == j then i else k] == x;
      }
    }
  }

  /** Members whose values are canonical already, in any order, are the same object. */
  lemma CanonicalMembersAreSame(compare: Compare, members: seq<Member>, t: seq<Member>)
    requires TotalPreorder(compare) && Valid(Object(members)) && DistinctKeys(t)
    requires forall x :: x in t <==> x in CanonicalMembers(compare, members)
    ensures Valid(Object(t)) && Same(Object(t), Object(members)) && CanonicalMembers(compare, t) == t
  {
    var cm := CanonicalMembers(compare, members);
    forall p | 0 <= p < |t|
      ensures Valid(t[p].value) && SameMember(t[p], members) && Canonical(compare, t[p].value) == t[p].value
      ensures t[p].key in KeySet(members)
    {
      assert t[p] in cm;
      var q :| 0 <= q < |cm| && cm[q] == t[p];
      DistinctIndex(members, q);
      CanonicalIsSame(compare, members[q].value);
      CanonicalIsValid(compare, members[q].value);
      CanonicalIsIdempotent(compare, members[q].value);
    }
    forall q | 0 <= q < |members|
      ensures members[q].key in KeySet(t)
    {
      assert cm[q] in t;
      var p :| 0 <= p < |t| && t[p] == cm[q];
      assert t[p].key == members[q].key;
    }
    assert KeySet(t) == KeySet(members);
  }

  /** Where two conflated keys of an object end up in its canonical form. */
  lemma ConflatedPositions(compare: Compare, members: seq<Member>) returns (i: nat, j: nat)
    requires TotalPreorder(compare) && DistinctKeys(members) && !Separates(compare, members)
    ensures var s := Sort(compare, CanonicalMembers(compare, members));
            i < j < |s| && compare(s[j].key, s[i].key) <= 0
  {
    var cm := CanonicalMembers(compare, members);
    var s := Sort(compare, cm);
    var x, y :| 0 <= x < |members| && 0 <= y < |members| && members[x].key != members[y].key
                && compare(members[x].key, members[y].key) <= 0 && compare(members[y].key, members[x].key) <= 0;
    SortHolds(compare, cm);
    assert cm[x] in s && cm[y] in s;
    var a :| 0 <= a < |s| && s[a] == cm[x];
    var b :| 0 <= b < |s| && s[b] == cm[y];
    i, j := if a < b then a else b, if a < b then b else a;
  }

  lemma ReorderHere(compare: Compare, members: seq<Member>) returns (a: Json)
    requires TotalPreorder(compare) && Valid(Object(members)) && !Separates(compare, members)
    ensures Valid(a) && Same(a, Object(members)) && Canonical(compare, a) != Canonical(compare, Object(members))
  {
    var cm := CanonicalMembers(compare, members);
    var s := Sort(compare, cm);
    SortedForm(compare, cm);
    var i, j := ConflatedPositions(compare, members);
    var t := Swapped(s, i, j);
    SwapHolds(s, i, j);
    SwapKeepsSorted(compare, s, i, j);
    CanonicalMembersAreSame(compare, members, t);
    SortOfSorted(compare, t);
    a := Object(t);
  }

  lemma ReorderMember(compare: Compare, members: seq<Member>, i: nat, value: Json)
    requires TotalPreorder(compare) && Valid(Object(members)) && i < |members|
    requires Valid(value) && Same(value, members[i].value)
             && Canonical(compare, value) != Canonical(compare, members[i].value)
    ensures var a := Object(members[i := Member(members[i].key, value)]);
            Valid(a) && Same(a, Object(members)) && Canonical(compare, a) != Canonical(compare, Object(members))
  {
    var changed := members[i := Member(members[i].key, value)];
    forall p | 0 <= p < |changed|
      ensures SameMember(changed[p], members)
    {
      DistinctIndex(members, p);
      SameAsItself(members[p].value);
    }
    SameKeys(members, i, value);
    if Canonical(compare, Object(changed)) == Canonical(compare, Object(members)) {
      OneFormFound(compare, changed, members, i);
      DistinctIndex(members, i);
      assert false;
    }
  }

  lemma SameKeys(members: seq<Member>, i: nat, value: Json)
    requires i < |members|
    ensures KeySet(members[i := Member(members[i].key, value)]) == KeySet(members)
  {
    var changed := members[i := Member(members[i].key, value)];
    assert forall p :: 0 <= p < |members| ==> changed[p].key == members[p].key;
  }

  lemma ReorderItem(compare: Compare, items: seq<Json>, i: nat, value: Json)
    requires Valid(Array(items)) && i < |items|
    requires Valid(value) && Same(value, items[i]) && Canonical(compare, value) != Canonical(compare, items[i])
    ensures var a := Array(items[i := value]);
            Valid(a) && Same(a, Array(items)) && Canonical(compare, a) != Canonical(compare, Array(items))
  {
    forall p | 0 <= p < |items|
      ensures Same(items[i := value][p], items[p])
    {
      SameAsItself(items[p]);
    }
    assert Canonical(compare, Array(items[i := value])).items[i] == Canonical(compare, value);
    assert Canonical(compare, Array(items)).items[i] == Canonical(compare, items[i]);
  }

  /** A value with two conflated keys at some depth has a reordering with another form. */
  lemma {:induction false} Reordered(compare: Compare, b: Json) returns (a: Json)
    requires TotalPreorder(compare) && Valid(b) && !Separated(compare, b)
    ensures Valid(a) && Same(a, b) && Canonical(compare, a) != Canonical(compare, b)
    decreases b
  {
    match b
    case Array(items) =>
      var i :| 0 <= i < |items| && !Separated(compare, items[i]);
      var value := Reordered(compare, items[i]);
      ReorderItem(compare, items, i, value);
      a := Array(items[i := value]);
    case Object(members) =>
      if !Separates(compare, members) {
        a := ReorderHere(compare, members);
      } else {
        var i :| 0 <= i < |members| && !Separated(compare, members[i].value);
        var value := Reordered(compare, members[i].value);
        ReorderMember(compare, members, i, value);
        a := Object(members[i := Member(members[i].key, value)]);
      }
    case _ =>
      a := b;
      assert false;
  }

  /** Every way of writing the value has its form. */
  ghost predicate OneForm(compare: Compare, b: Json) {
    forall a :: Valid(a) && Same(a, b) ==> Canonical(compare, a) == Canonical(compare, b)
  }

  /** A value's form is independent of key order exactly when, at every depth, its keys compare as different. */
  lemma OneFormExactlyWhenSeparated(compare: Compare, b: Json)
    requires TotalPreorder(compare) && Valid(b)
    ensures OneForm(compare, b) <==> Separated(compare, b)
  {
    if Separated(compare, b) {
      forall a | Valid(a) && Same(a, b)
        ensures Canonical(compare, a) == Canonical(compare, b)
      {
        SameHasOneForm(compare, a, b);
      }
    } else {
      var a := Reordered(compare, b);
    }
  }
}
