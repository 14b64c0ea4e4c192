/**
 * An insertion-ordered map used as a least-recently-used cache: touching deletes and re-inserts, and overflow is
 * evicted from the front. The order of the map is the order of last use.
 */
module LruMap {
  import opened Wrappers

  datatype Entry<V> = Entry(key: string, value: V)

  ghost predicate DistinctKeys<V>(l: seq<Entry<V>>) {
    forall i, j :: 0 <= i < j < |l| ==> l[i].key != l[j].key
  }

  function IndexOf<V>(l: seq<Entry<V>>, key: string): (r: Option<nat>)
    ensures r.Some? ==> r.value < |l| && l[r.value].key == key
    ensures r.None? ==> forall i :: 0 <= i < |l| ==> l[i].key != key
  {
    if l == [] then None
    else if l[|l| - 1].key == key then Some(|l| - 1) else IndexOf(l[..|l| - 1], key)
  }

  function RemoveAt<V>(l: seq<Entry<V>>, i: nat): seq<Entry<V>>
    requires i < |l|
  {
    l[..i] + l[i + 1..]
  }

  function Without<V>(l: seq<Entry<V>>, key: string): seq<Entry<V>> {
    var found := IndexOf(l, key);
    if found.Some? then RemoveAt(l, found.value) else l
  }

  /** How many entries `evictOverflow` drops from the front: it also stops at an empty key. */
  function Overflow<V>(l: seq<Entry<V>>, currentKey: string, max: int): (n: nat)
    ensures n <= |l|
  {
    if |l| <= max || l == [] || l[0].key == "" || (l[0].key == currentKey && |l| == 1) then 0
    else 1 + Overflow(l[1..], currentKey, max)
  }

  function Limit(max: int): nat {
    if max < 1 then 1 else max
  }

  function TakeLast<T>(s: seq<T>, n: nat): seq<T> {
    if |s| <= n then s else s[|s| - n..]
  }

  /** The list-based cache: most recently used last, cut to the limit. */
  function Used<V>(l: seq<Entry<V>>, e: Entry<V>, max: int): seq<Entry<V>> {
    TakeLast(Without(l, e.key) + [e], Limit(max))
  }

  lemma WithoutIsGone<V>(l: seq<Entry<V>>, key: string)
    requires DistinctKeys(l)
    ensures DistinctKeys(Without(l, key))
    ensures forall i :: 0 <= i < |Without(l, key)| ==> Without(l, key)[i].key != key
    ensures |Without(l, key)| == if IndexOf(l, key).Some? then |l| - 1 else |l|
  {
  }

  /** Exactly how far eviction goes: to the limit, or to the first empty key on the way. */
  lemma {:induction false} OverflowStops<V>(l: seq<Entry<V>>, currentKey: string, max: int)
    requires l != [] && l[|l| - 1].key == currentKey && DistinctKeys(l)
    ensures var n := Overflow(l, currentKey, max);
            && n < |l|
            && (forall i :: 0 <= i < n ==> l[i].key != "")
            && (|l| - n > Limit(max) ==> l[n].key == "")
            && (|l| - n <= Limit(max) ==> n == if |l| <= Limit(max) then 0 else |l| - Limit(max))
  {
    if Overflow(l, currentKey, max) != 0 {
      OverflowStops(l[1..], currentKey, max);
    }
  }

  /** The pool is cut to its limit exactly when no entry that has to go is stored under the empty key. */
  lemma CutExactly<V>(l: seq<Entry<V>>, currentKey: string, max: int)
    requires l != [] && l[|l| - 1].key == currentKey && DistinctKeys(l)
    ensures |l[Overflow(l, currentKey, max)..]| <= Limit(max) <==>
              forall i :: 0 <= i < |l| - Limit(max) ==> l[i].key != ""
    ensures |l[Overflow(l, currentKey, max)..]| <= Limit(max)
            ==> l[Overflow(l, currentKey, max)..] == TakeLast(l, Limit(max))
  {
    OverflowStops(l, currentKey, max);
  }

  ghost predicate NoEmptyKey<V>(l: seq<Entry<V>>) {
    forall i :: 0 <= i < |l| ==> l[i].key != ""
  }

  /** Storing a new entry and evicting is one use of the list cache. */
  lemma CutIsOneUse<V>(l: seq<Entry<V>>, e: Entry<V>, max: int)
    requires DistinctKeys(l) && NoEmptyKey(l) && IndexOf(l, e.key).None?
    ensures var after := (l + [e])[Overflow(l + [e], e.key, max)..];
            && after != [] && after[|after| - 1] == e && after == TakeLast(l + [e], Limit(max))
            && DistinctKeys(after) && |after| <= Limit(max)
  {
    assert DistinctKeys(l + [e]);
    CutExactly(l + [e], e.key, max);
    OverflowStops(l + [e], e.key, max);
  }

  // ---------------------------------------------------------------------------------------------
  // The keys
  // ---------------------------------------------------------------------------------------------

  function Keys<V>(l: seq<Entry<V>>): (r: seq<string>)
    ensures |r| == |l|
  {
    seq(|l|, i requires 0 <= i < |l| => l[i].key)
  }

  function DropKey(keys: seq<string>, key: string): seq<string> {
    if keys == [] then [] else
    DropKey(keys[..|keys| - 1], key) + if keys[|keys| - 1] == key then [] else [keys[|keys| - 1]]
  }

  ghost predicate NoRepeats(keys: seq<string>) {
    forall i, j :: 0 <= i < j < |keys| ==> keys[i] != keys[j]
  }

  lemma {:induction false} DropAbsent(keys: seq<string>, key: string)
    requires key !in keys
    ensures DropKey(keys, key) == keys
  {
    if keys != [] {
      assert keys == keys[..|keys| - 1] + [keys[|keys| - 1]];
      DropAbsent(keys[..|keys| - 1], key);
    }
  }

  lemma {:induction false} DropOne(keys: seq<string>, i: nat)
    requires NoRepeats(keys) && i < |keys|
    ensures DropKey(keys, keys[i]) == keys[..i] + keys[i + 1..]
  {
    var n := |keys| - 1;
    if i == n {
      DropAbsent(keys[..n], keys[n]);
    } else {
      DropOne(keys[..n], i);
      assert keys[..n][..i] + keys[..n][i + 1..] + [keys[n]] == keys[..i] + keys[i + 1..];
    }
  }

  lemma DropKeepsDistinct(keys: seq<string>, key: string)
    requires NoRepeats(keys)
    ensures NoRepeats(DropKey(keys, key)) && key !in DropKey(keys, key)
  {
    if i :| 0 <= i < |keys| && keys[i] == key {
      DropOne(keys, i);
    } else {
      DropAbsent(keys, key);
    }
  }

  lemma CutBefore(keys: seq<string>, i: nat, n: nat)
    requires 1 <= n < |keys| && i < |keys| - n
    ensures TakeLast(keys[..i] + keys[i + 1..] + [keys[i]], n) == keys[|keys| - n + 1..] + [keys[i]]
  {
    var moved := keys[..i] + keys[i + 1..] + [keys[i]];
    assert |moved| == |keys|;
    assert moved[|keys| - n..] == keys[|keys| - n + 1..] + [keys[i]];
  }

  lemma CutAfter(keys: seq<string>, i: nat, n: nat)
    requires 1 <= n < |keys| && |keys| - n <= i < |keys|
    ensures TakeLast(keys[..i] + keys[i + 1..] + [keys[i]], n) == keys[|keys| - n..i] + keys[i + 1..] + [keys[i]]
  {
    var moved := keys[..i] + keys[i + 1..] + [keys[i]];
    assert |moved| == |keys|;
    assert moved[|keys| - n..] == keys[|keys| - n..i] + keys[i + 1..] + [keys[i]];
  }

  lemma CutWithout(keys: seq<string>, key: string, n: nat)
    requires 1 <= n < |keys|
    ensures TakeLast(keys[|keys| - n..] + [key], n) == keys[|keys| - n + 1..] + [key]
    ensures TakeLast(keys + [key], n) == keys[|keys| - n + 1..] + [key]
  {
    assert (keys + [key])[|keys| - n + 1..] == keys[|keys| - n + 1..] + [key];
  }

  lemma SuffixWithout(keys: seq<string>, i: nat, cut: nat)
    requires NoRepeats(keys) && i < cut <= |keys|
    ensures keys[i] !in keys[cut..] && NoRepeats(keys[cut..])
  {
  }

  lemma DropInSuffix(keys: seq<string>, i: nat, cut: nat)
    requires NoRepeats(keys) && cut <= i < |keys|
    ensures DropKey(keys[cut..], keys[i]) == keys[cut..i] + keys[i + 1..]
  {
    var last := keys[cut..];
    assert last[i - cut] == keys[i];
    assert NoRepeats(last);
    DropOne(last, i - cut);
    assert last[..i - cut] == keys[cut..i] && last[i - cut + 1..] == keys[i + 1..];
  }

  lemma CutCommutesAt(keys: seq<string>, i: nat, n: nat)
    requires NoRepeats(keys) && 1 <= n < |keys| && i < |keys|
    ensures TakeLast(DropKey(keys[|keys| - n..], keys[i]) + [keys[i]], n)
            == TakeLast(DropKey(keys, keys[i]) + [keys[i]], n)
  {
    var cut, key := |keys| - n, keys[i];
    DropOne(keys, i);
    if i < cut {
      CutBefore(keys, i, n);
      SuffixWithout(keys, i, cut);
      DropAbsent(keys[cut..], key);
      CutWithout(keys, key, n);
    } else {
      CutAfter(keys, i, n);
      DropInSuffix(keys, i, cut);
      var short := keys[cut..i] + keys[i + 1..] + [key];
      assert |short| == n;
      assert TakeLast(short, n) == short;
    }
  }

  /** Cutting early or late makes no difference to the most recent keys. */
  lemma CutCommutes(keys: seq<string>, key: string, n: nat)
    requires NoRepeats(keys) && n >= 1
    ensures TakeLast(DropKey(TakeLast(keys, n), key) + [key], n) == TakeLast(DropKey(keys, key) + [key], n)
  {
    if |keys| > n {
      if i :| 0 <= i < |keys| && keys[i] == key {
        CutCommutesAt(keys, i, n);
      } else {
        DropAbsent(keys, key);
        DropAbsent(keys[|keys| - n..], key);
        CutWithout(keys, key, n);
      }
    }
  }

  lemma KeysRemoved<V>(l: seq<Entry<V>>, i: nat)
    requires DistinctKeys(l) && i < |l|
    ensures Keys(RemoveAt(l, i)) == DropKey(Keys(l), l[i].key)
  {
    DropOne(Keys(l), i);
    assert Keys(RemoveAt(l, i)) == Keys(l)[..i] + Keys(l)[i + 1..];
  }

  lemma KeysWithout<V>(l: seq<Entry<V>>, key: string)
    requires DistinctKeys(l)
    ensures Keys(Without(l, key)) == DropKey(Keys(l), key)
  {
    var found := IndexOf(l, key);
    if found.Some? {
      KeysRemoved(l, found.value);
    } else {
      DropAbsent(Keys(l), key);
    }
  }

  lemma KeysTakeLast<V>(l: seq<Entry<V>>, e: Entry<V>, n: nat)
    ensures Keys(TakeLast(l + [e], n)) == TakeLast(Keys(l) + [e.key], n)
  {
  }

  /** The keys of the list cache after one use. */
  lemma UsedKeys<V>(l: seq<Entry<V>>, e: Entry<V>, max: int)
    requires DistinctKeys(l)
    ensures Keys(Used(l, e, max)) == TakeLast(DropKey(Keys(l), e.key) + [e.key], Limit(max))
  {
    KeysWithout(l, e.key);
    KeysTakeLast(Without(l, e.key), e, Limit(max));
  }

  // ---------------------------------------------------------------------------------------------
  // The reference: a list of keys over a history
  // ---------------------------------------------------------------------------------------------

  /** What a step means for the keys: one used, one gone, all gone, or none touched. */
  datatype KeyEvent = KeyUsed(key: string) | KeyGone(key: string) | AllGone | Untouched

  function CacheStep(keys: seq<string>, max: int, e: KeyEvent): seq<string> {
    match e
    case KeyUsed(key) => TakeLast(DropKey(keys, key) + [key], Limit(max))
    case KeyGone(key) => DropKey(keys, key)
    case AllGone => []
    case Untouched => keys
  }

  /** The list cache: every use moves its key last and cuts the list. */
  function CacheKeys(max: int, events: seq<KeyEvent>): seq<string> {
    if events == [] then [] else CacheStep(CacheKeys(max, events[..|events| - 1]), max, events[|events| - 1])
  }

  function LiveStep(keys: seq<string>, e: KeyEvent): seq<string> {
    match e
    case KeyUsed(key) => DropKey(keys, key) + [key]
    case KeyGone(key) => DropKey(keys, key)
    case AllGone => []
    case Untouched => keys
  }

  /** Every key used and not gone since, in the order of last use, however many there are. */
  function LiveKeys(events: seq<KeyEvent>): seq<string> {
    if events == [] then [] else LiveStep(LiveKeys(events[..|events| - 1]), events[|events| - 1])
  }

  ghost predicate IsSuffix(short: seq<string>, long: seq<string>) {
    |short| <= |long| && short == long[|long| - |short|..]
  }

  /** The suffix that starts at cut, when the i-th key goes. */
  lemma DropBeforeCut(long: seq<string>, i: nat, cut: nat)
    requires i < cut <= |long|
    ensures IsSuffix(long[cut..], long[..i] + long[i + 1..])
  {
    assert (long[..i] + long[i + 1..])[cut - 1..] == long[cut..];
  }

  lemma DropAfterCut(long: seq<string>, i: nat, cut: nat)
    requires cut <= i < |long|
    ensures IsSuffix(long[cut..i] + long[i + 1..], long[..i] + long[i + 1..])
  {
    assert (long[..i] + long[i + 1..])[cut..] == long[cut..i] + long[i + 1..];
  }

  lemma DropOneKeepsSuffix(long: seq<string>, i: nat, cut: nat)
    requires NoRepeats(long) && i < |long| && cut <= |long|
    ensures IsSuffix(DropKey(long[cut..], long[i]), DropKey(long, long[i]))
  {
    DropOne(long, i);
    if i < cut {
      SuffixWithout(long, i, cut);
      DropAbsent(long[cut..], long[i]);
      DropBeforeCut(long, i, cut);
    } else {
      DropInSuffix(long, i, cut);
      DropAfterCut(long, i, cut);
    }
  }

  lemma DropKeepsSuffix(short: seq<string>, long: seq<string>, key: string)
    requires NoRepeats(long) && IsSuffix(short, long)
    ensures IsSuffix(DropKey(short, key), DropKey(long, key))
  {
    if i :| 0 <= i < |long| && long[i] == key {
      DropOneKeepsSuffix(long, i, |long| - |short|);
    } else {
      DropAbsent(long, key);
      DropAbsent(short, key);
    }
  }

  lemma AppendKeepsSuffix(short: seq<string>, long: seq<string>, key: string, n: nat)
    requires IsSuffix(short, long)
    ensures IsSuffix(TakeLast(short + [key], n), long + [key])
  {
    var s, l := short + [key], long + [key];
    assert s == l[|l| - |s|..];
  }

  lemma LiveStepIsDistinct(keys: seq<string>, e: KeyEvent)
    requires NoRepeats(keys)
    ensures NoRepeats(LiveStep(keys, e))
  {
    if e.KeyUsed? || e.KeyGone? {
      DropKeepsDistinct(keys, e.key);
    }
  }

  /** Whatever happened, the cache holds the most recently used of the live keys, in that order, and never too many. */
  lemma {:induction false} CacheIsMostRecent(max: int, events: seq<KeyEvent>)
    ensures NoRepeats(LiveKeys(events)) && IsSuffix(CacheKeys(max, events), LiveKeys(events))
    ensures |CacheKeys(max, events)| <= Limit(max)
  {
    if events != [] {
      var before, e := events[..|events| - 1], events[|events| - 1];
      var short, long := CacheKeys(max, before), LiveKeys(before);
      CacheIsMostRecent(max, before);
      LiveStepIsDistinct(long, e);
      if e.KeyUsed? {
        DropKeepsSuffix(short, long, e.key);
        AppendKeepsSuffix(DropKey(short, e.key), DropKey(long, e.key), e.key, Limit(max));
      } else if e.KeyGone? {
        DropKeepsSuffix(short, long, e.key);
        DropShrinks(short, e.key);
      }
    }
  }

  lemma {:induction false} DropShrinks(keys: seq<string>, key: string)
    ensures |DropKey(keys, key)| <= |keys|
  {
    if keys != [] {
      DropShrinks(keys[..|keys| - 1], key);
    }
  }

  ghost predicate OnlyUses(events: seq<KeyEvent>) {
    forall i :: 0 <= i < |events| ==> events[i].KeyUsed? || events[i].Untouched?
  }

  /** While nothing is dropped, the cache is exactly as full as it can be. */
  lemma {:induction false} CacheIsFull(max: int, events: seq<KeyEvent>)
    requires OnlyUses(events)
    ensures CacheKeys(max, events) == TakeLast(LiveKeys(events), Limit(max))
  {
    if events != [] {
      var before, e := events[..|events| - 1], events[|events| - 1];
      assert e == events[|events| - 1];
      CacheIsFull(max, before);
      CacheIsMostRecent(max, before);
      if e.KeyUsed? {
        CutCommutes(LiveKeys(before), e.key, Limit(max));
      }
    }
  }
}
