/** Who owns a context: the account both session pools keep of the contexts they create. */
module PoolAccounts {
  import opened Wrappers
  import opened LruMap

  type ContextId(==, !new, 0) = nat

  /** What a pool stores under a key: the session file's fingerprint, the context, and what is handed out with it. */
  datatype Held<H> = Held(fingerprint: string, context: ContextId, handle: H)

  /** The pool, and every context it created, closed, or lost before storing it. */
  datatype Account<H> = Account(
    entries: seq<Entry<Held<H>>>, created: seq<ContextId>, closed: seq<ContextId>, leaked: seq<ContextId>)

  function ContextsOf<H>(l: seq<Entry<Held<H>>>): (r: seq<ContextId>)
    ensures |r| == |l|
  {
    seq(|l|, i requires 0 <= i < |l| => l[i].value.context)
  }

  /** The context closed when the entry under a key is dropped. */
  function Dropped<H>(l: seq<Entry<Held<H>>>, key: string): seq<ContextId> {
    var found := IndexOf(l, key);
    if found.Some? then [l[found.value].value.context] else []
  }

  /** `reset(key)`. */
  function Forgotten<H>(a: Account<H>, key: string): Account<H> {
    a.(entries := Without(a.entries, key), closed := a.closed + Dropped(a.entries, key))
  }

  /** `reset()`. */
  function AllForgotten<H>(a: Account<H>): Account<H> {
    a.(entries := [], closed := a.closed + ContextsOf(a.entries))
  }

  /** Every context ever created is owned by one entry, was closed once, or was leaked once. */
  ghost predicate Accounted<H>(a: Account<H>) {
    multiset(a.created) == multiset(ContextsOf(a.entries)) + multiset(a.closed) + multiset(a.leaked)
  }

  // ---------------------------------------------------------------------------------------------
  // Keeping the account
  // ---------------------------------------------------------------------------------------------

  lemma ContextsConcat<H>(a: seq<Entry<Held<H>>>, b: seq<Entry<Held<H>>>)
    ensures ContextsOf(a + b) == ContextsOf(a) + ContextsOf(b)
  {
  }

  lemma ContextsWithout<H>(l: seq<Entry<Held<H>>>, i: nat)
    requires i < |l|
    ensures multiset(ContextsOf(l)) == multiset(ContextsOf(RemoveAt(l, i))) + multiset{l[i].value.context}
  {
    assert l == l[..i] + [l[i]] + l[i + 1..];
    ContextsConcat(l[..i], l[i + 1..]);
    ContextsConcat(l[..i] + [l[i]], l[i + 1..]);
    ContextsConcat(l[..i], [l[i]]);
    assert ContextsOf([l[i]]) == [l[i].value.context];
  }

  lemma WithoutContexts<H>(l: seq<Entry<Held<H>>>, key: string)
    ensures multiset(ContextsOf(l)) == multiset(ContextsOf(Without(l, key))) + multiset(Dropped(l, key))
  {
    if IndexOf(l, key).Some? {
      ContextsWithout(l, IndexOf(l, key).value);
    }
  }

  /** Replacing the entry under a key by one with the same context, stored last. */
  lemma TouchedContexts<H>(l: seq<Entry<Held<H>>>, e: Entry<Held<H>>)
    requires Dropped(l, e.key) == [e.value.context]
    ensures multiset(ContextsOf(Without(l, e.key) + [e])) == multiset(ContextsOf(l))
  {
    WithoutContexts(l, e.key);
    ContextsConcat(Without(l, e.key), [e]);
    assert ContextsOf([e]) == [e.value.context];
  }

  /** Storing a new entry and cutting off the first n. */
  lemma CreatedContexts<H>(l: seq<Entry<Held<H>>>, e: Entry<Held<H>>, n: nat)
    requires n <= |l| + 1
    ensures multiset(ContextsOf((l + [e])[..n])) + multiset(ContextsOf((l + [e])[n..]))
            == multiset(ContextsOf(l)) + multiset{e.value.context}
  {
    var all := l + [e];
    ContextsConcat(all[..n], all[n..]);
    assert all[..n] + all[n..] == all;
    assert multiset(ContextsOf(all)) == multiset(ContextsOf(all[..n])) + multiset(ContextsOf(all[n..]));
    assert ContextsOf(all) == ContextsOf(l) + [e.value.context];
    assert multiset(ContextsOf(l) + [e.value.context]) == multiset(ContextsOf(l)) + multiset([e.value.context]);
  }

  lemma Balance(owned: multiset<ContextId>, rest: multiset<ContextId>, dropped: multiset<ContextId>,
                created: multiset<ContextId>, kept: multiset<ContextId>, closed: multiset<ContextId>,
                leaked: multiset<ContextId>)
    requires owned == rest + dropped && rest + created == kept + closed + leaked
    ensures owned + created == kept + (dropped + closed) + leaked
  {
    forall c
      ensures (owned + created)[c] == (kept + (dropped + closed) + leaked)[c]
    {
      assert (rest + created)[c] == (kept + closed + leaked)[c];
    }
  }

  lemma AccountsAdd(before: multiset<ContextId>, after: multiset<ContextId>, created: seq<ContextId>,
                    closed: seq<ContextId>, leaked: seq<ContextId>, created': seq<ContextId>,
                    closed': seq<ContextId>, leaked': seq<ContextId>)
    requires multiset(created) == before + multiset(closed) + multiset(leaked)
    requires before + multiset(created') == after + multiset(closed') + multiset(leaked')
    ensures multiset(created + created') == after + multiset(closed + closed') + multiset(leaked + leaked')
  {
    var longer, shut, lost := multiset(created + created'), multiset(closed + closed'), multiset(leaked + leaked');
    assert longer == multiset(created) + multiset(created') && shut == multiset(closed) + multiset(closed')
        && lost == multiset(leaked) + multiset(leaked');
    forall c
      ensures longer[c] == (after + shut + lost)[c]
    {
      assert multiset(created)[c] == (before + multiset(closed) + multiset(leaked))[c];
      assert (before + multiset(created'))[c] == (after + multiset(closed') + multiset(leaked'))[c];
    }
  }

  lemma ForgettingKeepsAccount<H>(a: Account<H>, key: string)
    requires Accounted(a)
    ensures Accounted(Forgotten(a, key)) && Accounted(AllForgotten(a))
  {
    WithoutContexts(a.entries, key);
    AccountsAdd(multiset(ContextsOf(a.entries)), multiset(ContextsOf(Without(a.entries, key))), a.created, a.closed,
                a.leaked, [], Dropped(a.entries, key), []);
    AccountsAdd(multiset(ContextsOf(a.entries)), multiset{}, a.created, a.closed, a.leaked, [], ContextsOf(a.entries),
                []);
    assert a.created + [] == a.created && a.leaked + [] == a.leaked;
  }

  // ---------------------------------------------------------------------------------------------
  // What the account is worth
  // ---------------------------------------------------------------------------------------------

  ghost predicate Once(s: seq<ContextId>) {
    forall i, j :: 0 <= i < j < |s| ==> s[i] != s[j]
  }

  lemma {:induction false} OnceCounts(s: seq<ContextId>, c: ContextId)
    requires Once(s)
    ensures multiset(s)[c] == if c in s then 1 else 0
  {
    if s != [] {
      var front, last := s[..|s| - 1], s[|s| - 1];
      OnceCounts(front, c);
      assert s == front + [last];
      assert multiset(s) == multiset(front) + multiset([last]);
    }
  }

  lemma RepeatCounts(s: seq<ContextId>, i: nat, j: nat)
    requires i < j < |s| && s[i] == s[j]
    ensures multiset(s)[s[i]] >= 2
  {
    assert s == s[..j] + [s[j]] + s[j + 1..];
    assert multiset(s) == multiset(s[..j]) + multiset([s[j]]) + multiset(s[j + 1..]);
    assert s[..j][i] == s[i];
    assert s[i] in multiset(s[..j]);
  }

  lemma AtMostOneIsOnce(s: seq<ContextId>)
    requires forall c :: multiset(s)[c] <= 1
    ensures Once(s)
  {
    forall i, j | 0 <= i < j < |s|
      ensures s[i] != s[j]
    {
      if s[i] == s[j] {
        RepeatCounts(s, i, j);
        assert false;
      }
    }
  }

  /** Each context created is in exactly one of the three places. */
  ghost predicate InOnePlace<H>(a: Account<H>, c: ContextId) {
    var owned, closed, leaked := c in ContextsOf(a.entries), c in a.closed, c in a.leaked;
    (c in a.created <==> owned || closed || leaked) && !(owned && closed) && !(owned && leaked) && !(closed && leaked)
  }

  lemma PlaceOf<H>(a: Account<H>, c: ContextId)
    requires Accounted(a) && Once(a.created)
    ensures InOnePlace(a, c)
    ensures multiset(ContextsOf(a.entries))[c] <= 1 && multiset(a.closed)[c] <= 1
  {
    OnceCounts(a.created, c);
    var owned, closed, leaked := multiset(ContextsOf(a.entries)), multiset(a.closed), multiset(a.leaked);
    assert multiset(a.created)[c] == owned[c] + closed[c] + leaked[c];
    assert (c in ContextsOf(a.entries) <==> owned[c] > 0) && (c in a.closed <==> closed[c] > 0)
           && (c in a.leaked <==> leaked[c] > 0);
  }

  /** With fresh contexts: owned, closed or leaked, never two of them, and closed at most once. */
  lemma OwnedOrClosedOnce<H>(a: Account<H>)
    requires Accounted(a) && Once(a.created)
    ensures Once(ContextsOf(a.entries)) && Once(a.closed)
    ensures forall c :: InOnePlace(a, c)
  {
    forall c
      ensures InOnePlace(a, c) && multiset(ContextsOf(a.entries))[c] <= 1 && multiset(a.closed)[c] <= 1
    {
      PlaceOf(a, c);
    }
    AtMostOneIsOnce(ContextsOf(a.entries));
    AtMostOneIsOnce(a.closed);
  }

  lemma FirstIsOldest<H>(l: seq<Entry<Held<H>>>)
    requires l != [] && DistinctKeys(l)
    ensures Without(l, l[0].key) == l[1..] && Dropped(l, l[0].key) == [l[0].value.context]
  {
  }

  lemma PrefixContexts<H>(l: seq<Entry<Held<H>>>, i: nat)
    requires i < |l|
    ensures ContextsOf(l[..i + 1]) == ContextsOf(l[..i]) + [l[i].value.context]
    ensures l[i..] != [] && l[i..][0] == l[i] && l[i..][1..] == l[i + 1..]
  {
  }
}
