/** Effective prices of a location: the index built in loops agrees with scanning the price lists in priority order. */
module CatalogPrices {
  import opened Wrappers

  datatype Row = Row(listId: string, productId: string, variantId: Option<string>, amountCents: int)

  datatype RankedPrice = RankedPrice(priceListId: string, amountCents: int)

  /** The empty string counts as no variant. */
  function Variant(variantId: Option<string>): Option<string> {
    if variantId == Some("") then None else variantId
  }

  function Suffix(variantId: Option<string>): string {
    if Variant(variantId).Some? then variantId.value else "BASE"
  }

  /** The key of the in-memory index. */
  function IndexKey(productId: string, variantId: Option<string>): string {
    productId + ":" + Suffix(variantId)
  }

  /** `buildPriceKey`: the stored key, unique together with the price list. */
  function PriceKey(productId: string, variantId: Option<string>): string {
    "PRODUCT:" + productId + if Variant(variantId).Some? then ":VARIANT:" + variantId.value else ":BASE"
  }

  function Priced(r: Row): RankedPrice {
    RankedPrice(r.listId, r.amountCents)
  }

  // ---------------------------------------------------------------------------------------------
  // The loops
  // ---------------------------------------------------------------------------------------------

  /** Every list has its last position in the order of priority, and nothing else has a rank. */
  ghost predicate IsRank(lists: seq<string>, rank: map<string, nat>) {
    && (forall id :: id in rank <==> id in lists)
    && (forall id :: id in rank ==>
          rank[id] < |lists| && lists[rank[id]] == id && forall j :: rank[id] < j < |lists| ==> lists[j] != id)
  }

  method BuildRank(lists: seq<string>) returns (rank: map<string, nat>)
    ensures IsRank(lists, rank)
  {
    rank := map[];
    for i := 0 to |lists|
      invariant IsRank(lists[..i], rank)
    {
      rank := rank[lists[i] := i];
      assert lists[..i + 1] == lists[..i] + [lists[i]];
    }
    assert lists[..|lists|] == lists;
  }

  /** The prices stored under a key, in the order of the rows. */
  function Bucket(rows: seq<Row>, key: string): seq<RankedPrice> {
    if rows == [] then [] else
    var last := rows[|rows| - 1];
    Bucket(rows[..|rows| - 1], key) + if IndexKey(last.productId, last.variantId) == key then [Priced(last)] else []
  }

  function Lookup(index: map<string, seq<RankedPrice>>, key: string): seq<RankedPrice> {
    if key in index then index[key] else []
  }

  method IndexPrices(rows: seq<Row>) returns (index: map<string, seq<RankedPrice>>)
    ensures forall key :: Lookup(index, key) == Bucket(rows, key)
  {
    index := map[];
    for i := 0 to |rows|
      invariant forall key :: Lookup(index, key) == Bucket(rows[..i], key)
    {
      assert rows[..i + 1][..i] == rows[..i];
      var key := IndexKey(rows[i].productId, rows[i].variantId);
      index := index[key := Lookup(index, key) + [Priced(rows[i])]];
    }
    assert rows[..|rows|] == rows;
  }

  /** The first of the best-ranked prices, or none when no price has a rank. */
  ghost predicate Picked(prices: seq<RankedPrice>, rank: map<string, nat>, selected: Option<RankedPrice>) {
    if selected.None? then forall j :: 0 <= j < |prices| ==> prices[j].priceListId !in rank
    else exists i :: 0 <= i < |prices| && prices[i] == selected.value && Best(prices, rank, i)
  }

  ghost predicate Best(prices: seq<RankedPrice>, rank: map<string, nat>, i: nat)
    requires i < |prices|
  {
    && prices[i].priceListId in rank
    && forall j :: 0 <= j < |prices| && prices[j].priceListId in rank ==>
         rank[prices[i].priceListId] <= rank[prices[j].priceListId]
         && (j < i ==> rank[prices[i].priceListId] < rank[prices[j].priceListId])
  }

  method PickEffectivePrice(prices: seq<RankedPrice>, rank: map<string, nat>) returns (selected: Option<RankedPrice>)
    ensures Picked(prices, rank, selected)
  {
    selected := None;
    var selectedRank := 0;
    ghost var at := 0;
    for i := 0 to |prices|
      invariant selected.None? ==> forall j :: 0 <= j < i ==> prices[j].priceListId !in rank
      invariant selected.Some? ==>
                  && 0 <= at < i && prices[at] == selected.value
                  && prices[at].priceListId in rank && rank[prices[at].priceListId] == selectedRank
                  && forall j :: 0 <= j < i && prices[j].priceListId in rank ==>
                       && selectedRank <= rank[prices[j].priceListId]
                       && (j < at ==> selectedRank < rank[prices[j].priceListId])
    {
      if prices[i].priceListId in rank {
        if selected.None? || rank[prices[i].priceListId] < selectedRank {
          selected, selectedRank, at := Some(prices[i]), rank[prices[i].priceListId], i;
        }
      }
    }
    assert selected.Some? ==> Best(prices, rank, at);
  }

  // ---------------------------------------------------------------------------------------------
  // The direct scan
  // ---------------------------------------------------------------------------------------------

  predicate Matches(r: Row, list: string, productId: string, variantId: Option<string>) {
    r.listId == list && r.productId == productId && Variant(r.variantId) == Variant(variantId)
  }

  function FindRow(rows: seq<Row>, list: string, productId: string, variantId: Option<string>): (r: Option<Row>)
    ensures r.Some? ==> r.value in rows && Matches(r.value, list, productId, variantId)
    ensures r.None? ==> forall x :: x in rows ==> !Matches(x, list, productId, variantId)
  {
    if rows == [] then None
    else if Matches(rows[0], list, productId, variantId) then Some(rows[0])
    else FindRow(rows[1..], list, productId, variantId)
  }

  /** The price in the first list, by priority, that has one. */
  function Scan(lists: seq<string>, rows: seq<Row>, productId: string, variantId: Option<string>): Option<RankedPrice> {
    if lists == [] then None else
    var found := FindRow(rows, lists[0], productId, variantId);
    if found.Some? then Some(Priced(found.value)) else Scan(lists[1..], rows, productId, variantId)
  }

  ghost predicate FirstMatch(lists: seq<string>, rows: seq<Row>, productId: string, variantId: Option<string>, i: nat,
                             r: Row)
  {
    && i < |lists| && r in rows && Matches(r, lists[i], productId, variantId)
    && forall k, x :: 0 <= k < i && x in rows ==> !Matches(x, lists[k], productId, variantId)
  }

  ghost predicate NoMatch(lists: seq<string>, rows: seq<Row>, productId: string, variantId: Option<string>) {
    forall k, x :: 0 <= k < |lists| && x in rows ==> !Matches(x, lists[k], productId, variantId)
  }

  /** What scanning finds, without saying how. */
  lemma {:induction false} ScanFinds(lists: seq<string>, rows: seq<Row>, productId: string, variantId: Option<string>)
    returns (i: nat, r: Row)
    ensures Scan(lists, rows, productId, variantId).None? ==> NoMatch(lists, rows, productId, variantId)
    ensures Scan(lists, rows, productId, variantId).Some? ==>
              FirstMatch(lists, rows, productId, variantId, i, r)
                && Scan(lists, rows, productId, variantId) == Some(Priced(r))
  {
    i, r := 0, Row("", "", None, 0);
    if lists != [] {
      var found := FindRow(rows, lists[0], productId, variantId);
      if found.Some? {
        r := found.value;
      } else {
        var rest := lists[1..];
        var j, x := ScanFinds(rest, rows, productId, variantId);
        i, r := j + 1, x;
        forall k, y | 0 <= k < |lists| && y in rows
          && (k == 0 || (Scan(rest, rows, productId, variantId).None? || k - 1 < j))
          ensures !Matches(y, lists[k], productId, variantId)
        {
          assert k > 0 ==> lists[k] == rest[k - 1];
        }
      }
    }
  }

  /** The unique index on price list and stored key. */
  ghost predicate UniqueRows(rows: seq<Row>) {
    forall r, s :: (r in rows && s in rows && r.listId == s.listId
                    && PriceKey(r.productId, r.variantId) == PriceKey(s.productId, s.variantId)) ==> r == s
  }

  lemma OneMatch(rows: seq<Row>, list: string, productId: string, variantId: Option<string>, r: Row, s: Row)
    requires UniqueRows(rows) && r in rows && s in rows
    requires Matches(r, list, productId, variantId) && Matches(s, list, productId, variantId)
    ensures r == s
  {
  }

  // ---------------------------------------------------------------------------------------------
  // Keys
  // ---------------------------------------------------------------------------------------------

  /** Identifiers contain no colon and are not the word that stands for the base price. */
  predicate Clean(r: Row) {
    ':' !in r.productId && r.variantId != Some("BASE")
  }

  lemma FirstColon(s: string, p: string, x: string)
    requires s == p + ":" + x && ':' !in p
    ensures |p| < |s| && s[|p|] == ':' && forall k :: 0 <= k < |p| ==> s[k] != ':'
    ensures p == s[..|p|] && x == s[|p| + 1..]
  {
    assert forall k :: 0 <= k < |p| ==> s[k] == p[k];
  }

  lemma SuffixesAgree(p: string, v: Option<string>, q: string, w: Option<string>)
    requires ':' !in p && ':' !in q
    ensures IndexKey(p, v) == IndexKey(q, w) <==> p == q && Suffix(v) == Suffix(w)
  {
    FirstColon(IndexKey(p, v), p, Suffix(v));
    FirstColon(IndexKey(q, w), q, Suffix(w));
  }

  /** The base price and a variant called BASE: the one pair of variants the index does not tell apart. */
  predicate BaseAndNamesake(v: Option<string>, w: Option<string>) {
    Variant(v).None? && w == Some("BASE")
  }

  /** No variant, or one without a text, stands for the base price; any other for itself. */
  lemma EmptyVariantIsBase(variantId: string)
    ensures Suffix(None) == "BASE" && Suffix(Some("")) == "BASE"
    ensures variantId != "" ==> Suffix(Some(variantId)) == variantId && Variant(Some(variantId)) == Some(variantId)
    ensures Variant(Some("")) == None == Variant(None)
  {
  }

  /**
   * Two index keys are equal exactly when product and variant are, or one is the base price and the other its namesake.
   */
  lemma KeysAgreeExactly(p: string, v: Option<string>, q: string, w: Option<string>)
    requires ':' !in p && ':' !in q
    ensures IndexKey(p, v) == IndexKey(q, w) <==>
              p == q && (Variant(v) == Variant(w) || BaseAndNamesake(v, w) || BaseAndNamesake(w, v))
  {
    SuffixesAgree(p, v, q, w);
  }

  /** A variant identified by the word BASE would share the key of the base price. */
  lemma BaseVariantCollides(p: string)
    ensures IndexKey(p, Some("BASE")) == IndexKey(p, None) && PriceKey(p, Some("BASE")) != PriceKey(p, None)
  {
    var a, b := PriceKey(p, Some("BASE")), PriceKey(p, None);
    assert |a| == |p| + 21 && |b| == |p| + 13;
  }

  lemma {:induction false} BucketHolds(rows: seq<Row>, productId: string, variantId: Option<string>, x: RankedPrice)
    requires (forall r :: r in rows ==> Clean(r)) && ':' !in productId && variantId != Some("BASE")
    ensures x in Bucket(rows, IndexKey(productId, variantId)) <==>
              exists r :: r in rows && Matches(r, r.listId, productId, variantId) && Priced(r) == x
  {
    if rows != [] {
      var front, last := rows[..|rows| - 1], rows[|rows| - 1];
      BucketHolds(front, productId, variantId, x);
      assert rows == front + [last];
      assert last in rows && Clean(last);
      SuffixesAgree(last.productId, last.variantId, productId, variantId);
      assert IndexKey(last.productId, last.variantId) == IndexKey(productId, variantId)
             <==> Matches(last, last.listId, productId, variantId);
    }
  }

  // ---------------------------------------------------------------------------------------------
  // Agreement
  // ---------------------------------------------------------------------------------------------

  ghost predicate GoodRows(rows: seq<Row>) {
    UniqueRows(rows) && forall r :: r in rows ==> Clean(r)
  }

  ghost predicate NoRepeats(lists: seq<string>) {
    forall i, j :: 0 <= i < j < |lists| ==> lists[i] != lists[j]
  }

  /** The picked price belongs to a matching row, and no matching row of any list has a better rank. */
  lemma PickedRow(lists: seq<string>, rows: seq<Row>, rank: map<string, nat>, productId: string,
                  variantId: Option<string>, selected: RankedPrice)
    returns (s: Row)
    requires (forall r :: r in rows ==> Clean(r)) && IsRank(lists, rank) && ':' !in productId
             && variantId != Some("BASE")
    requires Picked(Bucket(rows, IndexKey(productId, variantId)), rank, Some(selected))
    ensures s in rows && Priced(s) == selected && Matches(s, s.listId, productId, variantId) && s.listId in rank
    ensures forall r :: r in rows && Matches(r, r.listId, productId, variantId) && r.listId in rank ==>
              rank[s.listId] <= rank[r.listId]
  {
    var prices := Bucket(rows, IndexKey(productId, variantId));
    var at :| 0 <= at < |prices| && prices[at] == selected && Best(prices, rank, at);
    BucketHolds(rows, productId, variantId, selected);
    s :| s in rows && Matches(s, s.listId, productId, variantId) && Priced(s) == selected;
    forall r | r in rows && Matches(r, r.listId, productId, variantId) && r.listId in rank
      ensures rank[s.listId] <= rank[r.listId]
    {
      BucketHolds(rows, productId, variantId, Priced(r));
    }
  }

  lemma NothingPicked(rows: seq<Row>, rank: map<string, nat>, productId: string, variantId: Option<string>, r: Row)
    requires (forall x :: x in rows ==> Clean(x)) && ':' !in productId && variantId != Some("BASE")
    requires Picked(Bucket(rows, IndexKey(productId, variantId)), rank, None)
    requires r in rows && Matches(r, r.listId, productId, variantId)
    ensures r.listId !in rank
  {
    BucketHolds(rows, productId, variantId, Priced(r));
  }

  lemma RankOfList(lists: seq<string>, rank: map<string, nat>, i: nat)
    requires IsRank(lists, rank) && NoRepeats(lists) && i < |lists|
    ensures lists[i] in rank && rank[lists[i]] == i
  {
    assert lists[i] in lists;
  }

  /** The pick from the index is the result of the scan. */
  lemma PickIsScan(lists: seq<string>, rows: seq<Row>, rank: map<string, nat>, productId: string,
                   variantId: Option<string>, selected: Option<RankedPrice>)
    requires GoodRows(rows) && IsRank(lists, rank) && NoRepeats(lists) && ':' !in productId && variantId != Some("BASE")
    requires Picked(Bucket(rows, IndexKey(productId, variantId)), rank, selected)
    ensures selected == Scan(lists, rows, productId, variantId)
  {
    var i, r := ScanFinds(lists, rows, productId, variantId);
    var found := Scan(lists, rows, productId, variantId);
    if found.Some? {
      RankOfList(lists, rank, i);
    }
    if selected.Some? {
      var s := PickedRow(lists, rows, rank, productId, variantId, selected.value);
      var k := rank[s.listId];
      assert lists[k] == s.listId && Matches(s, lists[k], productId, variantId);
      if found.Some? {
        assert k <= i && i <= k;
        OneMatch(rows, lists[i], productId, variantId, r, s);
      }
    } else if found.Some? {
      NothingPicked(rows, rank, productId, variantId, r);
    }
  }

  /** The order in which the rows arrive does not matter. */
  lemma RowOrderDoesNotMatter(lists: seq<string>, rows: seq<Row>, rows': seq<Row>, productId: string,
                              variantId: Option<string>)
    requires UniqueRows(rows) && forall r :: r in rows <==> r in rows'
    ensures Scan(lists, rows, productId, variantId) == Scan(lists, rows', productId, variantId)
  {
    var i, r := ScanFinds(lists, rows, productId, variantId);
    var j, s := ScanFinds(lists, rows', productId, variantId);
    if Scan(lists, rows, productId, variantId).Some? && Scan(lists, rows', productId, variantId).Some? {
      assert i == j;
      OneMatch(rows, lists[i], productId, variantId, r, s);
    }
  }

  /** The price part of `forLocation`, for one product and its variants. */
  method ProductPrices(lists: seq<string>, rows: seq<Row>, productId: string, variantIds: seq<string>)
    returns (base: Option<RankedPrice>, variants: seq<Option<RankedPrice>>)
    requires GoodRows(rows) && NoRepeats(lists) && ':' !in productId
    requires forall v :: v in variantIds ==> v != "BASE" && v != ""
    ensures base == Scan(lists, rows, productId, None)
    ensures |variants| == |variantIds|
    ensures forall k :: 0 <= k < |variantIds| ==> variants[k] == Scan(lists, rows, productId, Some(variantIds[k]))
  {
    var rank := BuildRank(lists);
    var index := IndexPrices(rows);
    base := PickEffectivePrice(Lookup(index, productId + ":BASE"), rank);
    assert IndexKey(productId, None) == productId + ":BASE";
    PickIsScan(lists, rows, rank, productId, None, base);
    variants := [];
    for k := 0 to |variantIds|
      invariant |variants| == k
      invariant forall m :: 0 <= m < k ==> variants[m] == Scan(lists, rows, productId, Some(variantIds[m]))
    {
      var variantId := variantIds[k];
      assert variantId in variantIds;
      assert IndexKey(productId, Some(variantId)) == productId + ":" + variantId;
      var price := PickEffectivePrice(Lookup(index, productId + ":" + variantId), rank);
      PickIsScan(lists, rows, rank, productId, Some(variantId), price);
      variants := variants + [price];
    }
  }
}
