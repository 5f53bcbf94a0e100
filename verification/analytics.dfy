/** Inventory analytics (valuation.go, AnalyticsEngineImpl): ABC
    classification of the items of a location by estimated annual sales, and
    the items of a location that have not moved recently. Values are exact
    reals; Go's float64 rounding is not modelled. */
module Analytics {
  import opened Types
  import opened Seqs
  import opened Store
  import opened Valuation

  // ---------------------------------------------------------------------
  // ABC classification
  // ---------------------------------------------------------------------

  /** The classes of the 80-15-5 rule, most valuable first. */
  datatype AbcClass = ClassA | ClassB | ClassC

  function Rank(c: AbcClass): nat {
    match c
    case ClassA => 0
    case ClassB => 1
    case ClassC => 2
  }

  /** The cumulative shares that close classes A and B. */
  const AShare: real := 0.8
  const BShare: real := 0.95

  /** Annual sales are estimated as ten times the stock on hand. */
  const SalesFactor: int := 10

  /** One entry of the value map: an item and its estimated annual sales. */
  datatype ItemValue = ItemValue(itemId: string, value: real)

  predicate DistinctIds(s: seq<ItemValue>) {
    forall i, j :: 0 <= i < j < |s| ==> s[i].itemId != s[j].itemId
  }

  /** The sort key that puts larger values first. */
  function NegValue(v: ItemValue): real {
    -v.value
  }

  function ValueSum(s: seq<ItemValue>): real {
    if s == [] then 0.0 else s[0].value + ValueSum(s[1..])
  }

  /** A share of at most `k` of a positive total, without dividing. */
  lemma ShareAtMost(cum: real, total: real, k: real)
    requires total > 0.0
    ensures cum / total <= k <==> cum <= k * total
  {
    if cum / total <= k {
      assert cum == (cum / total) * total;
    } else {
      assert cum == (cum / total) * total;
    }
  }

  /** The class of an item whose value brings the cumulative value to `cum`
      out of `total`. A zero total makes Go divide by zero: a negative
      cumulative value gives -Inf, which is at most 0.8, and zero or a
      positive one gives NaN or +Inf, which compare false. */
  function Tier(cum: real, total: real): (c: AbcClass)
    ensures total > 0.0 ==> (c == ClassA <==> cum <= AShare * total)
    ensures total > 0.0 ==> (c == ClassB <==> AShare * total < cum <= BShare * total)
    ensures total > 0.0 ==> (c == ClassC <==> BShare * total < cum)
    ensures total == 0.0 ==> (c == ClassA <==> cum < 0.0) && c != ClassB
  {
    if total == 0.0 then (if cum < 0.0 then ClassA else ClassC)
    else
      var share := cum / total;
      if total > 0.0 then
        ShareAtMost(cum, total, AShare);
        ShareAtMost(cum, total, BShare);
        if share <= AShare then ClassA else if share <= BShare then ClassB else ClassC
      else if share <= AShare then ClassA else if share <= BShare then ClassB else ClassC
  }

  /** With a non-negative total, a larger non-negative cumulative value never
      gets a better class. */
  lemma TierMonotone(c1: real, c2: real, total: real)
    requires 0.0 <= c1 <= c2 && total >= 0.0
    ensures Rank(Tier(c1, total)) <= Rank(Tier(c2, total))
  {
  }

  /** The classes along `sorted`, the cumulative value starting at `cum`. */
  function Tiers(sorted: seq<ItemValue>, cum: real, total: real): (r: seq<AbcClass>)
    ensures |r| == |sorted|
  {
    if sorted == [] then []
    else
      var c := cum + sorted[0].value;
      [Tier(c, total)] + Tiers(sorted[1..], c, total)
  }

  /** With non-negative values the classes never go backwards along the
      sequence, and none is better than the class of the starting point. */
  lemma {:induction false} TiersMonotone(sorted: seq<ItemValue>, cum: real, total: real)
    requires cum >= 0.0 && total >= 0.0
    requires forall i :: 0 <= i < |sorted| ==> sorted[i].value >= 0.0
    ensures var r := Tiers(sorted, cum, total);
            && (forall i :: 0 <= i < |r| ==> Rank(Tier(cum, total)) <= Rank(r[i]))
            && (forall i, j :: 0 <= i < j < |r| ==> Rank(r[i]) <= Rank(r[j]))
  {
    if sorted != [] {
      var c := cum + sorted[0].value;
      var rest := sorted[1..];
      TiersMonotone(rest, c, total);
      TierMonotone(cum, c, total);
      var r := Tiers(sorted, cum, total);
      assert forall i :: 1 <= i < |r| ==> r[i] == Tiers(rest, c, total)[i - 1];
    }
  }

  /** When the cumulative value ends at a positive total, or the total is 0
      and nothing is negative, the last class is C. */
  lemma {:induction false} TiersEndInC(sorted: seq<ItemValue>, cum: real, total: real)
    requires sorted != [] && cum + ValueSum(sorted) == total && total >= 0.0
    requires total == 0.0 ==> cum >= 0.0 && forall i :: 0 <= i < |sorted| ==> sorted[i].value >= 0.0
    ensures Tiers(sorted, cum, total)[|sorted| - 1] == ClassC
  {
    var c := cum + sorted[0].value;
    if |sorted| == 1 {
      assert ValueSum(sorted) == sorted[0].value;
    } else {
      var rest := sorted[1..];
      assert forall i :: 0 <= i < |rest| ==> rest[i] == sorted[i + 1];
      TiersEndInC(rest, c, total);
      assert Tiers(sorted, cum, total)[|sorted| - 1] == Tiers(rest, c, total)[|rest| - 1];
    }
  }

  /** The classification map, assigned along `sorted`; a later entry for
      the same item overwrites an earlier one, as map assignment does. */
  function Assign(sorted: seq<ItemValue>, tiers: seq<AbcClass>): (r: map<string, AbcClass>)
    requires |tiers| == |sorted|
    ensures r.Keys == set v | v in sorted :: v.itemId
    decreases |sorted|
  {
    if sorted == [] then map[]
    else
      var n := |sorted| - 1;
      var m := Assign(sorted[..n], tiers[..n]);
      assert forall v :: v in sorted <==> v in sorted[..n] || v == sorted[n];
      m[sorted[n].itemId := tiers[n]]
  }

  /** With distinct items, each item gets the class of its position. */
  lemma {:induction false} AssignAt(sorted: seq<ItemValue>, tiers: seq<AbcClass>, i: nat)
    requires |tiers| == |sorted| && DistinctIds(sorted) && i < |sorted|
    ensures Assign(sorted, tiers)[sorted[i].itemId] == tiers[i]
    decreases |sorted|
  {
    var n := |sorted| - 1;
    if i < n {
      var p := sorted[..n];
      DistinctPrefix(sorted, n);
      AssignAt(p, tiers[..n], i);
      assert p[i] == sorted[i];
    }
  }

  /** A prefix of a sequence of distinct items has distinct items. */
  lemma DistinctPrefix(s: seq<ItemValue>, n: nat)
    requires DistinctIds(s) && n <= |s|
    ensures DistinctIds(s[..n])
  {
    assert forall i :: 0 <= i < n ==> s[..n][i] == s[i];
  }

  /** Classifies the entries of a value map, given in the map's iteration
      order: by descending value, each item's class is decided by the share
      of the total that the items up to and including it make. */
  function ClassifyABC(items: seq<ItemValue>): (r: map<string, AbcClass>)
    ensures r.Keys == set v | v in items :: v.itemId
  {
    var sorted := SortBy(items, NegValue);
    assert forall v :: v in sorted <==> v in items by {
      forall v ensures v in sorted <==> v in items {
        assert v in sorted <==> v in multiset(sorted);
      }
    }
    Assign(sorted, Tiers(sorted, 0.0, ValueSum(items)))
  }

  /** An element occurring at two positions occurs twice. */
  lemma CountTwo(b: seq<ItemValue>, i: nat, j: nat)
    requires i < j < |b| && b[i] == b[j]
    ensures multiset(b)[b[j]] >= 2
  {
    assert b == b[..j] + [b[j]] + b[j + 1..];
    assert b[i] in b[..j];
  }

  /** With distinct item ids every element occurs once. */
  lemma CountOne(a: seq<ItemValue>, p: nat)
    requires DistinctIds(a) && p < |a|
    ensures multiset(a)[a[p]] == 1
  {
    assert a == a[..p] + [a[p]] + a[p + 1..];
    assert a[p] !in a[..p] by {
      forall k | 0 <= k < p ensures a[..p][k] != a[p] {
        assert a[k].itemId != a[p].itemId;
      }
    }
    var tail := a[p + 1..];
    assert a[p] !in tail by {
      forall k | 0 <= k < |tail| ensures tail[k] != a[p] {
        assert tail[k] == a[p + 1 + k];
      }
    }
  }

  /** Reordering keeps item ids distinct. */
  lemma DistinctIdsPermutation(a: seq<ItemValue>, b: seq<ItemValue>)
    requires multiset(a) == multiset(b) && DistinctIds(a)
    ensures DistinctIds(b)
  {
    forall i, j | 0 <= i < j < |b|
      ensures b[i].itemId != b[j].itemId
    {
      if b[i].itemId == b[j].itemId {
        assert b[i] in multiset(a) && b[j] in multiset(a);
        var p :| 0 <= p < |a| && a[p] == b[i];
        var q :| 0 <= q < |a| && a[q] == b[j];
        assert p == q;
        CountTwo(b, i, j);
        CountOne(a, p);
        assert false;
      }
    }
  }

  lemma {:induction false} ValueSumAppend(a: seq<ItemValue>, b: seq<ItemValue>)
    ensures ValueSum(a + b) == ValueSum(a) + ValueSum(b)
  {
    if a == [] {
      assert a + b == b;
    } else {
      assert (a + b)[0] == a[0];
      assert (a + b)[1..] == a[1..] + b;
      ValueSumAppend(a[1..], b);
    }
  }

  lemma ValueSumSplice(a: seq<ItemValue>, x: ItemValue, b: seq<ItemValue>)
    ensures ValueSum(a + [x] + b) == ValueSum(a) + x.value + ValueSum(b)
  {
    ValueSumAppend(a + [x], b);
    ValueSumAppend(a, [x]);
    assert ValueSum([x]) == x.value;
  }

  /** Inserting an entry adds its value to the total. */
  lemma InsertSum(x: ItemValue, t: seq<ItemValue>)
    requires Ascending(t, NegValue)
    ensures ValueSum(Insert(x, t, NegValue)) == x.value + ValueSum(t)
  {
    var k := InsertPos(x, t, NegValue);
    ValueSumSplice(t[..k], x, t[k..]);
    ValueSumAppend(t[..k], t[k..]);
    assert t[..k] + t[k..] == t;
  }

  /** Sorting does not change the total. */
  lemma {:induction false} SortedValueSum(s: seq<ItemValue>)
    ensures ValueSum(SortBy(s, NegValue)) == ValueSum(s)
  {
    if s != [] {
      var t := SortBy(s[1..], NegValue);
      SortedValueSum(s[1..]);
      assert SortBy(s, NegValue) == Insert(s[0], t, NegValue);
      InsertSum(s[0], t);
    }
  }

  lemma {:induction false} ValueSumNonNegative(s: seq<ItemValue>)
    requires forall i :: 0 <= i < |s| ==> s[i].value >= 0.0
    ensures ValueSum(s) >= 0.0
  {
    if s != [] {
      ValueSumNonNegative(s[1..]);
    }
  }

  /** The sorted entries keep the values of the original ones. */
  lemma SortedNonNegative(items: seq<ItemValue>)
    requires forall i :: 0 <= i < |items| ==> items[i].value >= 0.0
    ensures var sorted := SortBy(items, NegValue);
            forall k :: 0 <= k < |sorted| ==> sorted[k].value >= 0.0
  {
    var sorted := SortBy(items, NegValue);
    forall k | 0 <= k < |sorted| ensures sorted[k].value >= 0.0 {
      assert sorted[k] in multiset(items);
    }
  }

  /** The position of an entry of the value map in the sorted order. */
  lemma SortedPosition(items: seq<ItemValue>, x: ItemValue) returns (i: nat)
    requires x in items
    ensures i < |SortBy(items, NegValue)| && SortBy(items, NegValue)[i] == x
  {
    var sorted := SortBy(items, NegValue);
    assert x in multiset(sorted);
    i :| 0 <= i < |sorted| && sorted[i] == x;
  }

  /** The class of the entry at position `i` of the sorted order. */
  lemma ClassAt(items: seq<ItemValue>, i: nat)
    requires DistinctIds(items) && i < |items|
    ensures var sorted := SortBy(items, NegValue);
            ClassifyABC(items)[sorted[i].itemId] == Tiers(sorted, 0.0, ValueSum(items))[i]
  {
    var sorted := SortBy(items, NegValue);
    DistinctIdsPermutation(items, sorted);
    assert ClassifyABC(items) == Assign(sorted, Tiers(sorted, 0.0, ValueSum(items)));
    AssignAt(sorted, Tiers(sorted, 0.0, ValueSum(items)), i);
  }

  /** With distinct items and non-negative values, an item worth strictly
      more than another never gets a worse class: the classes never go
      backwards along descending value. */
  lemma ClassifyMonotone(items: seq<ItemValue>, x: ItemValue, y: ItemValue)
    requires DistinctIds(items) && forall i :: 0 <= i < |items| ==> items[i].value >= 0.0
    requires x in items && y in items && x.value > y.value
    ensures Rank(ClassifyABC(items)[x.itemId]) <= Rank(ClassifyABC(items)[y.itemId])
  {
    var sorted := SortBy(items, NegValue);
    ValueSumNonNegative(items);
    SortedNonNegative(items);
    var i := SortedPosition(items, x);
    var j := SortedPosition(items, y);
    assert i < j;
    TiersMonotone(sorted, 0.0, ValueSum(items));
    ClassAt(items, i);
    ClassAt(items, j);
  }

  /** The entry of strictly least value is sorted last. */
  lemma LeastIsLast(items: seq<ItemValue>, y: ItemValue)
    requires y in items && forall v :: v in items && v != y ==> v.value > y.value
    ensures SortBy(items, NegValue)[|items| - 1] == y
  {
    var sorted := SortBy(items, NegValue);
    var z := sorted[|items| - 1];
    assert z in multiset(items);
    if z != y {
      var j := SortedPosition(items, y);
      assert false;
    }
  }

  /** With distinct items and non-negative values, the item of strictly
      least value is always C: the items up to it make the whole total. So
      a location with a single item classifies it as C. */
  lemma LeastIsC(items: seq<ItemValue>, y: ItemValue)
    requires DistinctIds(items) && forall i :: 0 <= i < |items| ==> items[i].value >= 0.0
    requires y in items && forall v :: v in items && v != y ==> v.value > y.value
    ensures ClassifyABC(items)[y.itemId] == ClassC
  {
    var sorted := SortBy(items, NegValue);
    ValueSumNonNegative(items);
    SortedValueSum(items);
    SortedNonNegative(items);
    LeastIsLast(items, y);
    TiersEndInC(sorted, 0.0, ValueSum(items));
    ClassAt(items, |items| - 1);
  }

  /** The estimated annual sales of a record: the stock on hand times ten,
      an int64 product, at the catalog unit cost. */
  function Estimate(item: Item, s: Stock): ItemValue {
    ItemValue(s.itemId, Cost(item.unitCost, Wrap64(s.quantity * SalesFactor)))
  }

  /** The value map as a sequence: one estimate per record whose item is in
      the catalog; records whose item lookup fails are passed over. */
  function Estimates(db: Db, stocks: seq<Stock>): (r: seq<ItemValue>)
    ensures |r| <= |stocks|
  {
    if stocks == [] then []
    else
      var s := stocks[0];
      match GetItem(db, s.itemId)
      case Err(_) => Estimates(db, stocks[1..])
      case Ok(item) => [Estimate(item, s)] + Estimates(db, stocks[1..])
  }

  /** Every estimate is that of a record whose item is in the catalog. */
  lemma {:induction false} EstimatesSound(db: Db, stocks: seq<Stock>)
    ensures forall v :: v in Estimates(db, stocks) ==>
              exists s :: s in stocks && s.itemId in db.items && v == Estimate(db.items[s.itemId], s)
  {
    if stocks != [] {
      EstimatesSound(db, stocks[1..]);
      assert forall t :: t in stocks[1..] ==> t in stocks;
    }
  }

  /** Every record whose item is in the catalog has its estimate. */
  lemma {:induction false} EstimatesComplete(db: Db, stocks: seq<Stock>)
    ensures forall s :: s in stocks && s.itemId in db.items ==> Estimate(db.items[s.itemId], s) in Estimates(db, stocks)
  {
    if stocks != [] {
      EstimatesComplete(db, stocks[1..]);
      assert forall t :: t in stocks ==> t == stocks[0] || t in stocks[1..];
    }
  }

  /** Records of distinct items give estimates of distinct items. */
  lemma {:induction false} EstimatesDistinct(db: Db, stocks: seq<Stock>)
    requires DistinctItems(stocks)
    ensures DistinctIds(Estimates(db, stocks))
  {
    if stocks != [] {
      var s := stocks[0];
      var rest := stocks[1..];
      forall i, j | 0 <= i < j < |rest| ensures rest[i].itemId != rest[j].itemId {
        assert rest[i] == stocks[i + 1] && rest[j] == stocks[j + 1];
      }
      EstimatesDistinct(db, rest);
      var tail := Estimates(db, rest);
      if s.itemId in db.items {
        EstimatesSound(db, rest);
        forall k | 0 <= k < |tail| ensures tail[k].itemId != s.itemId {
          assert tail[k] in tail;
          var t :| t in rest && t.itemId in db.items && tail[k] == Estimate(db.items[t.itemId], t);
          var i :| 0 <= i < |rest| && rest[i] == t;
          assert stocks[i + 1] == t;
        }
      }
    }
  }

  /** ABC analysis of a location: every record whose item is in the catalog
      is classified, and no other item. */
  function CalculateABCClassification(db: Db, loc: string): (r: map<string, AbcClass>)
    ensures forall item :: item in r <==>
              item in db.items && exists s :: s in ListStockByLocation(db, loc) && s.itemId == item
  {
    var stocks := ListStockByLocation(db, loc);
    var es := Estimates(db, stocks);
    EstimatesSound(db, stocks);
    EstimatesComplete(db, stocks);
    ClassifyABC(es)
  }

  // ---------------------------------------------------------------------
  // Slow-moving items
  // ---------------------------------------------------------------------

  /** How many of an item's newest entries are searched for a shipment. */
  const SlowMovingHistoryLimit: nat := 100

  /** An outbound entry after `cutoff` among the item's newest entries. */
  predicate RecentOutbound(db: Db, item: string, cutoff: Time) {
    exists tx :: tx in GetTransactionHistory(db, item, SlowMovingHistoryLimit).value
                 && tx.kind == Outbound && tx.createdAt > cutoff
  }

  /** The slow-moving items among `stocks`, in listing order: stock on hand
      and no recent shipment. */
  function SlowMoving(db: Db, stocks: seq<Stock>, cutoff: Time): (r: seq<string>)
    ensures |r| <= |stocks|
    decreases |stocks|
  {
    if stocks == [] then []
    else
      var n := |stocks| - 1;
      var s := stocks[n];
      SlowMoving(db, stocks[..n], cutoff)
        + (if s.quantity > 0 && !RecentOutbound(db, s.itemId, cutoff) then [s.itemId] else [])
  }

  /** An item is slow-moving iff one of its records has stock on hand and
      the item has no recent shipment. */
  lemma {:induction false} SlowMovingMembers(db: Db, stocks: seq<Stock>, cutoff: Time)
    ensures forall item :: item in SlowMoving(db, stocks, cutoff) <==>
              exists s :: s in stocks && s.itemId == item && s.quantity > 0 && !RecentOutbound(db, item, cutoff)
    decreases |stocks|
  {
    if stocks != [] {
      var n := |stocks| - 1;
      SlowMovingMembers(db, stocks[..n], cutoff);
      assert forall t :: t in stocks <==> t == stocks[n] || t in stocks[..n];
    }
  }

  /** Searches an item's newest entries for an outbound one after the
      cutoff, stopping at the first. */
  method HasRecentActivity(db: Db, item: string, cutoff: Time) returns (recent: bool)
    ensures recent == RecentOutbound(db, item, cutoff)
  {
    var txs := GetTransactionHistory(db, item, SlowMovingHistoryLimit).value;
    recent := false;
    var j := 0;
    while j < |txs|
      invariant 0 <= j <= |txs|
      invariant !recent
      invariant forall k :: 0 <= k < j ==> !(txs[k].kind == Outbound && txs[k].createdAt > cutoff)
    {
      if txs[j].kind == Outbound && txs[j].createdAt > cutoff {
        recent := true;
        return;
      }
      j := j + 1;
    }
  }

  /** One more record extends the slow-moving list by at most its item. */
  lemma SlowMovingStep(db: Db, stocks: seq<Stock>, i: nat, cutoff: Time)
    requires i < |stocks|
    ensures SlowMoving(db, stocks[..i + 1], cutoff)
            == SlowMoving(db, stocks[..i], cutoff)
               + (if stocks[i].quantity > 0 && !RecentOutbound(db, stocks[i].itemId, cutoff) then [stocks[i].itemId] else [])
  {
    assert stocks[..i + 1][..i] == stocks[..i];
  }

  /** Scans the records in order, keeping each item with stock on hand and
      no recent shipment. */
  method ScanSlowMoving(db: Db, stocks: seq<Stock>, cutoff: Time) returns (items: seq<string>)
    ensures items == SlowMoving(db, stocks, cutoff)
  {
    items := [];
    var i := 0;
    while i < |stocks|
      invariant 0 <= i <= |stocks|
      invariant items == SlowMoving(db, stocks[..i], cutoff)
    {
      var s := stocks[i];
      var recent := HasRecentActivity(db, s.itemId, cutoff);
      SlowMovingStep(db, stocks, i, cutoff);
      if !recent && s.quantity > 0 {
        items := items + [s.itemId];
      }
      i := i + 1;
    }
    assert stocks[..|stocks|] == stocks;
  }

  /** The slow-moving items of a location: those with stock on hand and no
      outbound entry in the `threshold` before `now`. */
  method GetSlowMovingItems(db: Db, loc: string, threshold: Duration, now: Time) returns (items: seq<string>)
    ensures items == SlowMoving(db, ListStockByLocation(db, loc), now - threshold)
  {
    items := ScanSlowMoving(db, ListStockByLocation(db, loc), now - threshold);
  }

  /** A longer threshold, that is an earlier cutoff, flags no more items. */
  lemma SlowMovingAntitone(db: Db, stocks: seq<Stock>, early: Time, late: Time, item: string)
    requires early <= late && item in SlowMoving(db, stocks, early)
    ensures item in SlowMoving(db, stocks, late)
  {
    SlowMovingMembers(db, stocks, early);
    SlowMovingMembers(db, stocks, late);
    var s :| s in stocks && s.itemId == item && s.quantity > 0 && !RecentOutbound(db, item, early);
    assert !RecentOutbound(db, item, late);
  }
}
