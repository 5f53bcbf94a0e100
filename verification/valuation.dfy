/** Inventory valuation (valuation.go, ValuationEngineImpl): the value of the
    stock of an item at a location under FIFO, LIFO, weighted-average or
    standard costing, and the total over a location. Costs are exact reals;
    Go's float64 rounding is not modelled. */
module Valuation {
  import opened Wrappers
  import opened Types
  import opened Seqs
  import opened Store

  const FifoMethod: string := "FIFO"
  const LifoMethod: string := "LIFO"
  const AverageMethod: string := "AVERAGE"
  const StandardMethod: string := "STANDARD"

  /** How many newest entries the layer and the average computations read. */
  const LayerHistoryLimit: nat := 10000
  const AverageHistoryLimit: nat := 1000

  // ---------------------------------------------------------------------
  // Cost layers
  // ---------------------------------------------------------------------

  /** A journal entry that brought stock into `loc` at a positive unit cost:
      an inbound entry or a transfer. */
  predicate IsLayer(loc: string, e: Transaction) {
    && (e.kind == Inbound || e.kind == TransferKind)
    && e.to == Some(loc)
    && e.unitCost.Some? && e.unitCost.value > 0.0
  }

  /** The cost layers of `item` at `loc`, among the item's newest entries. */
  function InboundLayers(db: Db, item: string, loc: string): (r: seq<Transaction>)
    ensures forall e :: e in r ==> e in db.journal && e.itemId == item && IsLayer(loc, e)
    ensures |db.journal| <= LayerHistoryLimit ==>
              forall e :: e in db.journal && e.itemId == item && IsLayer(loc, e) ==> e in r
  {
    Filter(GetTransactionHistory(db, item, LayerHistoryLimit).value, (e: Transaction) => IsLayer(loc, e))
  }

  /** The cost of `n` units at unit cost `c`, the product c·n
      (CostIsProduct). It is written unit by unit so that sums of costs
      stay linear facts for the verifier. */
  function Cost(c: real, n: int): real
    decreases if n < 0 then -n else n
  {
    if n == 0 then 0.0 else if n > 0 then Cost(c, n - 1) + c else Cost(c, n + 1) - c
  }

  lemma {:induction false} CostIsProduct(c: real, n: int)
    ensures Cost(c, n) == c * n as real
    decreases if n < 0 then -n else n
  {
    if n > 0 {
      CostIsProduct(c, n - 1);
    } else if n < 0 {
      CostIsProduct(c, n + 1);
    }
  }

  /** A dearer unit cost gives a dearer cost for the same units. */
  lemma {:induction false} CostMono(a: real, b: real, n: int)
    requires a <= b && n >= 0
    ensures Cost(a, n) <= Cost(b, n)
  {
    if n > 0 {
      CostMono(a, b, n - 1);
    }
  }

  /** One unit more costs `c` more, for any count. */
  lemma CostStep(c: real, n: int)
    ensures Cost(c, n) == Cost(c, n - 1) + c
  {
  }

  /** The cost of two counts of units is the sum of their costs. */
  lemma {:induction false} CostAdd(c: real, m: int, n: int, k: int)
    requires k == m + n
    ensures Cost(c, k) == Cost(c, m) + Cost(c, n)
    decreases if n < 0 then -n else n
  {
    if n > 0 {
      CostAdd(c, m, n - 1, k - 1);
      CostStep(c, k);
      CostStep(c, n);
    } else if n < 0 {
      CostAdd(c, m, n + 1, k + 1);
      CostStep(c, k + 1);
      CostStep(c, n + 1);
    }
  }

  /** Equal or ordered costs of a positive count order the unit costs. */
  lemma CostCancel(a: real, b: real, n: int)
    requires n > 0 && Cost(a, n) <= Cost(b, n)
    ensures a <= b
  {
    CostIsProduct(a, n);
    CostIsProduct(b, n);
    MulCancel(a, b, n as real);
  }

  /** Cancels a positive factor on both sides of an inequality. */
  lemma MulCancel(a: real, b: real, q: real)
    requires q > 0.0 && a * q <= b * q
    ensures a <= b
  {
  }

  /** The value of `remaining` units drawn from `layers` in order: each layer
      with a cost gives up to its quantity at its cost, until nothing
      remains; layers without a cost are passed over. The remaining count is
      int64 arithmetic. */
  function Consume(layers: seq<Transaction>, remaining: int): real
    decreases |layers|
  {
    if layers == [] || remaining <= 0 then 0.0
    else if layers[0].unitCost.None? then Consume(layers[1..], remaining)
    else
      var use := if layers[0].quantity > remaining then remaining else layers[0].quantity;
      Cost(layers[0].unitCost.value, use) + Consume(layers[1..], Wrap64(remaining - use))
  }

  /** The layer walk as the engine runs it, over a sorted layer list. */
  method CalculateValueFromTransactions(layers: seq<Transaction>, quantity: Int64) returns (total: real)
    ensures total == Consume(layers, quantity)
  {
    total := 0.0;
    var remaining: int := quantity;
    var i := 0;
    while i < |layers|
      invariant 0 <= i <= |layers|
      invariant total + Consume(layers[i..], remaining) == Consume(layers, quantity)
    {
      if remaining <= 0 {
        break;
      }
      assert layers[i..][1..] == layers[i + 1..];
      if layers[i].unitCost.Some? {
        var use := if layers[i].quantity > remaining then remaining else layers[i].quantity;
        total := total + Cost(layers[i].unitCost.value, use);
        remaining := Wrap64(remaining - use);
      }
      i := i + 1;
    }
  }

  /** The costed units of one layer. */
  function LayerUnits(e: Transaction): int {
    if e.unitCost.Some? then e.quantity else 0
  }

  /** The units of the layers that carry a cost. */
  function CostedUnits(layers: seq<Transaction>): int {
    if layers == [] then 0
    else LayerUnits(layers[0]) + CostedUnits(layers[1..])
  }

  function Min(a: int, b: int): int {
    if a <= b then a else b
  }

  /** One costed layer step keeps the bounds: a value `v` made of `use`
      units at a cost between `lo` and `hi` and a remainder bounded by `u'`
      units is bounded by `u = use + u'` units. */
  lemma StepBounds(lo: real, c: real, hi: real, use: int, u': int, u: int, tail: real, v: real)
    requires lo <= c <= hi && use >= 0 && u == use + u'
    requires Cost(lo, u') <= tail <= Cost(hi, u')
    requires v == Cost(c, use) + tail
    ensures Cost(lo, u) <= v <= Cost(hi, u)
  {
    CostMono(lo, c, use);
    CostMono(c, hi, use);
    CostAdd(lo, use, u', u);
    CostAdd(hi, use, u', u);
  }

  /** Every layer holds stock, and every cost lies between `lo` and `hi`. */
  predicate LayersWithin(layers: seq<Transaction>, lo: real, hi: real) {
    forall i :: 0 <= i < |layers| ==>
      layers[i].quantity > 0 && (layers[i].unitCost.Some? ==> lo <= layers[i].unitCost.value <= hi)
  }

  /** With positive layer quantities, the value of `remaining` units lies
      between the cheapest and the dearest layer cost times the units valued,
      which are `remaining` or all the costed units, whichever is fewer. */
  lemma {:induction false} ConsumeBounds(layers: seq<Transaction>, remaining: int, lo: real, hi: real)
    requires 0 <= remaining && InInt64(remaining)
    requires LayersWithin(layers, lo, hi)
    ensures CostedUnits(layers) >= 0
    ensures var u := Min(remaining, CostedUnits(layers));
            Cost(lo, u) <= Consume(layers, remaining) <= Cost(hi, u)
    decreases |layers|
  {
    if layers != [] {
      var rest := layers[1..];
      assert LayersWithin(rest, lo, hi) by {
        forall i | 0 <= i < |rest| ensures rest[i] == layers[i + 1] { }
      }
      if remaining == 0 {
        ConsumeBounds(rest, 0, lo, hi);
        assert Min(remaining, CostedUnits(layers)) == 0;
      } else if layers[0].unitCost.None? {
        ConsumeBounds(rest, remaining, lo, hi);
        assert CostedUnits(layers) == CostedUnits(rest);
        assert Consume(layers, remaining) == Consume(rest, remaining);
      } else {
        var c := layers[0].unitCost.value;
        var q0 := layers[0].quantity;
        var use := if q0 > remaining then remaining else q0;
        var left := remaining - use;
        assert Wrap64(left) == left;
        ConsumeBounds(rest, left, lo, hi);
        var u' := Min(left, CostedUnits(rest));
        var tail := Consume(rest, left);
        assert Consume(layers, remaining) == Cost(c, use) + tail;
        StepBounds(lo, c, hi, use, u', Min(remaining, CostedUnits(layers)), tail, Consume(layers, remaining));
      }
    }
  }

  /** The sort key of LIFO: newer entries first. */
  function NewerFirst(e: Transaction): real {
    -(e.createdAt as real)
  }

  /** FIFO: layers oldest first. Nothing is valued for a non-positive
      quantity or when the item has no cost layer at the location. */
  function CalculateFifo(db: Db, item: string, loc: string, quantity: Int64): (v: real)
    ensures Ascending(SortBy(InboundLayers(db, item, loc), CreatedAt), CreatedAt)
    ensures quantity <= 0 || InboundLayers(db, item, loc) == [] ==> v == 0.0
  {
    Consume(SortBy(InboundLayers(db, item, loc), CreatedAt), quantity)
  }

  /** LIFO: layers newest first, with the same zero cases as FIFO. */
  function CalculateLifo(db: Db, item: string, loc: string, quantity: Int64): (v: real)
    ensures Descending(SortBy(InboundLayers(db, item, loc), NewerFirst), CreatedAt)
    ensures quantity <= 0 || InboundLayers(db, item, loc) == [] ==> v == 0.0
  {
    var sorted := SortBy(InboundLayers(db, item, loc), NewerFirst);
    assert forall i, j :: 0 <= i < j < |sorted| ==> NewerFirst(sorted[i]) <= NewerFirst(sorted[j]);
    Consume(sorted, quantity)
  }

  /** The costed units of a concatenation are the sum of both parts'. */
  lemma {:induction false} CostedUnitsAppend(a: seq<Transaction>, b: seq<Transaction>)
    ensures CostedUnits(a + b) == CostedUnits(a) + CostedUnits(b)
    decreases |a|
  {
    if a == [] {
      assert a + b == b;
    } else {
      assert (a + b)[0] == a[0];
      assert (a + b)[1..] == a[1..] + b;
      CostedUnitsAppend(a[1..], b);
    }
  }

  /** Taking the layer at `j` out of `b` removes its units from the count. */
  lemma CostedUnitsRemove(b: seq<Transaction>, j: int)
    requires 0 <= j < |b|
    ensures CostedUnits(b) == LayerUnits(b[j]) + CostedUnits(b[..j] + b[j + 1..])
  {
    assert b == b[..j] + ([b[j]] + b[j + 1..]);
    CostedUnitsAppend(b[..j], [b[j]] + b[j + 1..]);
    assert ([b[j]] + b[j + 1..])[1..] == b[j + 1..];
    CostedUnitsAppend(b[..j], b[j + 1..]);
  }

  /** Taking the first element of `a` out of both sides of a permutation,
      at the position `j` where `b` holds it, leaves a permutation. */
  lemma RemoveMatched<T>(a: seq<T>, b: seq<T>, j: int)
    requires multiset(a) == multiset(b) && a != [] && 0 <= j < |b| && b[j] == a[0]
    ensures multiset(b[..j] + b[j + 1..]) == multiset(a[1..])
  {
    var x := a[0];
    assert b == b[..j] + [x] + b[j + 1..];
    assert a == [x] + a[1..];
    assert multiset(b) == multiset(b[..j]) + multiset{x} + multiset(b[j + 1..]);
    assert multiset(a) == multiset{x} + multiset(a[1..]);
    assert multiset(b[..j] + b[j + 1..]) == multiset(b) - multiset{x};
  }

  /** The costed units do not depend on the order of the layers. */
  lemma {:induction false} CostedUnitsPermutation(a: seq<Transaction>, b: seq<Transaction>)
    requires multiset(a) == multiset(b)
    ensures CostedUnits(a) == CostedUnits(b)
    decreases |a|
  {
    if a == [] {
      assert |b| == |multiset(b)| == 0;
    } else {
      var x := a[0];
      assert x in multiset(b);
      var j :| 0 <= j < |b| && b[j] == x;
      var b' := b[..j] + b[j + 1..];
      RemoveMatched(a, b, j);
      CostedUnitsPermutation(a[1..], b');
      CostedUnitsRemove(b, j);
    }
  }

  /** Every layer holds stock at the one unit cost `c`. */
  predicate UniformCost(layers: seq<Transaction>, c: real) {
    forall e :: e in layers ==> e.quantity > 0 && e.unitCost == Some(c)
  }

  /** A reordering of uniform layers is uniform. */
  lemma PermutationKeepsUniform(a: seq<Transaction>, b: seq<Transaction>, c: real)
    requires multiset(a) == multiset(b) && UniformCost(b, c)
    ensures UniformCost(a, c)
  {
    forall e | e in a ensures e in b {
      assert e in multiset(a);
    }
  }

  /** At a uniform cost, the value of `q` units is the cost of the units
      actually valued. */
  lemma UniformCostValue(layers: seq<Transaction>, c: real, q: Int64)
    requires UniformCost(layers, c) && q >= 0
    ensures Consume(layers, q) == Cost(c, Min(q, CostedUnits(layers)))
  {
    assert LayersWithin(layers, c, c) by {
      forall i | 0 <= i < |layers| ensures layers[i] in layers { }
    }
    ConsumeBounds(layers, q, c, c);
  }

  /** At a uniform cost, the layer order chosen by any sort key leaves the
      value unchanged. */
  lemma SortedUniformValue(layers: seq<Transaction>, key: Transaction -> real, c: real, q: Int64)
    requires UniformCost(layers, c) && q >= 0
    ensures Consume(SortBy(layers, key), q) == Cost(c, Min(q, CostedUnits(layers)))
  {
    var sorted := SortBy(layers, key);
    PermutationKeepsUniform(sorted, layers, c);
    CostedUnitsPermutation(sorted, layers);
    UniformCostValue(sorted, c, q);
  }

  /** When every cost layer of the item at the location has the same unit
      cost, FIFO and LIFO agree: both value the units available up to the
      quantity at that cost (`Cost(c, n)` is c·n by CostIsProduct). The two
      methods differ only in the order in which they meet different costs. */
  lemma FifoLifoAgreeOnUniformCost(db: Db, item: string, loc: string, quantity: Int64, c: real)
    requires UniformCost(InboundLayers(db, item, loc), c) && quantity >= 0
    ensures CalculateFifo(db, item, loc, quantity) == CalculateLifo(db, item, loc, quantity)
    ensures CalculateFifo(db, item, loc, quantity) == Cost(c, Min(quantity, CostedUnits(InboundLayers(db, item, loc))))
  {
    var layers := InboundLayers(db, item, loc);
    SortedUniformValue(layers, CreatedAt, c, quantity);
    SortedUniformValue(layers, NewerFirst, c, quantity);
  }

  const OlderLayer := Transaction(0, Inbound, "i", None, Some("l"), 100, Some(10.0), "", None, None, None, 1, "u")
  const NewerLayer := Transaction(1, Inbound, "i", None, Some("l"), 100, Some(20.0), "", None, None, None, 2, "u")

  /** FIFO puts the older of two layers first. */
  lemma FifoOrder()
    ensures SortBy([NewerLayer, OlderLayer], CreatedAt) == [OlderLayer, NewerLayer]
  {
    assert SortBy([OlderLayer], CreatedAt) == [OlderLayer] by {
      assert [OlderLayer][1..] == [];
    }
    assert InsertPos(NewerLayer, [OlderLayer], CreatedAt) == 1;
  }

  /** LIFO puts the newer of two layers first. */
  lemma LifoOrder()
    ensures SortBy([OlderLayer, NewerLayer], NewerFirst) == [NewerLayer, OlderLayer]
  {
    assert SortBy([NewerLayer], NewerFirst) == [NewerLayer] by {
      assert [NewerLayer][1..] == [];
    }
    assert InsertPos(OlderLayer, [NewerLayer], NewerFirst) == 1;
  }

  /** Two layers, 100 units at 10 and then 100 units at 20: 150 units are
      worth 2000 under FIFO, which spends the cheaper older layer first. */
  lemma FifoExample()
    ensures Consume(SortBy([NewerLayer, OlderLayer], CreatedAt), 150) == 2000.0
  {
    FifoOrder();
    assert [OlderLayer, NewerLayer][1..] == [NewerLayer];
    assert [NewerLayer][1..] == [];
    assert Wrap64(150 - 100) == 50;
    assert Wrap64(50 - 50) == 0;
    CostIsProduct(10.0, 100);
    CostIsProduct(20.0, 50);
    assert Consume([NewerLayer], 50) == 1000.0;
    assert Consume([OlderLayer, NewerLayer], 150) == 1000.0 + Consume([NewerLayer], 50);
  }

  /** The same two layers are worth 2500 under LIFO, which spends the dearer
      newer layer first. */
  lemma LifoExample()
    ensures Consume(SortBy([OlderLayer, NewerLayer], NewerFirst), 150) == 2500.0
  {
    LifoOrder();
    assert [NewerLayer, OlderLayer][1..] == [OlderLayer];
    assert [OlderLayer][1..] == [];
    assert Wrap64(150 - 100) == 50;
    assert Wrap64(50 - 50) == 0;
    CostIsProduct(20.0, 100);
    CostIsProduct(10.0, 50);
    assert Consume([OlderLayer], 50) == 500.0;
    assert Consume([NewerLayer, OlderLayer], 150) == 2000.0 + Consume([OlderLayer], 50);
  }

  // ---------------------------------------------------------------------
  // Weighted average and standard cost
  // ---------------------------------------------------------------------

  /** An inbound entry with a positive unit cost, at any location. */
  predicate IsCostedInbound(e: Transaction) {
    e.kind == Inbound && e.unitCost.Some? && e.unitCost.value > 0.0
  }

  /** The entries the average is taken over: the item's costed inbound
      entries among its 1,000 newest, at every location. */
  function AverageEntries(db: Db, item: string): (r: seq<Transaction>)
    ensures forall e :: e in r ==> e in db.journal && e.itemId == item && IsCostedInbound(e)
    ensures forall e :: e in r <==> e in GetTransactionHistory(db, item, AverageHistoryLimit).value && IsCostedInbound(e)
    ensures |db.journal| <= AverageHistoryLimit ==>
              forall e :: e in db.journal && e.itemId == item && IsCostedInbound(e) ==> e in r
  {
    Filter(GetTransactionHistory(db, item, AverageHistoryLimit).value, IsCostedInbound)
  }

  function CostSum(es: seq<Transaction>): real
    requires forall e :: e in es ==> e.unitCost.Some?
  {
    if es == [] then 0.0 else Cost(es[0].unitCost.value, es[0].quantity) + CostSum(es[1..])
  }

  function QuantitySumOf(es: seq<Transaction>): int {
    if es == [] then 0 else es[0].quantity + QuantitySumOf(es[1..])
  }

  /** The int64 running total of quantities, wrapping as Go's += does. */
  function RunningQuantity(es: seq<Transaction>, acc: Int64): Int64 {
    if es == [] then acc else RunningQuantity(es[1..], Wrap64(acc + es[0].quantity))
  }

  /** Positive quantities have a non-negative total, positive when there is
      at least one. */
  lemma {:induction false} QuantitySumPositive(es: seq<Transaction>)
    requires forall e :: e in es ==> e.quantity > 0
    ensures QuantitySumOf(es) >= 0
    ensures es != [] ==> QuantitySumOf(es) > 0
  {
    if es != [] {
      assert forall e :: e in es[1..] ==> e in es;
      QuantitySumPositive(es[1..]);
      assert es[0] in es;
    }
  }

  /** With positive quantities whose total fits int64, the running total
      does not wrap. */
  lemma {:induction false} RunningQuantityExact(es: seq<Transaction>, acc: Int64)
    requires acc >= 0 && forall e :: e in es ==> e.quantity > 0
    requires InInt64(acc + QuantitySumOf(es))
    ensures RunningQuantity(es, acc) == acc + QuantitySumOf(es)
  {
    if es != [] {
      assert forall e :: e in es[1..] ==> e in es;
      QuantitySumPositive(es[1..]);
      assert es[0] in es;
      assert Wrap64(acc + es[0].quantity) == acc + es[0].quantity;
      RunningQuantityExact(es[1..], acc + es[0].quantity);
    }
  }

  /** A total spread over a non-zero count and multiplied back by it is
      the total again. */
  lemma SpreadCost(t: real, q: int)
    requires q != 0
    ensures Cost(t / q as real, q) == t
  {
    CostIsProduct(t / q as real, q);
  }

  /** The weighted average cost of an item over its costed inbound entries
      at every location; no such quantity is NoAverageData. */
  function GetAverageCost(db: Db, item: string): (r: Result<real, Error>)
    ensures var es := AverageEntries(db, item);
            r.Err? <==> RunningQuantity(es, 0) == 0
    ensures r.Err? ==> r.error == Formatted(NoAverageData)
  {
    var es := AverageEntries(db, item);
    var q := RunningQuantity(es, 0);
    if q == 0 then Err(Formatted(NoAverageData)) else Ok(CostSum(es) / q as real)
  }

  /** The average is the cost total spread over the quantity total: the
      average times the quantity gives back the cost total. */
  lemma AverageTimesQuantity(db: Db, item: string)
    requires GetAverageCost(db, item).Ok?
    ensures var es := AverageEntries(db, item);
            Cost(GetAverageCost(db, item).value, RunningQuantity(es, 0)) == CostSum(es)
  {
    var es := AverageEntries(db, item);
    var t := CostSum(es);
    var q := RunningQuantity(es, 0);
    assert GetAverageCost(db, item).value == t / q as real;
    SpreadCost(t, q);
  }

  /** The cost total lies between the cheapest and the dearest cost times
      the quantity total. */
  lemma {:induction false} CostSumBounds(es: seq<Transaction>, lo: real, hi: real)
    requires forall e :: e in es ==> e.quantity > 0 && e.unitCost.Some? && lo <= e.unitCost.value <= hi
    ensures Cost(lo, QuantitySumOf(es)) <= CostSum(es) <= Cost(hi, QuantitySumOf(es))
  {
    if es != [] {
      var rest := es[1..];
      assert forall e :: e in rest ==> e in es;
      assert es[0] in es;
      CostSumBounds(rest, lo, hi);
      var c := es[0].unitCost.value;
      var q0 := es[0].quantity;
      var n := QuantitySumOf(rest);
      assert CostSum(es) == Cost(c, q0) + CostSum(rest);
      assert QuantitySumOf(es) == q0 + n;
      StepBounds(lo, c, hi, q0, n, QuantitySumOf(es), CostSum(rest), CostSum(es));
    }
  }

  /** A total between `q` units at `lo` and at `hi` spreads to a unit cost
      between the two. */
  lemma SpreadWithin(t: real, q: int, lo: real, hi: real)
    requires q > 0 && Cost(lo, q) <= t <= Cost(hi, q)
    ensures lo <= t / q as real <= hi
  {
    SpreadCost(t, q);
    CostCancel(lo, t / q as real, q);
    CostCancel(t / q as real, hi, q);
  }

  /** When the inbound quantities are positive and their total fits int64,
      the average lies between the cheapest and the dearest inbound cost. */
  lemma AverageWithinCosts(db: Db, item: string, lo: real, hi: real)
    requires var es := AverageEntries(db, item);
             && es != []
             && (forall e :: e in es ==> e.quantity > 0 && lo <= e.unitCost.value <= hi)
             && InInt64(QuantitySumOf(es))
    ensures GetAverageCost(db, item).Ok?
    ensures lo <= GetAverageCost(db, item).value <= hi
  {
    var es := AverageEntries(db, item);
    QuantitySumPositive(es);
    RunningQuantityExact(es, 0);
    CostSumBounds(es, lo, hi);
    var q := RunningQuantity(es, 0);
    assert GetAverageCost(db, item) == Ok(CostSum(es) / q as real);
    SpreadWithin(CostSum(es), q, lo, hi);
  }


  /** The standard cost times the quantity; an item without a positive
      standard cost is NoStandardCost. */
  function CalculateStandard(db: Db, item: string, quantity: Int64): (r: Result<real, Error>)
    ensures item !in db.items ==> r == Err(Storage("get_item", ItemNotFound))
    ensures item in db.items && db.items[item].unitCost <= 0.0 ==> r == Err(Formatted(NoStandardCost))
    ensures r.Ok? <==> item in db.items && db.items[item].unitCost > 0.0
    ensures r.Ok? ==> r.value == Cost(db.items[item].unitCost, quantity)
  {
    match GetItem(db, item)
    case Err(e) => Err(Storage("get_item", e))
    case Ok(it) =>
      if it.unitCost <= 0.0 then Err(Formatted(NoStandardCost))
      else Ok(Cost(it.unitCost, quantity))
  }

  // ---------------------------------------------------------------------
  // Entry points
  // ---------------------------------------------------------------------

  /** The value of the stock of `item` at `loc` by `method`. A missing record
      is a storage error; no stock on hand is worth 0 whatever the method; an
      unknown method is UnknownMethod. */
  function CalculateValue(db: Db, item: string, loc: string, how: string): (r: Result<real, Error>)
    ensures Key(item, loc) !in db.stocks ==> r == Err(Storage("get_stock", StockNotFound))
    ensures Key(item, loc) in db.stocks && db.stocks[Key(item, loc)].quantity <= 0 ==> r == Ok(0.0)
    ensures Key(item, loc) in db.stocks && db.stocks[Key(item, loc)].quantity > 0 ==>
              var q := db.stocks[Key(item, loc)].quantity;
              && (how == FifoMethod ==> r == Ok(CalculateFifo(db, item, loc, q)))
              && (how == LifoMethod ==> r == Ok(CalculateLifo(db, item, loc, q)))
              && (how == AverageMethod && GetAverageCost(db, item).Err? ==> r == Err(Formatted(NoAverageData)))
              && (how == AverageMethod && GetAverageCost(db, item).Ok? ==>
                    r == Ok(Cost(GetAverageCost(db, item).value, q)))
              && (how == StandardMethod ==> r == CalculateStandard(db, item, q))
              && (how !in {FifoMethod, LifoMethod, AverageMethod, StandardMethod} ==> r == Err(Formatted(UnknownMethod)))
  {
    match GetStock(db, item, loc)
    case Err(e) => Err(Storage("get_stock", e))
    case Ok(s) =>
      if s.quantity <= 0 then Ok(0.0)
      else if how == FifoMethod then Ok(CalculateFifo(db, item, loc, s.quantity))
      else if how == LifoMethod then Ok(CalculateLifo(db, item, loc, s.quantity))
      else if how == AverageMethod then
        var avg := GetAverageCost(db, item);
        if avg.Err? then Err(avg.error) else Ok(Cost(avg.value, s.quantity))
      else if how == StandardMethod then CalculateStandard(db, item, s.quantity)
      else Err(Formatted(UnknownMethod))
  }

  /** The total over a location, as the engine sums it: records with stock
      on hand are valued, and a record whose valuation fails is skipped. */
  function TotalValue(db: Db, loc: string, how: string, stocks: seq<Stock>): real
    decreases |stocks|
  {
    if stocks == [] then 0.0
    else
      var v := CalculateValue(db, stocks[0].itemId, loc, how);
      (if stocks[0].quantity > 0 && v.Ok? then v.value else 0.0) + TotalValue(db, loc, how, stocks[1..])
  }

  /** The total value of a location: the loop the engine runs over the
      location's records. */
  method CalculateTotalValue(db: Db, loc: string, how: string) returns (total: real)
    ensures total == TotalValue(db, loc, how, ListStockByLocation(db, loc))
  {
    var stocks := ListStockByLocation(db, loc);
    total := 0.0;
    var i := 0;
    while i < |stocks|
      invariant 0 <= i <= |stocks|
      invariant total + TotalValue(db, loc, how, stocks[i..]) == TotalValue(db, loc, how, stocks)
    {
      assert stocks[i..][1..] == stocks[i + 1..];
      if stocks[i].quantity > 0 {
        var v := CalculateValue(db, stocks[i].itemId, loc, how);
        if v.Ok? {
          total := total + v.value;
        }
      }
      i := i + 1;
    }
  }

  /** Errors are skipped silently: under an unknown method every record
      with stock fails, and the total is 0 rather than an error. */
  lemma {:induction false} UnknownMethodTotalsZero(db: Db, loc: string, how: string, stocks: seq<Stock>)
    requires how !in {FifoMethod, LifoMethod, AverageMethod, StandardMethod}
    ensures TotalValue(db, loc, how, stocks) == 0.0
    decreases |stocks|
  {
    if stocks != [] {
      UnknownMethodTotalsZero(db, loc, how, stocks[1..]);
    }
  }
}
