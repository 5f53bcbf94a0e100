/** An in-memory model of the storage contract the PostgreSQL back end
    implements: the stock table with a compare-and-swap update on `version`,
    the append-only journal with its three history queries, alerts, and lots.
    Rows keep their insertion order, so "newest first" is "last appended
    first". */
module Store {
  import opened Wrappers
  import opened Types
  import opened Seqs

  datatype Db = Db(
    items: map<string, Item>,
    locations: map<string, Location>,
    stocks: map<Key, Stock>,
    /** The keys of the stock table in the order the rows were created. */
    rows: seq<Key>,
    journal: seq<Transaction>,
    alerts: seq<StockAlert>,
    lots: seq<Lot>)

  /** The stock table is consistent: `rows` lists every key once, and every
      record is stored under its own primary key. */
  predicate Wf(db: Db) {
    && (forall i, j :: 0 <= i < j < |db.rows| ==> db.rows[i] != db.rows[j])
    && (forall k :: k in db.rows ==> k in db.stocks)
    && (forall k :: k in db.stocks ==> k in db.rows)
    && (forall k :: k in db.stocks ==> db.stocks[k].PrimaryKey() == k)
  }

  /** `b` differs from `a` at most in the stock record under `k`. */
  predicate SameExceptStock(a: Db, b: Db, k: Key) {
    && a.items == b.items
    && a.locations == b.locations
    && a.journal == b.journal
    && a.alerts == b.alerts
    && a.lots == b.lots
    && (forall k' :: k' in a.stocks && k' != k ==> k' in b.stocks)
    && (forall k' :: k' in b.stocks && k' != k ==> k' in a.stocks)
    && (forall k' :: k' != k && k' in a.stocks ==> a.stocks[k'] == b.stocks[k'])
  }

  // ---------------------------------------------------------------------
  // Catalog lookups
  // ---------------------------------------------------------------------

  function GetItem(db: Db, id: string): (r: Result<Item, Error>)
    ensures r.Ok? <==> id in db.items
    ensures r.Ok? ==> r.value == db.items[id]
    ensures r.Err? ==> r.error == ItemNotFound
  {
    if id in db.items then Ok(db.items[id]) else Err(ItemNotFound)
  }

  function GetLocation(db: Db, id: string): (r: Result<Location, Error>)
    ensures r.Ok? <==> id in db.locations
    ensures r.Ok? ==> r.value == db.locations[id]
    ensures r.Err? ==> r.error == LocationNotFound
  {
    if id in db.locations then Ok(db.locations[id]) else Err(LocationNotFound)
  }

  // ---------------------------------------------------------------------
  // Stock table
  // ---------------------------------------------------------------------

  /** Reads the record of `item` at `loc`; a missing row is StockNotFound. */
  function GetStock(db: Db, item: string, loc: string): (r: Result<Stock, Error>)
    ensures r.Ok? <==> Key(item, loc) in db.stocks
    ensures r.Err? ==> r.error == StockNotFound
    ensures Wf(db) && r.Ok? ==> r.value.itemId == item && r.value.locationId == loc
  {
    if Key(item, loc) in db.stocks then Ok(db.stocks[Key(item, loc)]) else Err(StockNotFound)
  }

  /** Inserts a new record. An insert the database rejects is `WriteFailed`;
      a duplicate primary key is `StockExists`. Nothing else is touched. */
  function CreateStock(db: Db, s: Stock, fails: bool): (r: Result<Db, Error>)
    ensures r.Ok? <==> !fails && s.PrimaryKey() !in db.stocks
    ensures !fails && s.PrimaryKey() in db.stocks ==> r == Err(StockExists)
    ensures r.Ok? ==> GetStock(r.value, s.itemId, s.locationId) == Ok(s)
    ensures r.Ok? ==> SameExceptStock(db, r.value, s.PrimaryKey())
    ensures r.Ok? ==> r.value.rows == db.rows + [s.PrimaryKey()]
    ensures r.Ok? && Wf(db) ==> Wf(r.value)
  {
    if fails then Err(WriteFailed)
    else if s.PrimaryKey() in db.stocks then Err(StockExists)
    else Ok(db.(stocks := db.stocks[s.PrimaryKey() := s], rows := db.rows + [s.PrimaryKey()]))
  }

  /** Overwrites the record under `s`'s key, but only if the stored version
      is the one `s` was derived from (`s.version - 1` in int64 arithmetic);
      a missing row also matches no version. */
  function UpdateStock(db: Db, s: Stock, fails: bool): (r: Result<Db, Error>)
    ensures r.Ok? <==> !fails && s.PrimaryKey() in db.stocks
                       && db.stocks[s.PrimaryKey()].version == Wrap64(s.version - 1)
    ensures !fails && r.Err? ==> r.error == VersionMismatch
    ensures r.Ok? ==> GetStock(r.value, s.itemId, s.locationId) == Ok(s)
    ensures r.Ok? ==> SameExceptStock(db, r.value, s.PrimaryKey())
    ensures r.Ok? ==> r.value.rows == db.rows
    ensures r.Ok? && Wf(db) ==> Wf(r.value)
  {
    if fails then Err(WriteFailed)
    else if s.PrimaryKey() !in db.stocks || db.stocks[s.PrimaryKey()].version != Wrap64(s.version - 1) then
      Err(VersionMismatch)
    else Ok(db.(stocks := db.stocks[s.PrimaryKey() := s]))
  }

  /** Sum of the quantities of `item`'s records among `rows`. */
  function QuantitySum(rows: seq<Key>, stocks: map<Key, Stock>, item: string): int {
    if rows == [] then 0
    else (if rows[0].itemId == item && rows[0] in stocks then stocks[rows[0]].quantity else 0)
         + QuantitySum(rows[1..], stocks, item)
  }

  /** The total on-hand quantity of an item over all locations. A sum that
      does not fit the int64 result column is an error. */
  function GetTotalStockByItem(db: Db, item: string): (r: Result<Int64, Error>)
    ensures r.Ok? <==> InInt64(QuantitySum(db.rows, db.stocks, item))
    ensures r.Ok? ==> r.value == QuantitySum(db.rows, db.stocks, item)
  {
    var total := QuantitySum(db.rows, db.stocks, item);
    if InInt64(total) then Ok(total) else Err(SumOutOfRange)
  }

  /** An item without stock records has a total of 0. */
  lemma {:induction false} QuantitySumNoRecords(rows: seq<Key>, stocks: map<Key, Stock>, item: string)
    requires forall k :: k in stocks ==> k.itemId != item
    ensures QuantitySum(rows, stocks, item) == 0
  {
    if rows != [] {
      QuantitySumNoRecords(rows[1..], stocks, item);
    }
  }

  lemma TotalStockNoRecords(db: Db, item: string)
    requires forall k :: k in db.stocks ==> k.itemId != item
    ensures GetTotalStockByItem(db, item) == Ok(0)
  {
    QuantitySumNoRecords(db.rows, db.stocks, item);
  }

  /** Records whose key is not listed do not contribute. */
  lemma {:induction false} QuantitySumOverride(rows: seq<Key>, stocks: map<Key, Stock>, k: Key, s: Stock, item: string)
    requires k !in rows
    ensures QuantitySum(rows, stocks[k := s], item) == QuantitySum(rows, stocks, item)
  {
    if rows != [] {
      QuantitySumOverride(rows[1..], stocks, k, s, item);
    }
  }

  /** Appending a key adds its record's quantity. */
  lemma {:induction false} QuantitySumAppend(rows: seq<Key>, stocks: map<Key, Stock>, k: Key, item: string)
    ensures QuantitySum(rows + [k], stocks, item)
            == QuantitySum(rows, stocks, item) + (if k.itemId == item && k in stocks then stocks[k].quantity else 0)
  {
    if rows == [] {
      assert rows + [k] == [k];
      assert [k][1..] == [];
    } else {
      assert (rows + [k])[1..] == rows[1..] + [k];
      QuantitySumAppend(rows[1..], stocks, k, item);
    }
  }

  /** Replacing the record of a key listed once changes the total by the
      quantity difference, for that key's item only. */
  lemma {:induction false} QuantitySumUpdate(rows: seq<Key>, stocks: map<Key, Stock>, k: Key, s: Stock, item: string)
    requires forall i, j :: 0 <= i < j < |rows| ==> rows[i] != rows[j]
    requires k in rows && k in stocks
    ensures QuantitySum(rows, stocks[k := s], item)
            == QuantitySum(rows, stocks, item) + (if k.itemId == item then s.quantity - stocks[k].quantity else 0)
  {
    if rows[0] == k {
      assert k !in rows[1..] by {
        forall i | 0 <= i < |rows[1..]| ensures rows[1..][i] != k {
          assert rows[1..][i] == rows[i + 1];
        }
      }
      QuantitySumOverride(rows[1..], stocks, k, s, item);
    } else {
      QuantitySumUpdate(rows[1..], stocks, k, s, item);
    }
  }

  /** Creating a record adds its quantity to its item's total. */
  lemma TotalAfterCreate(db: Db, s: Stock, item: string)
    requires Wf(db)
    requires CreateStock(db, s, false).Ok?
    ensures QuantitySum(CreateStock(db, s, false).value.rows, CreateStock(db, s, false).value.stocks, item)
            == QuantitySum(db.rows, db.stocks, item) + (if s.itemId == item then s.quantity else 0)
  {
    var k := s.PrimaryKey();
    QuantitySumOverride(db.rows, db.stocks, k, s, item);
    QuantitySumAppend(db.rows, db.stocks[k := s], k, item);
  }

  /** Updating a record changes its item's total by the quantity difference. */
  lemma TotalAfterUpdate(db: Db, s: Stock, item: string)
    requires Wf(db)
    requires UpdateStock(db, s, false).Ok?
    ensures QuantitySum(UpdateStock(db, s, false).value.rows, UpdateStock(db, s, false).value.stocks, item)
            == QuantitySum(db.rows, db.stocks, item)
               + (if s.itemId == item then s.quantity - db.stocks[s.PrimaryKey()].quantity else 0)
  {
    QuantitySumUpdate(db.rows, db.stocks, s.PrimaryKey(), s, item);
  }

  /** The records among `rows` stored at `loc`, in row order. */
  function StocksAt(rows: seq<Key>, stocks: map<Key, Stock>, loc: string): (r: seq<Stock>)
    ensures forall s :: s in r ==> exists k :: k in rows && k in stocks && k.locationId == loc && stocks[k] == s
    ensures forall k :: k in rows && k in stocks && k.locationId == loc ==> stocks[k] in r
  {
    if rows == [] then []
    else (if rows[0] in stocks && rows[0].locationId == loc then [stocks[rows[0]]] else [])
         + StocksAt(rows[1..], stocks, loc)
  }

  /** No item appears twice. */
  predicate DistinctItems(r: seq<Stock>) {
    forall i, j :: 0 <= i < j < |r| ==> r[i].itemId != r[j].itemId
  }

  /** Every record stored at a location. */
  function ListStockByLocation(db: Db, loc: string): (r: seq<Stock>)
    ensures Wf(db) ==> forall s :: s in r <==> s in db.stocks.Values && s.locationId == loc
    ensures Wf(db) ==> DistinctItems(r)
  {
    var r := StocksAt(db.rows, db.stocks, loc);
    if Wf(db) then
      StocksAtDistinct(db.rows, db.stocks, loc);
      ListStockMembers(db, loc);
      r
    else r
  }

  lemma ListStockMembers(db: Db, loc: string)
    requires Wf(db)
    ensures forall s :: s in StocksAt(db.rows, db.stocks, loc) <==> s in db.stocks.Values && s.locationId == loc
  {
    var r := StocksAt(db.rows, db.stocks, loc);
    forall s | s in db.stocks.Values && s.locationId == loc
      ensures s in r
    {
      var k :| k in db.stocks && db.stocks[k] == s;
      assert k.locationId == loc;
    }
    forall s | s in r
      ensures s in db.stocks.Values && s.locationId == loc
    {
      var k :| k in db.rows && k in db.stocks && k.locationId == loc && db.stocks[k] == s;
      assert db.stocks[k].PrimaryKey() == k;
    }
  }

  /** Records of one location listed from distinct keys have distinct items. */
  lemma {:induction false} StocksAtDistinct(rows: seq<Key>, stocks: map<Key, Stock>, loc: string)
    requires forall i, j :: 0 <= i < j < |rows| ==> rows[i] != rows[j]
    requires forall k :: k in stocks ==> stocks[k].PrimaryKey() == k
    ensures DistinctItems(StocksAt(rows, stocks, loc))
  {
    if rows != [] {
      var tail := rows[1..];
      assert forall i, j :: 0 <= i < j < |tail| ==> tail[i] != tail[j] by {
        forall i, j | 0 <= i < j < |tail| ensures tail[i] != tail[j] {
          assert tail[i] == rows[i + 1] && tail[j] == rows[j + 1];
        }
      }
      StocksAtDistinct(tail, stocks, loc);
      var rest := StocksAt(tail, stocks, loc);
      if rows[0] in stocks && rows[0].locationId == loc {
        HeadItemFresh(rows, stocks, loc);
        var r := [stocks[rows[0]]] + rest;
        assert StocksAt(rows, stocks, loc) == r;
        forall i, j | 0 <= i < j < |r|
          ensures r[i].itemId != r[j].itemId
        {
          if i == 0 {
            assert r[j] == rest[j - 1];
          } else {
            assert r[i] == rest[i - 1] && r[j] == rest[j - 1];
          }
        }
      } else {
        assert StocksAt(rows, stocks, loc) == rest;
      }
    }
  }

  /** The first row's item does not reappear among the later rows' records
      at the same location. */
  lemma HeadItemFresh(rows: seq<Key>, stocks: map<Key, Stock>, loc: string)
    requires rows != [] && rows[0].locationId == loc
    requires forall i, j :: 0 <= i < j < |rows| ==> rows[i] != rows[j]
    requires forall k :: k in stocks ==> stocks[k].PrimaryKey() == k
    ensures forall s :: s in StocksAt(rows[1..], stocks, loc) ==> s.itemId != rows[0].itemId
  {
    var tail := rows[1..];
    forall s | s in StocksAt(tail, stocks, loc)
      ensures s.itemId != rows[0].itemId
    {
      var k :| k in tail && k in stocks && k.locationId == loc && stocks[k] == s;
      var m :| 0 <= m < |tail| && tail[m] == k;
      assert rows[m + 1] == k;
      assert stocks[k].PrimaryKey() == k;
    }
  }

  // ---------------------------------------------------------------------
  // Journal
  // ---------------------------------------------------------------------

  /** Appends one entry; the journal has no update or delete. */
  function CreateTransaction(db: Db, tx: Transaction, fails: bool): (r: Result<Db, Error>)
    ensures r.Ok? <==> !fails
    ensures r.Ok? ==> r.value.journal == db.journal + [tx]
    ensures r.Ok? ==> r.value.(journal := db.journal) == db
  {
    if fails then Err(WriteFailed) else Ok(db.(journal := db.journal + [tx]))
  }

  function CreatedAt(e: Transaction): real {
    e.createdAt as real
  }

  /** Entries were appended in timestamp order (the clock never went back). */
  predicate Chronological(journal: seq<Transaction>) {
    Ascending(journal, CreatedAt)
  }

  /** Newest first: the reverse of append order. */
  function NewestFirst<T(!new)>(s: seq<T>): (r: seq<T>)
    ensures multiset(r) == multiset(s)
    ensures forall x :: x in r <==> x in s
    ensures |r| == |s|
    ensures |s| > 0 ==> r[0] == s[|s| - 1]
  {
    var r := Reverse(s);
    ReverseMultiset(s);
    assert forall x :: x in r <==> x in multiset(r);
    r
  }

  lemma {:induction false} ReverseMultiset<T>(s: seq<T>)
    ensures multiset(Reverse(s)) == multiset(s)
  {
    if s != [] {
      ReverseMultiset(s[1..]);
      assert s == [s[0]] + s[1..];
    }
  }

  /** SQL `LIMIT n`: a negative limit is rejected by the database. */
  function Limit<T(!new)>(s: seq<T>, limit: int): (r: Result<seq<T>, Error>)
    ensures r.Ok? <==> limit >= 0
    ensures r.Err? ==> r.error == NegativeLimit
    ensures r.Ok? ==> |r.value| == (if limit < |s| then limit else |s|)
    ensures r.Ok? ==> forall i :: 0 <= i < |r.value| ==> r.value[i] == s[i]
    ensures r.Ok? ==> forall x :: x in r.value ==> x in s
    ensures limit >= |s| ==> r == Ok(s)
  {
    if limit < 0 then Err(NegativeLimit) else Ok(Take(s, limit))
  }

  /** The `limit` last-appended elements of `s`, last appended first: the
      shape of `ORDER BY created_at DESC LIMIT` over a journal kept in
      append order. The `i`-th result is the `i`-th newest element. */
  function Latest<T(!new)>(s: seq<T>, limit: int): (r: Result<seq<T>, Error>)
    ensures r.Ok? <==> limit >= 0
    ensures r.Err? ==> r.error == NegativeLimit
    ensures r.Ok? ==> NewestOf(r.value, s, limit)
    ensures r.Ok? ==> forall x :: x in r.value ==> x in s
    ensures limit >= |s| ==> r.Ok? && forall x :: x in r.value <==> x in s
  {
    Limit(NewestFirst(s), limit)
  }

  /** `r` lists the last `limit` elements of `s` (all of them if there are
      fewer), last first: its `i`-th element is the `i`-th newest of `s`. */
  ghost predicate NewestOf<T>(r: seq<T>, s: seq<T>, limit: int) {
    && |r| == (if limit < |s| then limit else |s|)
    && forall i :: 0 <= i < |r| ==> r[i] == s[|s| - 1 - i]
  }

  /** What the limit cuts off is never newer than what it keeps: over a
      sequence ascending by `key`, an element left out has a key no larger
      than any element returned. */
  lemma LatestKeepsNewest<T(!new)>(s: seq<T>, limit: nat, key: T -> real)
    requires Ascending(s, key)
    ensures var r := Latest(s, limit).value;
            forall e, x :: e in s && e !in r && x in r ==> key(e) <= key(x)
  {
    var r := Latest(s, limit).value;
    var n := |r|;
    forall k | |s| - n <= k < |s| ensures s[k] in r {
      assert r[|s| - 1 - k] == s[k];
    }
    forall e, x | e in s && e !in r && x in r
      ensures key(e) <= key(x)
    {
      var j :| 0 <= j < |s| && s[j] == e;
      var i :| 0 <= i < n && r[i] == x;
      assert x == s[|s| - 1 - i];
    }
  }

  /** A journal query with WHERE clause `p`, newest first, at most `limit`
      rows. */
  function Query(journal: seq<Transaction>, p: Transaction -> bool, limit: int): (r: Result<seq<Transaction>, Error>)
    ensures r.Ok? <==> limit >= 0
    ensures r.Ok? ==> forall e :: e in r.value ==> e in journal && p(e)
    ensures r.Ok? ==> NewestOf(r.value, Filter(journal, p), limit)
    ensures limit >= |journal| ==> r.Ok? && forall e :: e in r.value <==> e in journal && p(e)
  {
    Latest(Filter(journal, p), limit)
  }

  /** The WHERE clause of the item history query. */
  function OfItem(item: string): Transaction -> bool {
    (e: Transaction) => e.itemId == item
  }

  /** The WHERE clause of the location history query. */
  function Touches(loc: string): Transaction -> bool {
    (e: Transaction) => e.from == Some(loc) || e.to == Some(loc)
  }

  /** An item's entries, newest first, at most `limit` of them: the `i`-th
      result is the item's `i`-th newest entry. */
  function GetTransactionHistory(db: Db, item: string, limit: int): (r: Result<seq<Transaction>, Error>)
    ensures r.Ok? <==> limit >= 0
    ensures r.Ok? ==> forall e :: e in r.value ==> e in db.journal && e.itemId == item
    ensures r.Ok? ==> |r.value| <= limit
    ensures r.Ok? ==> NewestOf(r.value, Filter(db.journal, OfItem(item)), limit)
    ensures limit >= |db.journal| ==> r.Ok? && forall e :: e in r.value <==> e in db.journal && e.itemId == item
  {
    Query(db.journal, OfItem(item), limit)
  }

  /** Entries leaving or entering a location, newest first, at most
      `limit`: the `i`-th result is the location's `i`-th newest entry. */
  function GetTransactionHistoryByLocation(db: Db, loc: string, limit: int): (r: Result<seq<Transaction>, Error>)
    ensures r.Ok? <==> limit >= 0
    ensures r.Ok? ==> forall e :: e in r.value ==> e in db.journal && (e.from == Some(loc) || e.to == Some(loc))
    ensures r.Ok? ==> |r.value| <= limit
    ensures r.Ok? ==> NewestOf(r.value, Filter(db.journal, Touches(loc)), limit)
    ensures limit >= |db.journal| ==>
              r.Ok? && forall e :: e in r.value <==> e in db.journal && (e.from == Some(loc) || e.to == Some(loc))
  {
    Query(db.journal, Touches(loc), limit)
  }

  /** Under a monotone clock, a limited history query drops only entries no
      newer than every entry it returns. */
  lemma HistoryKeepsNewest(db: Db, item: string, loc: string, limit: nat)
    requires Chronological(db.journal)
    ensures var r := GetTransactionHistory(db, item, limit).value;
            forall e, x :: e in db.journal && e.itemId == item && e !in r && x in r ==> e.createdAt <= x.createdAt
    ensures var r := GetTransactionHistoryByLocation(db, loc, limit).value;
            forall e, x :: e in db.journal && (e.from == Some(loc) || e.to == Some(loc)) && e !in r && x in r ==>
              e.createdAt <= x.createdAt
  {
    FilterAscending(db.journal, OfItem(item), CreatedAt);
    LatestKeepsNewest(Filter(db.journal, OfItem(item)), limit, CreatedAt);
    FilterAscending(db.journal, Touches(loc), CreatedAt);
    LatestKeepsNewest(Filter(db.journal, Touches(loc)), limit, CreatedAt);
  }

  /** An item's entries with `from <= createdAt <= to`, newest first, all of
      them. */
  function GetTransactionHistoryByDateRange(db: Db, item: string, from: Time, to: Time): (r: seq<Transaction>)
    ensures forall e :: e in r <==> e in db.journal && e.itemId == item && from <= e.createdAt <= to
  {
    NewestFirst(Filter(db.journal, (e: Transaction) => e.itemId == item && from <= e.createdAt <= to))
  }

  /** Under a monotone clock the three history queries really are newest
      first. */
  lemma {:induction false} HistoryNewestFirst(db: Db, item: string, loc: string, limit: nat, from: Time, to: Time)
    requires Chronological(db.journal)
    ensures Descending(GetTransactionHistory(db, item, limit).value, CreatedAt)
    ensures Descending(GetTransactionHistoryByLocation(db, loc, limit).value, CreatedAt)
    ensures Descending(GetTransactionHistoryByDateRange(db, item, from, to), CreatedAt)
  {
    var p1 := OfItem(item);
    var p2 := Touches(loc);
    var p3 := (e: Transaction) => e.itemId == item && from <= e.createdAt <= to;
    FilterAscending(db.journal, p1, CreatedAt);
    ReverseAscending(Filter(db.journal, p1), CreatedAt);
    TakeDescending(Reverse(Filter(db.journal, p1)), limit, CreatedAt);
    FilterAscending(db.journal, p2, CreatedAt);
    ReverseAscending(Filter(db.journal, p2), CreatedAt);
    TakeDescending(Reverse(Filter(db.journal, p2)), limit, CreatedAt);
    FilterAscending(db.journal, p3, CreatedAt);
    ReverseAscending(Filter(db.journal, p3), CreatedAt);
  }

  // ---------------------------------------------------------------------
  // Alerts
  // ---------------------------------------------------------------------

  function CreateAlert(db: Db, a: StockAlert, fails: bool): (r: Result<Db, Error>)
    ensures r.Ok? <==> !fails
    ensures r.Ok? ==> r.value.alerts == db.alerts + [a]
    ensures r.Ok? ==> r.value.(alerts := db.alerts) == db
  {
    if fails then Err(WriteFailed) else Ok(db.(alerts := db.alerts + [a]))
  }

  /** The active alerts of a location, newest first: all of them, the last
      raised first. */
  function GetActiveAlerts(db: Db, loc: string): (r: seq<StockAlert>)
    ensures forall a :: a in r <==> a in db.alerts && a.locationId == loc && a.isActive
    ensures NewestOf(r, Filter(db.alerts, ActiveAt(loc)), |db.alerts|)
  {
    NewestFirst(Filter(db.alerts, ActiveAt(loc)))
  }

  /** The sort key of the alert queries. */
  function AlertCreatedAt(a: StockAlert): real {
    a.createdAt as real
  }

  /** When alerts are raised in time order, the active alerts of a location
      come back ordered by creation time, newest first. */
  lemma ActiveAlertsNewestFirst(db: Db, loc: string)
    requires Ascending(db.alerts, AlertCreatedAt)
    ensures Descending(GetActiveAlerts(db, loc), AlertCreatedAt)
  {
    FilterAscending(db.alerts, ActiveAt(loc), AlertCreatedAt);
    ReverseAscending(Filter(db.alerts, ActiveAt(loc)), AlertCreatedAt);
  }

  /** The WHERE clause of the active-alerts query. */
  function ActiveAt(loc: string): StockAlert -> bool {
    (a: StockAlert) => a.locationId == loc && a.isActive
  }

  predicate HasAlert(alerts: seq<StockAlert>, id: nat) {
    exists i :: 0 <= i < |alerts| && alerts[i].id == id
  }

  /** Marks every alert with the given id inactive and stamps it resolved at
      `now`. An unknown id is an error; an already resolved alert is resolved
      again and its resolution time overwritten. */
  function ResolveAlert(db: Db, id: nat, now: Time): (r: Result<Db, Error>)
    ensures r.Ok? <==> HasAlert(db.alerts, id)
    ensures r.Err? ==> r.error == AlertNotFound
    ensures r.Ok? ==> r.value.(alerts := db.alerts) == db && |r.value.alerts| == |db.alerts|
    ensures r.Ok? ==> forall i :: 0 <= i < |db.alerts| ==>
              r.value.alerts[i] == if db.alerts[i].id == id
                                   then db.alerts[i].(isActive := false, resolvedAt := Some(now))
                                   else db.alerts[i]
  {
    if HasAlert(db.alerts, id) then
      Ok(db.(alerts := seq(|db.alerts|, i requires 0 <= i < |db.alerts| =>
        if db.alerts[i].id == id then db.alerts[i].(isActive := false, resolvedAt := Some(now)) else db.alerts[i])))
    else Err(AlertNotFound)
  }

  /** After resolving, no active alert with that id is reported anywhere, and
      the other active alerts are still reported. */
  lemma ResolvedAlertNotActive(db: Db, id: nat, now: Time, loc: string)
    requires ResolveAlert(db, id, now).Ok?
    ensures forall a :: a in GetActiveAlerts(ResolveAlert(db, id, now).value, loc) ==> a.id != id
    ensures forall a :: a in GetActiveAlerts(db, loc) && a.id != id ==>
              a in GetActiveAlerts(ResolveAlert(db, id, now).value, loc)
  {
    var after := ResolveAlert(db, id, now).value;
    forall a | a in GetActiveAlerts(db, loc) && a.id != id
      ensures a in GetActiveAlerts(after, loc)
    {
      var i :| 0 <= i < |db.alerts| && db.alerts[i] == a;
      assert after.alerts[i] == a;
    }
  }

  // ---------------------------------------------------------------------
  // Lots
  // ---------------------------------------------------------------------

  function CreateLot(db: Db, lot: Lot, fails: bool): (r: Result<Db, Error>)
    ensures r.Ok? <==> !fails
    ensures r.Ok? ==> r.value.lots == db.lots + [lot]
    ensures r.Ok? ==> r.value.(lots := db.lots) == db
  {
    if fails then Err(WriteFailed) else Ok(db.(lots := db.lots + [lot]))
  }

  /** The first lot with the given id. */
  function FindLot(lots: seq<Lot>, id: nat): (r: Option<Lot>)
    ensures r.Some? <==> exists i :: 0 <= i < |lots| && lots[i].id == id
    ensures r.Some? ==> r.value in lots && r.value.id == id
  {
    if lots == [] then None
    else if lots[0].id == id then Some(lots[0])
    else
      var r := FindLot(lots[1..], id);
      assert forall i :: 1 <= i < |lots| ==> lots[i] == lots[1..][i - 1];
      r
  }

  function GetLot(db: Db, id: nat): (r: Result<Lot, Error>)
    ensures r.Ok? <==> exists i :: 0 <= i < |db.lots| && db.lots[i].id == id
    ensures r.Ok? ==> r.value in db.lots && r.value.id == id
    ensures r.Err? ==> r.error == LotNotFound
  {
    match FindLot(db.lots, id)
    case Some(l) => Ok(l)
    case None => Err(LotNotFound)
  }

  /** The WHERE clause of the lots-by-item query. */
  function LotOf(item: string): Lot -> bool {
    (l: Lot) => l.itemId == item
  }

  /** An item's lots, newest first: all of them, the last created first. */
  function GetLotsByItem(db: Db, item: string): (r: seq<Lot>)
    ensures forall l :: l in r <==> l in db.lots && l.itemId == item
    ensures NewestOf(r, Filter(db.lots, LotOf(item)), |db.lots|)
  {
    NewestFirst(Filter(db.lots, LotOf(item)))
  }

  /** The sort key of the lots-by-item query. */
  function LotCreatedAt(l: Lot): real {
    l.createdAt as real
  }

  /** When lots are stored in time order, an item's lots come back ordered
      by creation time, newest first. */
  lemma LotsByItemNewestFirst(db: Db, item: string)
    requires Ascending(db.lots, LotCreatedAt)
    ensures Descending(GetLotsByItem(db, item), LotCreatedAt)
  {
    FilterAscending(db.lots, LotOf(item), LotCreatedAt);
    ReverseAscending(Filter(db.lots, LotOf(item)), LotCreatedAt);
  }

  /** Sort key of a lot with an expiry date. */
  function ExpiryKey(l: Lot): real {
    match l.expiryDate
    case Some(e) => e as real
    case None => 0.0
  }

  /** Lots whose expiry date is at most `now + within`, soonest first. */
  function GetExpiringLots(db: Db, within: Duration, now: Time): (r: seq<Lot>)
    ensures Ascending(r, ExpiryKey)
    ensures forall l :: l in r <==> l in db.lots && l.expiryDate.Some? && l.expiryDate.value <= now + within
  {
    var r := SortBy(Filter(db.lots, (l: Lot) => l.expiryDate.Some? && l.expiryDate.value <= now + within), ExpiryKey);
    assert forall l :: l in r <==> l in multiset(r);
    r
  }

  /** Lots whose expiry date is strictly before `now`, soonest first: exactly
      the lots that are expired at `now`, less those expiring at `now` itself. */
  function GetExpiredLots(db: Db, now: Time): (r: seq<Lot>)
    ensures Ascending(r, ExpiryKey)
    ensures forall l :: l in r <==> l in db.lots && l.expiryDate.Some? && l.expiryDate.value < now
  {
    var r := SortBy(Filter(db.lots, (l: Lot) => l.expiryDate.Some? && l.expiryDate.value < now), ExpiryKey);
    assert forall l :: l in r <==> l in multiset(r);
    r
  }

  /** A lot the expired-lots query reports is expired by the lot rule, and
      an expired lot is reported by the expiring-lots query for any
      non-negative window. */
  lemma ExpiredQueryAgreesWithRule(db: Db, now: Time, within: Duration)
    requires within >= 0
    ensures forall l :: l in GetExpiredLots(db, now) ==> IsExpired(l, now)
    ensures forall l :: l in db.lots && IsExpired(l, now) ==> l in GetExpiringLots(db, within, now)
  {
  }
}
