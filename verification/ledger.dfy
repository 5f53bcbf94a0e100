/** The stock ledger: the inventory manager's mutating operations (add,
    remove, transfer, adjust, reserve, release) and its queries, as pure
    transitions over the store. What the Go code reads from its environment
    (the clock, the acting user, whether a journal, alert or stock write goes
    through) is an explicit `Env`. */
module Ledger {
  import opened Wrappers
  import opened Types
  import opened Store
  import opened Seqs

  /** The manager's policy. */
  datatype Config = Config(
    allowNegativeStock: bool,
    defaultLocation: string,
    auditEnabled: bool,
    lowStockThreshold: Int64,
    alertTimeout: Duration)

  /** The policy used when the manager is created without one. */
  const DefaultConfig: Config := Config(false, "DEFAULT", true, 10, 24 * Hour)

  /** The manager built from an optional policy. */
  function NewManager(cfg: Option<Config>): (c: Config)
    ensures cfg.None? ==> !c.allowNegativeStock && c.lowStockThreshold == 10 && c.defaultLocation == "DEFAULT"
    ensures cfg.Some? ==> c == cfg.value
  {
    cfg.GetOr(DefaultConfig)
  }

  /** What one call observes of the outside world. `failingWrites` lists the
      stock writes the database rejects, as (key, version being installed)
      pairs; `journalUp` and `alertsUp` say whether journal and alert inserts
      go through. */
  datatype Env = Env(
    now: Time,
    user: Option<string>,
    journalUp: bool,
    alertsUp: bool,
    failingWrites: set<(Key, Int64)>)

  /** The user recorded on writes: the caller's id, or "system". */
  function Actor(env: Env): (a: string)
    ensures env.user.None? ==> a == "system"
    ensures env.user.Some? ==> a == env.user.value
  {
    env.user.GetOr("system")
  }

  /** The state after a call and the error it returned, if any. */
  datatype Outcome = Outcome(db: Db, err: Option<Error>)

  // ---------------------------------------------------------------------
  // Vocabulary of the contracts
  // ---------------------------------------------------------------------

  /** The version the next write of `k` installs: 1 for a new row. */
  function NextVersion(db: Db, k: Key): Int64 {
    if k in db.stocks then Wrap64(db.stocks[k].version + 1) else 1
  }

  /** The database rejects the write installing version `v` of `k`. */
  predicate Blocked(env: Env, k: Key, v: Int64) {
    (k, v) in env.failingWrites
  }

  /** The record an operation writes: new counters, derived `available`,
      stamped now by the actor. */
  function Build(k: Key, quantity: Int64, reserved: Int64, version: Int64, env: Env): (s: Stock)
    ensures s.PrimaryKey() == k && AvailableDerived(s)
    ensures s.quantity == quantity && s.reserved == reserved && s.version == version
    ensures s.updatedAt == env.now && s.updatedBy == Actor(env)
  {
    CalculateAvailable(Stock(k.itemId, k.locationId, quantity, reserved, 0, version, env.now, Actor(env)))
  }

  /** The row order after writing `k`: a new key goes last. */
  function RowsAfter(db: Db, k: Key): seq<Key> {
    if k in db.stocks then db.rows else db.rows + [k]
  }

  /** `db` with the record `s` written under its key and nothing else
      changed. */
  function Put(db: Db, s: Stock): Db {
    db.(stocks := db.stocks[s.PrimaryKey() := s], rows := RowsAfter(db, s.PrimaryKey()))
  }

  /** Writing a record keyed by its own fields keeps the table well formed. */
  lemma PutKeepsWf(db: Db, s: Stock)
    requires Wf(db)
    ensures Wf(Put(db, s))
  {
    var k := s.PrimaryKey();
    var d := Put(db, s);
    if k !in db.stocks {
      assert k !in db.rows;
      forall i, j | 0 <= i < j < |d.rows| ensures d.rows[i] != d.rows[j] {
        if j == |db.rows| {
          assert d.rows[i] == db.rows[i] && d.rows[j] == k;
        } else {
          assert d.rows[i] == db.rows[i] && d.rows[j] == db.rows[j];
        }
      }
    }
  }

  /** The error of a stock write the database rejects. */
  function WriteError(db: Db, k: Key): Error {
    Storage(if k in db.stocks then "update_stock" else "create_stock", WriteFailed)
  }

  /** The record under `k` is the one a write at `env` with these counters
      produces, with `available` derived. */
  predicate Installed(db: Db, k: Key, quantity: Int64, reserved: Int64, version: Int64, env: Env) {
    k in db.stocks && db.stocks[k] == Build(k, quantity, reserved, version, env)
  }

  /** `b` keeps the catalog and the lots of `a`, and every stock record other
      than the ones under `ks`. */
  predicate Frame(a: Db, b: Db, ks: set<Key>) {
    && a.items == b.items
    && a.locations == b.locations
    && a.lots == b.lots
    && a.stocks - ks == b.stocks - ks
  }

  /** A journal entry as the manager writes it: no unit cost, lot, expiry or
      metadata; stamped now by the actor; its id is its journal position. */
  function Entry(id: nat, env: Env, kind: string, item: string, from: Option<string>, to: Option<string>,
                 qty: Int64, reference: string): (e: Transaction)
    ensures e.id == id && e.kind == kind && e.itemId == item && e.from == from && e.to == to
    ensures e.quantity == qty && e.reference == reference && e.unitCost.None? && e.lotNumber.None?
  {
    Transaction(id, kind, item, from, to, qty, None, reference, None, None, None, env.now, Actor(env))
  }

  /** The entries that reach the journal: all of them, or none when journal
      writes fail. */
  function Logged(env: Env, entries: seq<Transaction>): seq<Transaction> {
    if env.journalUp then entries else []
  }

  /** The low-stock alert the manager raises for a record at `qty`. */
  function LowStock(id: nat, cfg: Config, env: Env, item: string, loc: string, qty: Int64): (a: StockAlert)
    ensures a.kind == LowStockAlert && a.isActive && a.resolvedAt.None?
    ensures a.currentQty == qty && a.threshold == cfg.lowStockThreshold
    ensures a.itemId == item && a.locationId == loc
  {
    StockAlert(id, LowStockAlert, item, loc, qty, cfg.lowStockThreshold,
               LowStockText(item, loc, qty, cfg.lowStockThreshold), true, env.now, None)
  }

  /** The alerts that reach the alert table after an issue leaves `left`:
      one low-stock alert at or below the threshold, none when alert writes
      fail. */
  function Raised(db: Db, cfg: Config, env: Env, item: string, loc: string, left: Int64): seq<StockAlert> {
    if left <= cfg.lowStockThreshold && env.alertsUp then [LowStock(|db.alerts|, cfg, env, item, loc, left)] else []
  }

  // ---------------------------------------------------------------------
  // Helpers of the manager
  // ---------------------------------------------------------------------

  /** Item first, then location. */
  function ValidateItemAndLocation(db: Db, item: string, loc: string): (r: Option<Error>)
    ensures r.None? <==> item in db.items && loc in db.locations
    ensures item !in db.items ==> r == Some(ItemNotFound)
    ensures item in db.items && loc !in db.locations ==> r == Some(LocationNotFound)
  {
    if GetItem(db, item).Err? then Some(ItemNotFound)
    else if GetLocation(db, loc).Err? then Some(LocationNotFound)
    else None
  }

  /** Appends an entry; a failing journal write is swallowed. */
  function Record(db: Db, env: Env, tx: Transaction): (r: Db)
    ensures r == db.(journal := db.journal + Logged(env, [tx]))
  {
    match CreateTransaction(db, tx, !env.journalUp)
    case Ok(d) => d
    case Err(_) => db
  }

  /** Raises a low-stock alert; a failing alert write is swallowed. */
  function TriggerLowStockAlert(db: Db, cfg: Config, env: Env, item: string, loc: string, qty: Int64): (r: Db)
    ensures r == db.(alerts := db.alerts + (if env.alertsUp then [LowStock(|db.alerts|, cfg, env, item, loc, qty)] else []))
  {
    match CreateAlert(db, LowStock(|db.alerts|, cfg, env, item, loc, qty), !env.alertsUp)
    case Ok(d) => d
    case Err(_) => db
  }

  /** Persists a record: an insert for a new key, a version-checked update
      otherwise. */
  function Save(db: Db, env: Env, s: Stock): (r: Result<Db, Error>)
    requires s.version == NextVersion(db, s.PrimaryKey())
    ensures r.Ok? <==> !Blocked(env, s.PrimaryKey(), s.version)
    ensures r.Err? ==> r.error == WriteError(db, s.PrimaryKey())
    ensures r.Ok? ==> r.value == Put(db, s)
  {
    var fails := Blocked(env, s.PrimaryKey(), s.version);
    if s.PrimaryKey() in db.stocks then
      Wrap64AddLeft(db.stocks[s.PrimaryKey()].version + 1, -1);
      UpdateStock(db, s, fails).MapErr((e: Error) => Storage("update_stock", e))
    else CreateStock(db, s, fails).MapErr((e: Error) => Storage("create_stock", e))
  }

  // ---------------------------------------------------------------------
  // Mutations
  // ---------------------------------------------------------------------

  /** Receives `q` units of `item` at `loc`: creates the record (reserved 0,
      version 1) or raises its quantity, and journals one inbound entry. */
  function Add(db: Db, cfg: Config, env: Env, item: string, loc: string, q: Int64, reference: string): (r: Outcome)
    ensures q <= 0 ==> r == Outcome(db, Some(Validation("quantity", NotPositive)))
    ensures r.err.Some? ==> r.db == db
    ensures q > 0 && ValidateItemAndLocation(db, item, loc).Some? ==> r.err == ValidateItemAndLocation(db, item, loc)
    ensures r.err.None? <==> q > 0 && item in db.items && loc in db.locations
                             && !Blocked(env, Key(item, loc), NextVersion(db, Key(item, loc)))
    ensures q > 0 && item in db.items && loc in db.locations && r.err.Some? ==> r.err == Some(WriteError(db, Key(item, loc)))
    ensures r.err.None? && Key(item, loc) !in db.stocks ==>
              r.db == Put(db, Build(Key(item, loc), q, 0, 1, env))
                        .(journal := db.journal + Logged(env, [Entry(|db.journal|, env, Inbound, item, None, Some(loc), q, reference)]))
    ensures r.err.None? && Key(item, loc) in db.stocks ==>
              var o := db.stocks[Key(item, loc)];
              r.db == Put(db, Build(Key(item, loc), Wrap64(o.quantity + q), o.reserved, Wrap64(o.version + 1), env))
                        .(journal := db.journal + Logged(env, [Entry(|db.journal|, env, Inbound, item, None, Some(loc), q, reference)]))
  {
    var k := Key(item, loc);
    if q <= 0 then Outcome(db, Some(Validation("quantity", NotPositive)))
    else match ValidateItemAndLocation(db, item, loc)
    case Some(e) => Outcome(db, Some(e))
    case None =>
      var found := GetStock(db, item, loc);
      var s := if found.Ok? then Build(k, Wrap64(found.value.quantity + q), found.value.reserved, Wrap64(found.value.version + 1), env)
               else Build(k, q, 0, 1, env);
      match Save(db, env, s)
      case Err(e) => Outcome(db, Some(e))
      case Ok(d) => Outcome(Record(d, env, Entry(|d.journal|, env, Inbound, item, None, Some(loc), q, reference)), None)
  }

  /** Issues `q` units of `item` from `loc`. A missing record or too little
      available stock is InsufficientStock; a negative result is refused
      unless the policy allows it, before anything is written. A result at or
      below the low-stock threshold raises an alert. One outbound entry is
      journalled. */
  function Remove(db: Db, cfg: Config, env: Env, item: string, loc: string, q: Int64, reference: string): (r: Outcome)
    ensures q <= 0 ==> r == Outcome(db, Some(Validation("quantity", NotPositive)))
    ensures r.err.Some? ==> r.db == db
    ensures q > 0 && ValidateItemAndLocation(db, item, loc).Some? ==> r.err == ValidateItemAndLocation(db, item, loc)
    ensures q > 0 && item in db.items && loc in db.locations
            && (Key(item, loc) !in db.stocks || db.stocks[Key(item, loc)].available < q)
            ==> r.err == Some(InsufficientStock)
    ensures q > 0 && item in db.items && loc in db.locations && Key(item, loc) in db.stocks
            && db.stocks[Key(item, loc)].available >= q
            && !cfg.allowNegativeStock && Wrap64(db.stocks[Key(item, loc)].quantity - q) < 0
            ==> r.err == Some(BusinessRule("negative_stock"))
    ensures r.err.None? <==>
              && q > 0 && item in db.items && loc in db.locations
              && Key(item, loc) in db.stocks
              && db.stocks[Key(item, loc)].available >= q
              && (cfg.allowNegativeStock || Wrap64(db.stocks[Key(item, loc)].quantity - q) >= 0)
              && !Blocked(env, Key(item, loc), NextVersion(db, Key(item, loc)))
    ensures r.err.None? ==>
              var o := db.stocks[Key(item, loc)];
              var left := Wrap64(o.quantity - q);
              r.db == Put(db, Build(Key(item, loc), left, o.reserved, Wrap64(o.version + 1), env))
                        .(journal := db.journal + Logged(env, [Entry(|db.journal|, env, Outbound, item, Some(loc), None, q, reference)]),
                          alerts := db.alerts + Raised(db, cfg, env, item, loc, left))
  {
    var k := Key(item, loc);
    if q <= 0 then Outcome(db, Some(Validation("quantity", NotPositive)))
    else match ValidateItemAndLocation(db, item, loc)
    case Some(e) => Outcome(db, Some(e))
    case None =>
      match GetStock(db, item, loc)
      case Err(_) => Outcome(db, Some(InsufficientStock))
      case Ok(o) =>
        if o.available < q then Outcome(db, Some(InsufficientStock))
        else
          var s := Build(k, Wrap64(o.quantity - q), o.reserved, Wrap64(o.version + 1), env);
          if !cfg.allowNegativeStock && s.quantity < 0 then Outcome(db, Some(BusinessRule("negative_stock")))
          else match Save(db, env, s)
          case Err(e) => Outcome(db, Some(e))
          case Ok(d) =>
            var d1 := if s.quantity <= cfg.lowStockThreshold then TriggerLowStockAlert(d, cfg, env, item, loc, s.quantity) else d;
            Outcome(Record(d1, env, Entry(|d1.journal|, env, Outbound, item, Some(loc), None, q, reference)), None)
  }

  /** Moves `q` units between two distinct locations as a removal followed
      by an addition. If the addition fails, the removal is compensated by a
      best-effort addition back to the source (its own failure is ignored)
      and the addition's error is returned. On success a transfer entry
      follows the outbound and inbound entries. */
  function Transfer(db: Db, cfg: Config, env: Env, item: string, from: string, to: string, q: Int64, reference: string): (r: Outcome)
    ensures q <= 0 ==> r == Outcome(db, Some(Validation("quantity", NotPositive)))
    ensures q > 0 && from == to ==> r == Outcome(db, Some(Validation("location", SameLocation)))
    ensures q > 0 && from != to && ValidateItemAndLocation(db, item, from).Some? ==>
              r == Outcome(db, ValidateItemAndLocation(db, item, from))
    ensures q > 0 && from != to && ValidateItemAndLocation(db, item, from).None? && ValidateItemAndLocation(db, item, to).Some? ==>
              r == Outcome(db, ValidateItemAndLocation(db, item, to))
    ensures q > 0 && from != to && to in db.locations && Remove(db, cfg, env, item, from, q, reference).err.Some? ==>
              r == Remove(db, cfg, env, item, from, q, reference)
  {
    if q <= 0 then Outcome(db, Some(Validation("quantity", NotPositive)))
    else if from == to then Outcome(db, Some(Validation("location", SameLocation)))
    else match ValidateItemAndLocation(db, item, from)
    case Some(e) => Outcome(db, Some(e))
    case None =>
      match ValidateItemAndLocation(db, item, to)
      case Some(e) => Outcome(db, Some(e))
      case None =>
        var out := Remove(db, cfg, env, item, from, q, reference);
        if out.err.Some? then out
        else
          var into := Add(out.db, cfg, env, item, to, q, reference);
          if into.err.Some? then
            var back := Add(into.db, cfg, env, item, from, q, reference + "_ROLLBACK");
            Outcome(back.db, into.err)
          else
            Outcome(Record(into.db, env, Entry(|into.db.journal|, env, TransferKind, item, Some(from), Some(to), q, reference)), None)
  }

  /** Sets the quantity of `item` at `loc` to `n` (creating the record if
      needed) and journals the difference from the previous quantity (0 for
      a new record). Reserved stock is left alone. */
  function Adjust(db: Db, cfg: Config, env: Env, item: string, loc: string, n: Int64, reference: string): (r: Outcome)
    ensures n < 0 && !cfg.allowNegativeStock ==> r == Outcome(db, Some(Validation("quantity", Negative)))
    ensures r.err.Some? ==> r.db == db
    ensures (n >= 0 || cfg.allowNegativeStock) && ValidateItemAndLocation(db, item, loc).Some? ==>
              r.err == ValidateItemAndLocation(db, item, loc)
    ensures r.err.None? <==> (n >= 0 || cfg.allowNegativeStock) && item in db.items && loc in db.locations
                             && !Blocked(env, Key(item, loc), NextVersion(db, Key(item, loc)))
    ensures r.err.None? && Key(item, loc) !in db.stocks ==>
              r.db == Put(db, Build(Key(item, loc), n, 0, 1, env))
                        .(journal := db.journal + Logged(env, [Entry(|db.journal|, env, AdjustKind, item, None, Some(loc), n, reference)]))
    ensures r.err.None? && Key(item, loc) in db.stocks ==>
              var o := db.stocks[Key(item, loc)];
              r.db == Put(db, Build(Key(item, loc), n, o.reserved, Wrap64(o.version + 1), env))
                        .(journal := db.journal + Logged(env, [Entry(|db.journal|, env, AdjustKind, item, None, Some(loc), Wrap64(n - o.quantity), reference)]))
  {
    var k := Key(item, loc);
    if n < 0 && !cfg.allowNegativeStock then Outcome(db, Some(Validation("quantity", Negative)))
    else match ValidateItemAndLocation(db, item, loc)
    case Some(e) => Outcome(db, Some(e))
    case None =>
      var found := GetStock(db, item, loc);
      var prev: Int64 := if found.Ok? then found.value.quantity else 0;
      var s := if found.Ok? then Build(k, n, found.value.reserved, Wrap64(found.value.version + 1), env)
               else Build(k, n, 0, 1, env);
      match Save(db, env, s)
      case Err(e) => Outcome(db, Some(e))
      case Ok(d) => Outcome(Record(d, env, Entry(|d.journal|, env, AdjustKind, item, None, Some(loc), Wrap64(n - prev), reference)), None)
  }

  /** Sets aside `q` available units. There is no catalog check here, and a
      missing record is a storage error wrapping StockNotFound. Nothing is
      journalled. */
  function Reserve(db: Db, env: Env, item: string, loc: string, q: Int64, reference: string): (r: Outcome)
    ensures q <= 0 ==> r == Outcome(db, Some(Validation("quantity", NotPositive)))
    ensures r.err.Some? ==> r.db == db
    ensures q > 0 && Key(item, loc) !in db.stocks ==> r.err == Some(Storage("get_stock", StockNotFound))
    ensures q > 0 && Key(item, loc) in db.stocks && db.stocks[Key(item, loc)].available < q ==> r.err == Some(InsufficientStock)
    ensures r.err.None? <==> q > 0 && Key(item, loc) in db.stocks && db.stocks[Key(item, loc)].available >= q
                             && !Blocked(env, Key(item, loc), NextVersion(db, Key(item, loc)))
    ensures r.err.None? ==>
              var o := db.stocks[Key(item, loc)];
              r.db == Put(db, Build(Key(item, loc), o.quantity, Wrap64(o.reserved + q), Wrap64(o.version + 1), env))
  {
    var k := Key(item, loc);
    if q <= 0 then Outcome(db, Some(Validation("quantity", NotPositive)))
    else match GetStock(db, item, loc)
    case Err(e) => Outcome(db, Some(Storage("get_stock", e)))
    case Ok(o) =>
      if o.available < q then Outcome(db, Some(InsufficientStock))
      else match Save(db, env, Build(k, o.quantity, Wrap64(o.reserved + q), Wrap64(o.version + 1), env))
      case Err(e) => Outcome(db, Some(e))
      case Ok(d) => Outcome(d, None)
  }

  /** Gives back `q` reserved units; more than is reserved is
      InsufficientReservation. Nothing is journalled. */
  function ReleaseReservation(db: Db, env: Env, item: string, loc: string, q: Int64, reference: string): (r: Outcome)
    ensures q <= 0 ==> r == Outcome(db, Some(Validation("quantity", NotPositive)))
    ensures r.err.Some? ==> r.db == db
    ensures q > 0 && Key(item, loc) !in db.stocks ==> r.err == Some(Storage("get_stock", StockNotFound))
    ensures q > 0 && Key(item, loc) in db.stocks && db.stocks[Key(item, loc)].reserved < q ==>
              r.err == Some(InsufficientReservation)
    ensures r.err.None? <==> q > 0 && Key(item, loc) in db.stocks && db.stocks[Key(item, loc)].reserved >= q
                             && !Blocked(env, Key(item, loc), NextVersion(db, Key(item, loc)))
    ensures r.err.None? ==>
              var o := db.stocks[Key(item, loc)];
              r.db == Put(db, Build(Key(item, loc), o.quantity, Wrap64(o.reserved - q), Wrap64(o.version + 1), env))
  {
    var k := Key(item, loc);
    if q <= 0 then Outcome(db, Some(Validation("quantity", NotPositive)))
    else match GetStock(db, item, loc)
    case Err(e) => Outcome(db, Some(Storage("get_stock", e)))
    case Ok(o) =>
      if o.reserved < q then Outcome(db, Some(InsufficientReservation))
      else match Save(db, env, Build(k, o.quantity, Wrap64(o.reserved - q), Wrap64(o.version + 1), env))
      case Err(e) => Outcome(db, Some(e))
      case Ok(d) => Outcome(d, None)
  }

  // ---------------------------------------------------------------------
  // Queries
  // ---------------------------------------------------------------------

  /** The total quantity of a catalogued item over all locations. */
  function GetTotalStock(db: Db, item: string): (r: Result<Int64, Error>)
    ensures item !in db.items ==> r == Err(ItemNotFound)
    ensures r.Ok? <==> item in db.items && InInt64(QuantitySum(db.rows, db.stocks, item))
    ensures r.Ok? ==> r.value == QuantitySum(db.rows, db.stocks, item)
  {
    if GetItem(db, item).Err? then Err(ItemNotFound)
    else GetTotalStockByItem(db, item).MapErr((e: Error) => Wrapped(e))
  }

  /** The history of a location: the id must be given, a non-positive limit
      means 100, and the location must exist. The `i`-th result is the
      location's `i`-th newest entry. */
  function GetHistoryByLocation(db: Db, loc: string, limit: int): (r: Result<seq<Transaction>, Error>)
    ensures loc == [] ==> r == Err(Validation("location_id", Missing))
    ensures loc != [] && loc !in db.locations ==> r == Err(LocationNotFound)
    ensures r.Ok? <==> loc != [] && loc in db.locations
    ensures r.Ok? ==> |r.value| <= (if limit <= 0 then 100 else limit)
    ensures r.Ok? ==> forall e :: e in r.value ==> e in db.journal && (e.from == Some(loc) || e.to == Some(loc))
    ensures r.Ok? ==> NewestOf(r.value, Filter(db.journal, Touches(loc)), if limit <= 0 then 100 else limit)
    ensures r.Ok? && limit >= |db.journal| ==>
              forall e :: e in r.value <==> e in db.journal && (e.from == Some(loc) || e.to == Some(loc))
  {
    if loc == [] then Err(Validation("location_id", Missing))
    else
      var n := if limit <= 0 then 100 else limit;
      if GetLocation(db, loc).Err? then Err(LocationNotFound)
      else GetTransactionHistoryByLocation(db, loc, n).MapErr((e: Error) => Wrapped(e))
  }

  /** The history of an item between two instants, both included: the id
      must be given, the range must not be reversed, the item must exist. */
  function GetHistoryByDateRange(db: Db, item: string, from: Time, to: Time): (r: Result<seq<Transaction>, Error>)
    ensures item == [] ==> r == Err(Validation("item_id", Missing))
    ensures item != [] && from > to ==> r == Err(Validation("date_range", BadDateRange))
    ensures r.Ok? <==> item != [] && from <= to && item in db.items
    ensures r.Ok? ==> forall e :: e in r.value <==> e in db.journal && e.itemId == item && from <= e.createdAt <= to
  {
    if item == [] then Err(Validation("item_id", Missing))
    else if from > to then Err(Validation("date_range", BadDateRange))
    else if GetItem(db, item).Err? then Err(ItemNotFound)
    else Ok(GetTransactionHistoryByDateRange(db, item, from, to))
  }
}
