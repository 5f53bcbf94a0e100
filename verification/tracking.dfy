/** Lot and movement tracking (tracking.go, TrackingManager): creating lots,
    recording movements with lot information, the movement history with or
    without metadata, the expiry check and expiry alert of a lot, and the
    audit trail of an item. The lot expiry queries of the manager are stubs
    that report no lots. */
module Tracking {
  import opened Wrappers
  import opened Types
  import opened Seqs
  import opened Store
  import opened Ledger

  // ---------------------------------------------------------------------
  // Lots
  // ---------------------------------------------------------------------

  /** Lot ids are positions at creation time, so every stored id is below
      the number of lots. */
  predicate LotIdsFresh(db: Db) {
    forall l :: l in db.lots ==> l.id < |db.lots|
  }

  /** Creates a lot of an item in the catalog; `fails` says whether the
      insert is rejected. A missing item is ErrItemNotFound and nothing is
      stored. */
  function CreateLot(db: Db, env: Env, item: string, number: string, quantity: Int64, unitCost: real,
                     expiry: Option<Time>, fails: bool): (r: Result<(Db, Lot), Error>)
    ensures item !in db.items <==> r == Err(ItemNotFound)
    ensures item in db.items && fails <==> r == Err(Storage("create_lot", WriteFailed))
    ensures r.Ok? ==> var (d, lot) := r.value;
              && lot.number == number && lot.itemId == item && lot.quantity == quantity
              && lot.unitCost == unitCost && lot.expiryDate == expiry && lot.createdAt == env.now
              && d == db.(lots := db.lots + [lot])
  {
    if GetItem(db, item).Err? then Err(ItemNotFound)
    else
      var lot := Lot(|db.lots|, number, item, quantity, unitCost, expiry, env.now);
      match Store.CreateLot(db, lot, fails)
      case Err(_) => Err(Storage("create_lot", WriteFailed))
      case Ok(d) => Ok((d, lot))
  }

  /** A created lot is found again by its id and among its item's lots, and
      lot ids stay fresh. */
  lemma CreatedLotFound(db: Db, env: Env, item: string, number: string, quantity: Int64, unitCost: real,
                        expiry: Option<Time>)
    requires LotIdsFresh(db) && item in db.items
    ensures var r := CreateLot(db, env, item, number, quantity, unitCost, expiry, false);
            && r.Ok?
            && GetLot(r.value.0, r.value.1.id) == Ok(r.value.1)
            && r.value.1 in Store.GetLotsByItem(r.value.0, item)
            && LotIdsFresh(r.value.0)
  {
    var (d, lot) := CreateLot(db, env, item, number, quantity, unitCost, expiry, false).value;
    assert forall i :: 0 <= i < |db.lots| ==> db.lots[i] in db.lots && d.lots[i] == db.lots[i];
    assert d.lots[|db.lots|] == lot;
  }

  /** The manager's query for lots expiring within `within`: a non-positive
      window is rejected, and otherwise no lot is reported, because the
      filtering is not implemented. */
  function GetExpiringLots(within: Duration): (r: Result<seq<Lot>, Error>)
    ensures within <= 0 <==> r == Err(Validation("within", NotPositive))
    ensures within > 0 <==> r == Ok([])
  {
    if within <= 0 then Err(Validation("within", NotPositive)) else Ok([])
  }

  /** The manager's query for expired lots: never an error, never a lot. */
  function GetExpiredLots(): (r: Result<seq<Lot>, Error>)
    ensures r.Ok? && |r.value| == 0
  {
    Ok([])
  }

  /** The manager's expiry queries miss lots that the store's queries and
      the lot rules report: a lot expiring within the window, or already
      expired, is never returned. */
  lemma ManagerQueriesMissLots(db: Db, within: Duration, now: Time, lot: Lot)
    requires within > 0 && lot in db.lots && IsExpired(lot, now)
    ensures lot in Store.GetExpiredLots(db, now) || lot.expiryDate == Some(now)
    ensures lot in Store.GetExpiringLots(db, within, now) && IsExpiringSoon(lot, within, now)
    ensures lot !in GetExpiringLots(within).value && lot !in GetExpiredLots().value
  {
    ExpiredQueryAgreesWithRule(db, now, within);
  }

  // ---------------------------------------------------------------------
  // Movements
  // ---------------------------------------------------------------------

  const LotTrackingKey: string := "lot_tracking"
  const Enabled: string := "enabled"

  /** The metadata of a tracked movement: lot tracking is flagged exactly
      when a lot number is given. */
  function MovementMetadata(lotNumber: Option<string>): (m: map<string, string>)
    ensures LotTrackingKey in m <==> lotNumber.Some?
    ensures LotTrackingKey in m ==> m[LotTrackingKey] == Enabled
    ensures m.Keys <= {LotTrackingKey}
  {
    if lotNumber.Some? then map[LotTrackingKey := Enabled] else map[]
  }

  /** The journal entry of a tracked movement, stamped now by the actor; its
      id is its journal position. */
  function Movement(db: Db, env: Env, kind: string, item: string, from: Option<string>, to: Option<string>,
                    quantity: Int64, reference: string, lotNumber: Option<string>, unitCost: Option<real>): Transaction {
    Transaction(|db.journal|, kind, item, from, to, quantity, unitCost, reference, lotNumber, None,
                Some(MovementMetadata(lotNumber)), env.now, Actor(env))
  }

  /** Records a movement with its lot and unit cost. Unlike the manager's
      own journal writes, a failing write is returned as a storage error. */
  function TrackInventoryMovement(db: Db, env: Env, kind: string, item: string, from: Option<string>, to: Option<string>,
                                  quantity: Int64, reference: string, lotNumber: Option<string>, unitCost: Option<real>)
    : (r: Result<Db, Error>)
    ensures r.Err? <==> !env.journalUp
    ensures r.Err? ==> r.error == Storage("create_transaction", WriteFailed)
    ensures r.Ok? ==> |r.value.journal| == |db.journal| + 1 && r.value.journal[..|db.journal|] == db.journal
    ensures r.Ok? ==> r.value.(journal := db.journal) == db
    ensures r.Ok? ==> var e := r.value.journal[|db.journal|];
              && e.kind == kind && e.itemId == item && e.from == from && e.to == to && e.quantity == quantity
              && e.reference == reference && e.lotNumber == lotNumber && e.unitCost == unitCost
              && e.createdAt == env.now && e.createdBy == Actor(env)
              && e.metadata.Some? && (LotTrackingKey in e.metadata.value <==> lotNumber.Some?)
  {
    var tx := Movement(db, env, kind, item, from, to, quantity, reference, lotNumber, unitCost);
    match CreateTransaction(db, tx, !env.journalUp)
    case Err(_) => Err(Storage("create_transaction", WriteFailed))
    case Ok(d) => Ok(d)
  }

  /** A tracked movement is the newest entry of its item's history, while
      the same journal outage that the manager swallows makes tracking fail
      and leaves the journal alone. */
  lemma MovementIsNewest(db: Db, env: Env, kind: string, item: string, from: Option<string>, to: Option<string>,
                         quantity: Int64, reference: string, lotNumber: Option<string>, unitCost: Option<real>, limit: int)
    requires limit > 0
    ensures var r := TrackInventoryMovement(db, env, kind, item, from, to, quantity, reference, lotNumber, unitCost);
            var tx := Movement(db, env, kind, item, from, to, quantity, reference, lotNumber, unitCost);
            && (r.Ok? ==> GetTransactionHistory(r.value, item, limit).value[0] == tx)
            && (r.Err? ==> Record(db, env, tx) == db)
  {
    var tx := Movement(db, env, kind, item, from, to, quantity, reference, lotNumber, unitCost);
    var p := OfItem(item);
    FilterAppend(db.journal, [tx], p);
    assert Filter([tx], p) == [tx];
  }

  /** An entry with its metadata dropped. */
  function WithoutMetadata(e: Transaction): (r: Transaction)
    ensures r.metadata.None? && r.(metadata := e.metadata) == e
  {
    e.(metadata := None)
  }

  /** An item's movements, newest first, at most `limit`; without
      `includeMetadata` every entry's metadata is dropped. A negative limit
      is a storage error. */
  function GetMovementHistory(db: Db, item: string, includeMetadata: bool, limit: int): (r: Result<seq<Transaction>, Error>)
    ensures r.Err? <==> limit < 0
    ensures r.Err? ==> r.error == Storage("get_transaction_history", NegativeLimit)
    ensures r.Ok? ==> |r.value| == |GetTransactionHistory(db, item, limit).value|
    ensures r.Ok? && includeMetadata ==> r.value == GetTransactionHistory(db, item, limit).value
    ensures r.Ok? && !includeMetadata ==>
              var h := GetTransactionHistory(db, item, limit).value;
              forall i :: 0 <= i < |r.value| ==> r.value[i].metadata.None? && r.value[i].(metadata := h[i].metadata) == h[i]
  {
    match GetTransactionHistory(db, item, limit)
    case Err(e) => Err(Storage("get_transaction_history", e))
    case Ok(h) =>
      if includeMetadata then Ok(h)
      else Ok(seq(|h|, i requires 0 <= i < |h| => WithoutMetadata(h[i])))
  }

  // ---------------------------------------------------------------------
  // Expiry of a lot
  // ---------------------------------------------------------------------

  /** Checks that a lot has not expired at `now`. A failing lookup is
      returned as it is. */
  function ValidateLotExpiry(db: Db, id: nat, now: Time): (r: Option<Error>)
    ensures r == Some(LotNotFound) <==> GetLot(db, id).Err?
    ensures r == Some(ExpiredLot) <==> GetLot(db, id).Ok? && IsExpired(GetLot(db, id).value, now)
    ensures r.None? <==> GetLot(db, id).Ok? && !IsExpired(GetLot(db, id).value, now)
  {
    match GetLot(db, id)
    case Err(e) => Some(e)
    case Ok(lot) => if IsExpired(lot, now) then Some(ExpiredLot) else None
  }

  /** The pseudo-location of alerts about a whole lot. */
  const AllLocations: string := "ALL"

  /** Raises an expiring alert for a lot that has an expiry date: active,
      at the pseudo-location "ALL", carrying the lot quantity and the number
      of days as its threshold. */
  function CreateExpiryAlert(db: Db, env: Env, id: nat, days: Int64): (r: Result<Db, Error>)
    ensures GetLot(db, id).Err? <==> r == Err(LotNotFound)
    ensures GetLot(db, id).Ok? && GetLot(db, id).value.expiryDate.None? <==> r == Err(Formatted(NoExpiryDate))
    ensures r == Err(Storage("create_alert", WriteFailed)) <==>
              GetLot(db, id).Ok? && GetLot(db, id).value.expiryDate.Some? && !env.alertsUp
    ensures r.Ok? ==> var lot := GetLot(db, id).value;
              && |r.value.alerts| == |db.alerts| + 1 && r.value.alerts[..|db.alerts|] == db.alerts
              && r.value.(alerts := db.alerts) == db
              && var a := r.value.alerts[|db.alerts|];
                 && a.kind == ExpiringAlert && a.isActive && a.resolvedAt.None?
                 && a.itemId == lot.itemId && a.locationId == AllLocations
                 && a.currentQty == lot.quantity && a.threshold == days
                 && a.message == ExpiryText(lot.number, days) && a.createdAt == env.now
  {
    match GetLot(db, id)
    case Err(e) => Err(e)
    case Ok(lot) =>
      if lot.expiryDate.None? then Err(Formatted(NoExpiryDate))
      else
        var alert := StockAlert(|db.alerts|, ExpiringAlert, lot.itemId, AllLocations, lot.quantity, days,
                                ExpiryText(lot.number, days), true, env.now, None);
        match CreateAlert(db, alert, !env.alertsUp)
        case Err(_) => Err(Storage("create_alert", WriteFailed))
        case Ok(d) => Ok(d)
  }

  /** Appending an alert elsewhere leaves a location's active alerts as
      they were. */
  lemma ActiveAlertsElsewhere(db: Db, a: StockAlert, loc: string)
    requires a.locationId != loc
    ensures GetActiveAlerts(db.(alerts := db.alerts + [a]), loc) == GetActiveAlerts(db, loc)
  {
    FilterAppendRejected(db.alerts, a, ActiveAt(loc));
  }

  /** An expiry alert is listed among the active alerts of "ALL" only: the
      active alerts of every other location are unchanged. */
  lemma ExpiryAlertOnlyUnderAll(db: Db, env: Env, id: nat, days: Int64, loc: string)
    requires CreateExpiryAlert(db, env, id, days).Ok?
    ensures var d := CreateExpiryAlert(db, env, id, days).value;
            d.alerts[|db.alerts|] in GetActiveAlerts(d, AllLocations)
    ensures loc != AllLocations ==>
              var d := CreateExpiryAlert(db, env, id, days).value;
              GetActiveAlerts(d, loc) == GetActiveAlerts(db, loc)
  {
    var d := CreateExpiryAlert(db, env, id, days).value;
    var a := d.alerts[|db.alerts|];
    assert d == db.(alerts := db.alerts + [a]) by {
      assert d.alerts == d.alerts[..|db.alerts|] + [a];
    }
    assert a in d.alerts;
    if loc != AllLocations {
      ActiveAlertsElsewhere(db, a, loc);
    }
  }

  // ---------------------------------------------------------------------
  // Audit trail
  // ---------------------------------------------------------------------

  /** How many of an item's newest entries the audit trail looks at. */
  const AuditHistoryLimit: nat := 1000

  datatype AuditTrail = AuditTrail(
    itemId: string,
    fromDate: Time,
    toDate: Time,
    transactions: seq<Transaction>,
    lots: seq<Lot>,
    generatedAt: Time)

  /** The audit trail of an item: its newest entries strictly between `from`
      and `to`, and its lots. `lotsFail` says whether the lot lookup fails;
      the trail then carries no lots instead of failing. */
  function GetAuditTrail(db: Db, item: string, from: Time, to: Time, now: Time, lotsFail: bool): (r: AuditTrail)
    ensures r.itemId == item && r.fromDate == from && r.toDate == to && r.generatedAt == now
    ensures forall e :: e in r.transactions <==>
              e in GetTransactionHistory(db, item, AuditHistoryLimit).value && from < e.createdAt < to
    ensures lotsFail ==> r.lots == []
    ensures !lotsFail ==> forall l :: l in r.lots <==> l in db.lots && l.itemId == item
  {
    var history := GetTransactionHistory(db, item, AuditHistoryLimit).value;
    var inRange := Filter(history, (e: Transaction) => from < e.createdAt < to);
    var lots := if lotsFail then [] else Store.GetLotsByItem(db, item);
    AuditTrail(item, from, to, inRange, lots, now)
  }

  /** While the journal holds at most a thousand entries, the audit trail
      holds the date-range query's entries less those at either end; under
      a monotone clock it is newest first. */
  lemma AuditTrailWithinDateRange(db: Db, item: string, from: Time, to: Time, now: Time, lotsFail: bool)
    requires |db.journal| <= AuditHistoryLimit
    ensures var t := GetAuditTrail(db, item, from, to, now, lotsFail).transactions;
            forall e :: e in t <==>
              e in GetTransactionHistoryByDateRange(db, item, from, to) && e.createdAt != from && e.createdAt != to
    ensures Chronological(db.journal) ==> Descending(GetAuditTrail(db, item, from, to, now, lotsFail).transactions, CreatedAt)
  {
    if Chronological(db.journal) {
      HistoryNewestFirst(db, item, "", AuditHistoryLimit, from, to);
      var history := GetTransactionHistory(db, item, AuditHistoryLimit).value;
      FilterDescending(history, (e: Transaction) => from < e.createdAt < to, CreatedAt);
    }
  }
}
