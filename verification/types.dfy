/** The data model of the inventory core: catalog entries, stock records,
    journal entries (transactions), lots, alerts, batch operations, and the
    error values the core returns. Time is an explicit integer (nanoseconds
    since an arbitrary epoch) instead of a wall clock. */
module Types {
  import opened Wrappers

  // ---------------------------------------------------------------------
  // Go's int64
  // ---------------------------------------------------------------------

  const MinInt64: int := -0x8000_0000_0000_0000
  const MaxInt64: int := 0x7FFF_FFFF_FFFF_FFFF
  const TwoTo64: int := 0x1_0000_0000_0000_0000

  type Int64 = x: int | MinInt64 <= x <= MaxInt64

  predicate InInt64(x: int) {
    MinInt64 <= x <= MaxInt64
  }

  /** Two's-complement wrap-around: the int64 that Go's arithmetic yields
      for the mathematical result `x`. */
  function Wrap64(x: int): (r: Int64)
    ensures InInt64(x) ==> r == x
    ensures x > MaxInt64 ==> r < x
    ensures x < MinInt64 ==> r > x
    decreases if x > MaxInt64 then x - MaxInt64 else if x < MinInt64 then MinInt64 - x else 0
  {
    if x > MaxInt64 then Wrap64(x - TwoTo64)
    else if x < MinInt64 then Wrap64(x + TwoTo64)
    else x
  }

  /** Wrap64 differs from its argument by a multiple of 2^64. */
  lemma {:induction false} Wrap64Congruent(x: int)
    ensures (x - Wrap64(x)) % TwoTo64 == 0
    decreases if x > MaxInt64 then x - MaxInt64 else if x < MinInt64 then MinInt64 - x else 0
  {
    if x > MaxInt64 {
      Wrap64Congruent(x - TwoTo64);
      assert x - Wrap64(x) == (x - TwoTo64 - Wrap64(x - TwoTo64)) + TwoTo64;
    } else if x < MinInt64 {
      Wrap64Congruent(x + TwoTo64);
      assert x - Wrap64(x) == (x + TwoTo64 - Wrap64(x + TwoTo64)) - TwoTo64;
    }
  }

  /** Wrapping an intermediate result does not change a later wrapped sum:
      int64 addition is addition modulo 2^64. */
  lemma Wrap64AddLeft(a: int, b: int)
    ensures Wrap64(Wrap64(a) + b) == Wrap64(a + b)
  {
    var w := Wrap64(a);
    Wrap64Congruent(a);
    assert (a - w) % TwoTo64 == 0;
    var k := (a - w) / TwoTo64;
    assert a == w + k * TwoTo64;
    Wrap64Periodic(w + b, k);
  }

  /** Wrap64 only depends on its argument modulo 2^64. */
  lemma Wrap64Periodic(x: int, k: int)
    ensures Wrap64(x + k * TwoTo64) == Wrap64(x)
  {
    var y := x + k * TwoTo64;
    var rx := Wrap64(x);
    var ry := Wrap64(y);
    Wrap64Congruent(x);
    Wrap64Congruent(y);
    assert (x - rx) % TwoTo64 == 0;
    assert (y - ry) % TwoTo64 == 0;
    var m := (x - rx) / TwoTo64;
    var n := (y - ry) / TwoTo64;
    assert x - rx == m * TwoTo64;
    assert y - ry == n * TwoTo64;
    var d := n - k - m;
    assert rx - ry == d * TwoTo64;
    assert d == 0;
  }

  // ---------------------------------------------------------------------
  // Time
  // ---------------------------------------------------------------------

  /** A point in time, in nanoseconds. */
  type Time = int
  /** A span of time, in nanoseconds (Go's time.Duration). */
  type Duration = int

  const Hour: Duration := 3_600_000_000_000

  // ---------------------------------------------------------------------
  // Catalog
  // ---------------------------------------------------------------------

  /** A catalog entry; `unitCost` is the standard cost. */
  datatype Item = Item(
    id: string,
    name: string,
    sku: string,
    description: string,
    category: string,
    unitCost: real,
    createdAt: Time,
    updatedAt: Time)

  /** A storage site. */
  datatype Location = Location(
    id: string,
    name: string,
    kind: string,
    address: string,
    capacity: Int64,
    isActive: bool,
    createdAt: Time,
    updatedAt: Time)

  // ---------------------------------------------------------------------
  // Stock records
  // ---------------------------------------------------------------------

  /** The primary key of a stock record. */
  datatype Key = Key(itemId: string, locationId: string)

  /** Stock of one item at one location; `version` drives optimistic locking. */
  datatype Stock = Stock(
    itemId: string,
    locationId: string,
    quantity: Int64,
    reserved: Int64,
    available: Int64,
    version: Int64,
    updatedAt: Time,
    updatedBy: string)
  {
    function PrimaryKey(): Key {
      Key(itemId, locationId)
    }
  }

  /** The derived-field invariant, as int64 arithmetic computes it. */
  predicate AvailableDerived(s: Stock) {
    s.available == Wrap64(s.quantity - s.reserved)
  }

  /** Recomputes `available` from `quantity` and `reserved`; nothing else
      changes. */
  function CalculateAvailable(s: Stock): (r: Stock)
    ensures AvailableDerived(r)
    ensures InInt64(s.quantity - s.reserved) ==> r.available + r.reserved == r.quantity
    ensures r.(available := s.available) == s
  {
    s.(available := Wrap64(s.quantity - s.reserved))
  }

  // ---------------------------------------------------------------------
  // Journal entries
  // ---------------------------------------------------------------------

  // Transaction kinds. Go's TransactionType is an open string type, so the
  // model keeps kinds as strings.
  const Inbound: string := "inbound"
  const Outbound: string := "outbound"
  const TransferKind: string := "transfer"
  const AdjustKind: string := "adjust"

  /** One immutable movement record. An absent `from` marks stock arriving
      from outside, an absent `to` marks stock leaving to outside. */
  datatype Transaction = Transaction(
    id: nat,
    kind: string,
    itemId: string,
    from: Option<string>,
    to: Option<string>,
    quantity: Int64,
    unitCost: Option<real>,
    reference: string,
    lotNumber: Option<string>,
    expiryDate: Option<Time>,
    metadata: Option<map<string, string>>,
    createdAt: Time,
    createdBy: string)
  {
    /** Enters the inventory from outside. */
    predicate FromOutside() {
      from.None?
    }

    /** Leaves the inventory to outside. */
    predicate ToOutside() {
      to.None?
    }
  }

  // ---------------------------------------------------------------------
  // Lots
  // ---------------------------------------------------------------------

  /** A batch of an item sharing a unit cost and an expiry date. */
  datatype Lot = Lot(
    id: nat,
    number: string,
    itemId: string,
    quantity: Int64,
    unitCost: real,
    expiryDate: Option<Time>,
    createdAt: Time)

  /** A lot is expired once `now` is strictly after its expiry date; a lot
      without an expiry date never expires. */
  predicate IsExpired(lot: Lot, now: Time) {
    match lot.expiryDate
    case None => false
    case Some(e) => now > e
  }

  /** A lot expires soon when `now + d` is strictly after its expiry date. */
  predicate IsExpiringSoon(lot: Lot, d: Duration, now: Time) {
    match lot.expiryDate
    case None => false
    case Some(e) => now + d > e
  }

  /** An expired lot is also expiring soon, for every non-negative window. */
  lemma ExpiredIsExpiringSoon(lot: Lot, d: Duration, now: Time)
    requires d >= 0
    ensures IsExpired(lot, now) ==> IsExpiringSoon(lot, d, now)
  {
  }

  /** Widening the window never turns "expiring soon" off. */
  lemma ExpiringSoonMonotone(lot: Lot, d1: Duration, d2: Duration, now: Time)
    requires d1 <= d2
    ensures IsExpiringSoon(lot, d1, now) ==> IsExpiringSoon(lot, d2, now)
  {
  }

  // ---------------------------------------------------------------------
  // Alerts
  // ---------------------------------------------------------------------

  const LowStockAlert: string := "low_stock"
  const OverStockAlert: string := "over_stock"
  const ExpiringAlert: string := "expiring"
  const ExpiredAlert: string := "expired"
  const DiscrepancyAlert: string := "discrepancy"

  /** The text of an alert. The core builds its messages from a template and
      the values below; `FreeText` is any other text. */
  datatype AlertMessage =
    | LowStockText(itemId: string, locationId: string, current: Int64, threshold: Int64)
    | ExpiryText(lotNumber: string, days: Int64)
    | FreeText(text: string)

  datatype StockAlert = StockAlert(
    id: nat,
    kind: string,
    itemId: string,
    locationId: string,
    currentQty: Int64,
    threshold: Int64,
    message: AlertMessage,
    isActive: bool,
    createdAt: Time,
    resolvedAt: Option<Time>)

  // ---------------------------------------------------------------------
  // Batches
  // ---------------------------------------------------------------------

  const AddOp: string := "add"
  const RemoveOp: string := "remove"
  const TransferOp: string := "transfer"
  const AdjustOp: string := "adjust"

  datatype InventoryOperation = InventoryOperation(
    kind: string,
    itemId: string,
    locationId: string,
    quantity: Int64,
    reference: string,
    toLocationId: Option<string>)

  datatype BatchStatus = Pending | Completed | Failed

  datatype BatchOperationError = BatchOperationError(operationIndex: nat, error: Error)

  datatype BatchOperation = BatchOperation(
    id: string,
    operations: seq<InventoryOperation>,
    status: BatchStatus,
    successCount: nat,
    failureCount: nat,
    errors: seq<BatchOperationError>,
    createdAt: Time,
    completedAt: Option<Time>)

  // ---------------------------------------------------------------------
  // Errors
  // ---------------------------------------------------------------------

  /** Why a field failed validation. */
  datatype Reason =
    | Empty | TooLong | InvalidChars | Negative | OutOfRange | NotPositive
    | SameLocation | BadDateRange | InvalidKind | Blank | Missing

  /** Errors created with a plain formatted message rather than a sentinel. */
  datatype Failure =
    | UnknownMethod | NoAverageData | NoStandardCost
    | NoToLocation | UnknownOperation | NoExpiryDate

  datatype Error =
    // sentinels
    | ItemNotFound
    | LocationNotFound
    | InsufficientStock
    | StockNotFound
    | VersionMismatch
    | LotNotFound
    | ExpiredLot
    | InsufficientReservation
    // errors the store reports
    | StockExists
    | AlertNotFound
    | WriteFailed
    | NegativeLimit
    | SumOutOfRange
    // structured errors
    | Validation(field: string, reason: Reason)
    | BusinessRule(rule: string)
    | Storage(operation: string, cause: Error)
    | Formatted(failure: Failure)
    | Wrapped(cause: Error)
}
