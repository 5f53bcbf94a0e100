/** Field and record validators. Every validator returns `None` when the value
    is acceptable and `Some(Validation(field, reason))` for the first rule the
    value breaks. Lengths are byte lengths of the UTF-8 encoding, as Go's
    `len` on a string counts them. */
module Validation {
  import opened Wrappers
  import opened Types

  // ---------------------------------------------------------------------
  // Characters and strings
  // ---------------------------------------------------------------------

  /** Bytes the UTF-8 encoding of `c` takes. */
  function RuneLen(c: char): (n: nat)
    ensures 1 <= n <= 4
    ensures n == 1 <==> c as int < 0x80
  {
    if c as int < 0x80 then 1
    else if c as int < 0x800 then 2
    else if c as int < 0x1_0000 then 3
    else 4
  }

  /** Length in bytes of the UTF-8 encoding of `s` (Go's `len(s)`). */
  function ByteLen(s: string): (n: nat)
    ensures |s| <= n <= 4 * |s|
  {
    if s == [] then 0 else RuneLen(s[0]) + ByteLen(s[1..])
  }

  /** Every rune of `s` is ASCII. */
  function IsASCII(s: string): (r: bool)
    ensures r <==> ByteLen(s) == |s|
  {
    AsciiIffOneBytePerRune(s);
    forall i :: 0 <= i < |s| ==> s[i] as int <= 0x7F
  }

  /** A string is ASCII exactly when its UTF-8 encoding has one byte per rune. */
  lemma {:induction false} AsciiIffOneBytePerRune(s: string)
    ensures (forall i :: 0 <= i < |s| ==> s[i] as int <= 0x7F) <==> ByteLen(s) == |s|
  {
    if s != [] {
      AsciiIffOneBytePerRune(s[1..]);
      assert forall i :: 1 <= i < |s| ==> s[i] == s[1..][i - 1];
    }
  }

  /** Go's `unicode.IsSpace`. */
  predicate IsSpace(c: char) {
    var n := c as int;
    (0x09 <= n <= 0x0D) || n == 0x20 || n == 0x85 || n == 0xA0 || n == 0x1680
    || (0x2000 <= n <= 0x200A) || n == 0x2028 || n == 0x2029 || n == 0x202F
    || n == 0x205F || n == 0x3000
  }

  /** Number of leading white-space runes. */
  function TrimStart(s: string): (a: nat)
    ensures a <= |s|
    ensures forall i :: 0 <= i < a ==> IsSpace(s[i])
    ensures a < |s| ==> !IsSpace(s[a])
  {
    if s == [] || !IsSpace(s[0]) then 0 else 1 + TrimStart(s[1..])
  }

  /** Index just past the last rune that is not white space (0 if none). */
  function TrimEnd(s: string): (b: nat)
    ensures b <= |s|
    ensures forall i :: b <= i < |s| ==> IsSpace(s[i])
    ensures b > 0 ==> !IsSpace(s[b - 1])
  {
    if s == [] || !IsSpace(s[|s| - 1]) then |s| else TrimEnd(s[..|s| - 1])
  }

  /** Go's `strings.TrimSpace`: `s` without leading and trailing white space. */
  function TrimSpace(s: string): (r: string)
    ensures |r| <= |s|
    ensures r == [] <==> forall i :: 0 <= i < |s| ==> IsSpace(s[i])
    ensures r != [] ==> !IsSpace(r[0]) && !IsSpace(r[|r| - 1])
  {
    var a := TrimStart(s);
    var t := s[a..];
    TrimmedEnds(s, a, t, TrimEnd(t));
    t[..TrimEnd(t)]
  }

  /** The two trims together leave either nothing, when every rune is white
      space, or a slice whose first and last runes are not. */
  lemma TrimmedEnds(s: string, a: nat, t: string, b: nat)
    requires a == TrimStart(s) && a <= |s| && t == s[a..] && b == TrimEnd(t)
    ensures b == 0 <==> forall i :: 0 <= i < |s| ==> IsSpace(s[i])
    ensures b > 0 ==> !IsSpace(t[0]) && !IsSpace(t[b - 1])
  {
    assert a < |s| ==> t[0] == s[a];
  }

  /** A character allowed in identifiers: `[a-zA-Z0-9_-]`. */
  predicate IdentChar(c: char) {
    ('a' <= c <= 'z') || ('A' <= c <= 'Z') || ('0' <= c <= '9') || c == '_' || c == '-'
  }

  /** A character allowed in SKUs and lot numbers: `[a-zA-Z0-9_.-]`. */
  predicate CodeChar(c: char) {
    IdentChar(c) || c == '.'
  }

  /** Identifier and code characters are single-byte, so the byte length of a
      string made of them is its rune count. */
  lemma CodeCharsByteLen(s: string)
    ensures (forall i :: 0 <= i < |s| ==> CodeChar(s[i])) ==> ByteLen(s) == |s|
  {
    AsciiIffOneBytePerRune(s);
  }

  // ---------------------------------------------------------------------
  // Field validators
  // ---------------------------------------------------------------------

  const MaxIdLen: nat := 255
  const MaxNameLen: nat := 500
  const MaxDescriptionLen: nat := 2000
  const MaxReferenceLen: nat := 500
  const MaxQuantity: int := 999_999_999
  const MaxUnitCost: real := 999999.9999
  const MaxThreshold: int := 999_999_999
  const MaxCapacity: int := 999_999_999_999

  /** The identifier rule shared by item and location ids: non-empty, at most
      255 bytes, only `[a-zA-Z0-9_-]`. */
  function ValidateIdentifier(field: string, s: string): (r: Option<Error>)
    ensures r.None? <==> 1 <= |s| <= MaxIdLen && forall i :: 0 <= i < |s| ==> IdentChar(s[i])
    ensures r == Some(Validation(field, Empty)) <==> s == []
    ensures r.Some? ==> r.value.Validation? && r.value.field == field
  {
    CodeCharsByteLen(s);
    if s == [] then Some(Validation(field, Empty))
    else if ByteLen(s) > MaxIdLen then Some(Validation(field, TooLong))
    else if !(forall i :: 0 <= i < |s| ==> IdentChar(s[i])) then Some(Validation(field, InvalidChars))
    else None
  }

  function ValidateItemID(id: string): (r: Option<Error>)
    ensures r.None? <==> 1 <= |id| <= MaxIdLen && forall i :: 0 <= i < |id| ==> IdentChar(id[i])
    ensures r.Some? ==> r.value.Validation? && r.value.field == "item_id"
  {
    ValidateIdentifier("item_id", id)
  }

  function ValidateLocationID(id: string): (r: Option<Error>)
    ensures r.None? <==> 1 <= |id| <= MaxIdLen && forall i :: 0 <= i < |id| ==> IdentChar(id[i])
    ensures r.Some? ==> r.value.Validation? && r.value.field == "location_id"
  {
    ValidateIdentifier("location_id", id)
  }

  /** Quantity rule: negative values only when allowed, and never beyond
      999,999,999 in magnitude. The sign check comes first. */
  function ValidateQuantity(q: Int64, allowNegative: bool): (r: Option<Error>)
    ensures r.None? <==> -MaxQuantity <= q <= MaxQuantity && (allowNegative || q >= 0)
    ensures r == Some(Validation("quantity", Negative)) <==> !allowNegative && q < 0
    ensures r.Some? ==> r.value.Validation? && r.value.field == "quantity"
  {
    if !allowNegative && q < 0 then Some(Validation("quantity", Negative))
    else if q < -MaxQuantity || q > MaxQuantity then Some(Validation("quantity", OutOfRange))
    else None
  }

  /** Allowing negative quantities only ever accepts more. */
  lemma QuantityAllowNegativeWeakens(q: Int64)
    ensures ValidateQuantity(q, false).None? ==> ValidateQuantity(q, true).None?
    ensures q < 0 ==> ValidateQuantity(q, false).Some?
  {
  }

  /** The name rule shared by item and location names: not blank after
      trimming white space, at most 500 bytes. */
  function ValidateName(s: string): (r: Option<Error>)
    ensures r.None? <==> (exists i :: 0 <= i < |s| && !IsSpace(s[i])) && ByteLen(s) <= MaxNameLen
    ensures r == Some(Validation("name", Blank)) <==> forall i :: 0 <= i < |s| ==> IsSpace(s[i])
  {
    if TrimSpace(s) == [] then Some(Validation("name", Blank))
    else if ByteLen(s) > MaxNameLen then Some(Validation("name", TooLong))
    else None
  }

  function ValidateItemName(name: string): (r: Option<Error>)
    ensures r.None? <==> (exists i :: 0 <= i < |name| && !IsSpace(name[i])) && ByteLen(name) <= MaxNameLen
  {
    ValidateName(name)
  }

  function ValidateLocationName(name: string): (r: Option<Error>)
    ensures r.None? <==> (exists i :: 0 <= i < |name| && !IsSpace(name[i])) && ByteLen(name) <= MaxNameLen
  {
    ValidateName(name)
  }

  /** An optional free-text field: empty is fine, otherwise at most `max`
      bytes. The emptiness short-cut never changes the verdict. */
  function ValidateOptionalText(field: string, s: string, max: nat): (r: Option<Error>)
    ensures r.None? <==> ByteLen(s) <= max
    ensures r.Some? ==> r == Some(Validation(field, TooLong))
  {
    if s == [] then None
    else if ByteLen(s) > max then Some(Validation(field, TooLong))
    else None
  }

  function ValidateCategory(category: string): (r: Option<Error>)
    ensures r.None? <==> ByteLen(category) <= MaxIdLen
  {
    ValidateOptionalText("category", category, MaxIdLen)
  }

  function ValidateDescription(description: string): (r: Option<Error>)
    ensures r.None? <==> ByteLen(description) <= MaxDescriptionLen
  {
    ValidateOptionalText("description", description, MaxDescriptionLen)
  }

  function ValidateReference(reference: string): (r: Option<Error>)
    ensures r.None? <==> ByteLen(reference) <= MaxReferenceLen
  {
    ValidateOptionalText("reference", reference, MaxReferenceLen)
  }

  /** A code (SKU or lot number) that is present: at most 255 bytes of
      `[a-zA-Z0-9_.-]`. */
  function ValidateCode(field: string, s: string): (r: Option<Error>)
    requires s != []
    ensures r.None? <==> |s| <= MaxIdLen && forall i :: 0 <= i < |s| ==> CodeChar(s[i])
    ensures r.Some? ==> r.value.Validation? && r.value.field == field
  {
    CodeCharsByteLen(s);
    if ByteLen(s) > MaxIdLen then Some(Validation(field, TooLong))
    else if !(forall i :: 0 <= i < |s| ==> CodeChar(s[i])) then Some(Validation(field, InvalidChars))
    else None
  }

  /** SKUs are optional; a present SKU follows the code rule. */
  function ValidateSKU(sku: string): (r: Option<Error>)
    ensures r.None? <==> sku == [] || (|sku| <= MaxIdLen && forall i :: 0 <= i < |sku| ==> CodeChar(sku[i]))
  {
    if sku == [] then None else ValidateCode("sku", sku)
  }

  /** Lot numbers are mandatory; otherwise they follow the code rule. */
  function ValidateLotNumber(number: string): (r: Option<Error>)
    ensures r.None? <==> 1 <= |number| <= MaxIdLen && forall i :: 0 <= i < |number| ==> CodeChar(number[i])
    ensures r == Some(Validation("lot_number", Empty)) <==> number == []
  {
    if number == [] then Some(Validation("lot_number", Empty)) else ValidateCode("lot_number", number)
  }

  /** A lot number is valid exactly when it is a non-empty valid SKU. */
  lemma LotNumberIsMandatorySku(s: string)
    ensures ValidateLotNumber(s).None? <==> s != [] && ValidateSKU(s).None?
  {
  }

  /** A non-negative integer bounded by `max`; the sign check comes first. */
  function ValidateBounded(field: string, x: int, max: int): (r: Option<Error>)
    ensures r.None? <==> 0 <= x <= max
    ensures r == Some(Validation(field, Negative)) <==> x < 0
    ensures r.Some? ==> r.value.Validation? && r.value.field == field
  {
    if x < 0 then Some(Validation(field, Negative))
    else if x > max then Some(Validation(field, OutOfRange))
    else None
  }

  function ValidateUnitCost(cost: real): (r: Option<Error>)
    ensures r.None? <==> 0.0 <= cost <= MaxUnitCost
    ensures r == Some(Validation("unit_cost", Negative)) <==> cost < 0.0
  {
    if cost < 0.0 then Some(Validation("unit_cost", Negative))
    else if cost > MaxUnitCost then Some(Validation("unit_cost", OutOfRange))
    else None
  }

  function ValidateThreshold(threshold: Int64): (r: Option<Error>)
    ensures r.None? <==> 0 <= threshold <= MaxThreshold
  {
    ValidateBounded("threshold", threshold, MaxThreshold)
  }

  function ValidateCapacity(capacity: Int64): (r: Option<Error>)
    ensures r.None? <==> 0 <= capacity <= MaxCapacity
  {
    ValidateBounded("capacity", capacity, MaxCapacity)
  }

  function ValidateVersion(version: Int64): (r: Option<Error>)
    ensures r.None? <==> version >= 1
  {
    if version < 1 then Some(Validation("version", NotPositive)) else None
  }

  function ValidateUserID(user: string): (r: Option<Error>)
    ensures r.None? <==> 1 <= ByteLen(user) <= MaxIdLen
    ensures r == Some(Validation("user_id", Empty)) <==> user == []
  {
    if user == [] then Some(Validation("user_id", Empty))
    else if ByteLen(user) > MaxIdLen then Some(Validation("user_id", TooLong))
    else None
  }

  /** Membership of a kind in a fixed list of accepted kinds. */
  function ValidateKind(field: string, kind: string, accepted: seq<string>): (r: Option<Error>)
    ensures r.None? <==> kind in accepted
    ensures r.Some? ==> r == Some(Validation(field, InvalidKind))
  {
    if kind in accepted then None else Some(Validation(field, InvalidKind))
  }

  function ValidateTransactionType(kind: string): (r: Option<Error>)
    ensures r.None? <==> kind == Inbound || kind == Outbound || kind == TransferKind || kind == AdjustKind
  {
    ValidateKind("transaction_type", kind, [Inbound, Outbound, TransferKind, AdjustKind])
  }

  function ValidateAlertType(kind: string): (r: Option<Error>)
    ensures r.None? <==> kind == LowStockAlert || kind == OverStockAlert || kind == ExpiringAlert
                         || kind == ExpiredAlert || kind == DiscrepancyAlert
  {
    ValidateKind("alert_type", kind, [LowStockAlert, OverStockAlert, ExpiringAlert, ExpiredAlert, DiscrepancyAlert])
  }

  function ValidateOperationType(kind: string): (r: Option<Error>)
    ensures r.None? <==> kind == AddOp || kind == RemoveOp || kind == TransferOp || kind == AdjustOp
  {
    ValidateKind("operation_type", kind, [AddOp, RemoveOp, TransferOp, AdjustOp])
  }

  // ---------------------------------------------------------------------
  // Record validators
  // ---------------------------------------------------------------------

  /** Sequencing of two checks: the first failure wins, as in a chain of
      `if err := ...; err != nil { return err }`. */
  function OrElse(first: Option<Error>, second: Option<Error>): (r: Option<Error>)
    ensures r.None? <==> first.None? && second.None?
    ensures first.Some? ==> r == first
    ensures first.None? ==> r == second
  {
    if first.Some? then first else second
  }

  /** An item is valid when its id, name, SKU, category, description and
      unit cost are; the first failing field is reported. */
  function ValidateItem(item: Item): (r: Option<Error>)
    ensures r.None? <==>
      && ValidateItemID(item.id).None?
      && ValidateItemName(item.name).None?
      && ValidateSKU(item.sku).None?
      && ValidateCategory(item.category).None?
      && ValidateDescription(item.description).None?
      && ValidateUnitCost(item.unitCost).None?
    ensures ValidateItemID(item.id).Some? ==> r == ValidateItemID(item.id)
  {
    OrElse(ValidateItemID(item.id),
    OrElse(ValidateItemName(item.name),
    OrElse(ValidateSKU(item.sku),
    OrElse(ValidateCategory(item.category),
    OrElse(ValidateDescription(item.description),
           ValidateUnitCost(item.unitCost))))))
  }

  function ValidateLocation(location: Location): (r: Option<Error>)
    ensures r.None? <==>
      && ValidateLocationID(location.id).None?
      && ValidateLocationName(location.name).None?
      && ValidateCapacity(location.capacity).None?
    ensures ValidateLocationID(location.id).Some? ==> r == ValidateLocationID(location.id)
  {
    OrElse(ValidateLocationID(location.id),
    OrElse(ValidateLocationName(location.name),
           ValidateCapacity(location.capacity)))
  }

  /** A stock record is valid when its keys are, its quantity is (negative
      only when allowed), its reservation is non-negative, its version is at
      least 1 and it names its last writer. */
  function ValidateStock(s: Stock, allowNegative: bool): (r: Option<Error>)
    ensures r.None? <==>
      && ValidateItemID(s.itemId).None?
      && ValidateLocationID(s.locationId).None?
      && ValidateQuantity(s.quantity, allowNegative).None?
      && 0 <= s.reserved <= MaxQuantity
      && s.version >= 1
      && ValidateUserID(s.updatedBy).None?
    ensures ValidateItemID(s.itemId).Some? ==> r == ValidateItemID(s.itemId)
  {
    OrElse(ValidateItemID(s.itemId),
    OrElse(ValidateLocationID(s.locationId),
    OrElse(ValidateQuantity(s.quantity, allowNegative),
    OrElse(ValidateQuantity(s.reserved, false),
    OrElse(ValidateVersion(s.version),
           ValidateUserID(s.updatedBy))))))
  }

  function ValidateLot(lot: Lot): (r: Option<Error>)
    ensures r.None? <==>
      && ValidateItemID(lot.itemId).None?
      && ValidateLotNumber(lot.number).None?
      && 0 <= lot.quantity <= MaxQuantity
      && 0.0 <= lot.unitCost <= MaxUnitCost
    ensures ValidateItemID(lot.itemId).Some? ==> r == ValidateItemID(lot.itemId)
  {
    OrElse(ValidateItemID(lot.itemId),
    OrElse(ValidateLotNumber(lot.number),
    OrElse(ValidateQuantity(lot.quantity, false),
           ValidateUnitCost(lot.unitCost))))
  }

  /** Validates an optional value with `check` only when it is present. */
  function WhenPresent<T>(o: Option<T>, check: T -> Option<Error>): (r: Option<Error>)
    ensures o.None? ==> r.None?
    ensures o.Some? ==> r == check(o.value)
  {
    match o
    case None => None
    case Some(v) => check(v)
  }

  /** The lot number of a journal entry is checked only when it is present
      and not empty. */
  function ValidateOptionalLotNumber(lot: Option<string>): (r: Option<Error>)
    ensures r.None? <==> lot.None? || lot.value == [] || ValidateLotNumber(lot.value).None?
  {
    match lot
    case None => None
    case Some(n) => if n == [] then None else ValidateLotNumber(n)
  }

  /** A journal entry is valid when its kind, item, quantity (of either
      sign), reference and author are, and so are the optional locations,
      lot number and unit cost it carries. */
  function ValidateTransaction(tx: Transaction): (r: Option<Error>)
    ensures r.None? <==>
      && ValidateTransactionType(tx.kind).None?
      && ValidateItemID(tx.itemId).None?
      && -MaxQuantity <= tx.quantity <= MaxQuantity
      && ValidateReference(tx.reference).None?
      && ValidateUserID(tx.createdBy).None?
      && (tx.from.Some? ==> ValidateLocationID(tx.from.value).None?)
      && (tx.to.Some? ==> ValidateLocationID(tx.to.value).None?)
      && ValidateOptionalLotNumber(tx.lotNumber).None?
      && (tx.unitCost.Some? ==> 0.0 <= tx.unitCost.value <= MaxUnitCost)
    ensures ValidateTransactionType(tx.kind).Some? ==> r == ValidateTransactionType(tx.kind)
  {
    OrElse(ValidateTransactionType(tx.kind),
    OrElse(ValidateItemID(tx.itemId),
    OrElse(ValidateQuantity(tx.quantity, true),
    OrElse(ValidateReference(tx.reference),
    OrElse(ValidateUserID(tx.createdBy),
    OrElse(WhenPresent(tx.from, ValidateLocationID),
    OrElse(WhenPresent(tx.to, ValidateLocationID),
    OrElse(ValidateOptionalLotNumber(tx.lotNumber),
           WhenPresent(tx.unitCost, ValidateUnitCost)))))))))
  }

  /** An alert message is blank when it is free text made only of white
      space; the templated messages always carry text. */
  predicate BlankMessage(m: AlertMessage) {
    m.FreeText? && TrimSpace(m.text) == []
  }

  function ValidateStockAlert(a: StockAlert): (r: Option<Error>)
    ensures r.None? <==>
      && ValidateAlertType(a.kind).None?
      && ValidateItemID(a.itemId).None?
      && ValidateLocationID(a.locationId).None?
      && -MaxQuantity <= a.currentQty <= MaxQuantity
      && 0 <= a.threshold <= MaxThreshold
      && !(a.message.FreeText? && forall i :: 0 <= i < |a.message.text| ==> IsSpace(a.message.text[i]))
    ensures ValidateAlertType(a.kind).Some? ==> r == ValidateAlertType(a.kind)
  {
    OrElse(ValidateAlertType(a.kind),
    OrElse(ValidateItemID(a.itemId),
    OrElse(ValidateLocationID(a.locationId),
    OrElse(ValidateQuantity(a.currentQty, true),
    OrElse(ValidateThreshold(a.threshold),
           if BlankMessage(a.message) then Some(Validation("message", Blank)) else None)))))
  }
}
