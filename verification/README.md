# Inventory core in Dafny

A model of the inventory package `pkg/inventory` of a Go warehouse service, and
proofs about it. The package keeps stock records per (item, location) under
optimistic locking. It journals every movement and raises low-stock and expiry
alerts. On top of that it runs batches of operations, values stock by FIFO,
LIFO, weighted average or standard cost, classifies items by the ABC rule, and
tracks lots.

The model is functional. The PostgreSQL store becomes an immutable `Db` value
(`Store`). Each manager call is a function from a `Db` to an `Outcome`, which
is the new `Db` plus the error the call returns (`Ledger`). What the Go code
reads from its surroundings is an explicit `Env` argument:

- the clock;
- the user in the request context;
- whether journal and alert inserts go through;
- which stock writes the database rejects, given as (key, version) pairs.

| module | models |
|---|---|
| `Wrappers` | `Option` and `Result` |
| `Types` | types.go and errors.go: the entities and errors; Go's int64 wrap-around as `Wrap64`; lot expiry |
| `Seqs` | filtering, reversal, truncation and a stable sort by a real key |
| `Validation` | validation.go |
| `Store` | storage/postgres.go as an in-memory store: a compare-and-swap stock update on `version`, an append-only journal with its history queries, alerts and lots |
| `Ledger` | manager.go: Add, Remove, Transfer (with its compensating rollback), Adjust, Reserve, ReleaseReservation and the queries |
| `LedgerProperties` | inverse pairs, the effect of a transfer, rollback, conservation of an item's total, and invariants that every operation keeps |
| `Batch` | ExecuteBatch as a fold of the operations over the store, and the error list it builds |
| `Valuation` | the valuation engine of valuation.go |
| `Analytics` | the analytics engine of valuation.go: ABC classification and slow-moving items |
| `Tracking` | tracking.go |
| `Concurrency` | writers that read a record and write it back under optimistic locking, interleaved by an arbitrary schedule |

### Representation choices

- **Integers.** Go `int64` arithmetic on quantities and versions wraps around.
  The model writes that out with `Wrap64`. Properties that need exact
  arithmetic state their no-overflow premise.
- **Monetary values.** Go `float64` values are exact `real`s.
- **Identifiers.** Generated UUIDs become positions. A journal entry, alert or
  lot is identified by its index at the moment it is appended.
- **"Newest first".** The stored order is reversed. Under a monotone clock this
  is proved to be descending by creation time.

## Model

| member | source | states |
|---|---|---|
| `Types.Wrap64` | pkg/inventory/manager.go:179-181 | int64 arithmetic: the identity on values that fit in int64; a value above the range comes back smaller, and one below it comes back larger |
| `Types.Wrap64Congruent` | pkg/inventory/manager.go:179-181 | the wrapped value differs from the exact one by a multiple of 2^64 |
| `Types.Wrap64AddLeft` | pkg/inventory/manager.go:628-629 | wrapping an intermediate sum does not change the wrapped final sum (int64 addition is addition modulo 2^64) |
| `Types.CalculateAvailable` | pkg/inventory/types.go:183-185 | the record afterwards has `available` derived from quantity and reserved; without overflow, available + reserved == quantity; no other field changes |
| `Types.ExpiredIsExpiringSoon` | pkg/inventory/types.go:189-203 | for a non-negative window, an expired lot is also expiring soon |
| `Types.ExpiringSoonMonotone` | pkg/inventory/types.go:198-203 | widening the window never turns "expiring soon" off |
| `Seqs.Filter` | pkg/inventory/valuation.go:180-189 | the result holds exactly the elements of the input that pass the test, and all of them pass |
| `Seqs.FilterAppend` | pkg/inventory/valuation.go:180-189 | filtering a concatenation is the concatenation of the filtered parts |
| `Seqs.SortBy` | pkg/inventory/valuation.go:119-122 | the result is a permutation of the input (same multiset) and ascends by the key |
| `Seqs.Insert` | pkg/inventory/valuation.go:119-122 | inserting into an ascending sequence keeps it ascending and adds exactly that element to the multiset |
| `Seqs.FilterDescending` | pkg/inventory/storage/postgres.go:242-291 | filtering a newest-first sequence keeps it newest first |
| `Seqs.ReverseAscending` | pkg/inventory/storage/postgres.go:242-291 | reversing an ascending sequence gives a descending one |
| `Validation.ByteLen` | pkg/inventory/validation.go:42 | Go's `len` of a string is its UTF-8 byte length, between 1 and 4 bytes per character |
| `Validation.IsASCII` | pkg/inventory/validation.go:415-422 | true exactly when every character takes one byte |
| `Validation.AsciiIffOneBytePerRune` | pkg/inventory/validation.go:415-422 | all characters are at most 0x7F iff the byte length equals the character count |
| `Validation.TrimSpace` | pkg/inventory/validation.go:39 | the trimmed string is empty iff every character is white space; otherwise it starts and ends with a non-space |
| `Validation.ValidateIdentifier` | pkg/inventory/validation.go:11-24 | accepted iff 1 to 255 characters, all letters, digits, `_` or `-`; the empty string gives the Empty error; every error names the field |
| `Validation.ValidateItemID` | pkg/inventory/validation.go:11-24 | the identifier rule under the field name `item_id` |
| `Validation.ValidateLocationID` | pkg/inventory/validation.go:49-62 | the identifier rule under the field name `location_id` |
| `Validation.ValidateQuantity` | pkg/inventory/validation.go:27-35 | accepted iff within ±999,999,999 and non-negative unless negatives are allowed; a negative value refused for sign gets the Negative reason |
| `Validation.QuantityAllowNegativeWeakens` | pkg/inventory/validation.go:27-35 | allowing negatives accepts everything accepted without, and a negative is refused when negatives are not allowed |
| `Validation.ValidateName` | pkg/inventory/validation.go:38-46 | accepted iff some character is not white space and the byte length is at most 500; all-blank gives Blank |
| `Validation.ValidateItemName` | pkg/inventory/validation.go:38-46 | the name rule for items |
| `Validation.ValidateLocationName` | pkg/inventory/validation.go:65-73 | the name rule for locations |
| `Validation.ValidateOptionalText` | pkg/inventory/validation.go:92-122 | accepted iff the byte length is within the limit (the empty string always); otherwise TooLong on the field |
| `Validation.ValidateCategory` | pkg/inventory/validation.go:92-100 | accepted iff at most 255 bytes |
| `Validation.ValidateDescription` | pkg/inventory/validation.go:103-111 | accepted iff at most 2000 bytes |
| `Validation.ValidateReference` | pkg/inventory/validation.go:114-122 | accepted iff at most 500 bytes |
| `Validation.CodeCharsByteLen` | pkg/inventory/validation.go:80-86 | a string of code characters has one byte per character, so the byte limit is a character limit |
| `Validation.ValidateSKU` | pkg/inventory/validation.go:76-89 | accepted iff empty, or at most 255 characters from letters, digits, `_`, `.` and `-` |
| `Validation.ValidateLotNumber` | pkg/inventory/validation.go:125-138 | accepted iff 1 to 255 code characters; empty gives Empty |
| `Validation.LotNumberIsMandatorySku` | pkg/inventory/validation.go:76-138 | a lot number is valid iff it is non-empty and valid as a SKU |
| `Validation.ValidateBounded` | pkg/inventory/validation.go:141-171 | accepted iff 0 <= x <= max; a negative value gets Negative; every error names the field |
| `Validation.ValidateUnitCost` | pkg/inventory/validation.go:141-149 | accepted iff 0 <= cost <= 999,999.9999; a negative cost gets Negative |
| `Validation.ValidateThreshold` | pkg/inventory/validation.go:152-160 | accepted iff 0 <= threshold <= 999,999,999 |
| `Validation.ValidateCapacity` | pkg/inventory/validation.go:163-171 | accepted iff 0 <= capacity <= 999,999,999,999 |
| `Validation.ValidateVersion` | pkg/inventory/validation.go:174-179 | accepted iff version >= 1 |
| `Validation.ValidateUserID` | pkg/inventory/validation.go:182-190 | accepted iff 1 to 255 bytes; empty gives Empty |
| `Validation.ValidateKind` | pkg/inventory/validation.go:193-235 | accepted iff the kind is one of the listed ones; otherwise InvalidKind on the field |
| `Validation.ValidateTransactionType` | pkg/inventory/validation.go:193-205 | accepted iff inbound, outbound, transfer or adjust |
| `Validation.ValidateAlertType` | pkg/inventory/validation.go:208-220 | accepted iff one of the five declared alert kinds: low_stock, over_stock, expiring, expired or discrepancy |
| `Validation.ValidateOperationType` | pkg/inventory/validation.go:223-235 | accepted iff add, remove, transfer or adjust |
| `Validation.OrElse` | pkg/inventory/validation.go:238-263 | the first failing check wins; no error iff both pass |
| `Validation.ValidateItem` | pkg/inventory/validation.go:238-263 | accepted iff id, name, SKU, category, description and unit cost all pass; a bad id is reported first |
| `Validation.ValidateLocation` | pkg/inventory/validation.go:266-282 | accepted iff id, name and capacity pass; a bad id is reported first |
| `Validation.ValidateStock` | pkg/inventory/validation.go:285-310 | accepted iff both ids pass, the quantity passes (negative only when allowed), 0 <= reserved <= 999,999,999, version >= 1 and the updater id passes; a bad item id is reported first |
| `Validation.ValidateLot` | pkg/inventory/validation.go:313-332 | accepted iff item id and lot number pass, 0 <= quantity <= 999,999,999 and the unit cost is in range; a bad item id is reported first |
| `Validation.WhenPresent` | pkg/inventory/validation.go:357-381 | an absent optional field passes; a present one is checked |
| `Validation.ValidateOptionalLotNumber` | pkg/inventory/validation.go:369-373 | accepted iff absent, empty or a valid lot number |
| `Validation.ValidateTransaction` | pkg/inventory/validation.go:335-383 | accepted iff type, item id, quantity (either sign), reference and user pass, and so do the locations, lot number and unit cost that are present; a bad type is reported first |
| `Validation.ValidateStockAlert` | pkg/inventory/validation.go:386-412 | accepted iff type, both ids, current quantity (either sign) and threshold pass and the message is not blank; a bad type is reported first |
| `Store.GetItem` | pkg/inventory/storage/postgres.go:428-454 | found iff the id is in the catalog, and then it is that item; otherwise ItemNotFound |
| `Store.GetLocation` | pkg/inventory/storage/postgres.go:617-643 | found iff the id is in the catalog, and then it is that location; otherwise LocationNotFound |
| `Store.GetStock` | pkg/inventory/storage/postgres.go:126-152 | found iff the (item, location) key has a record, which carries that key; otherwise StockNotFound |
| `Store.CreateStock` | pkg/inventory/storage/postgres.go:62-86 | succeeds iff the write goes through and the key is new; a duplicate gives StockExists; afterwards the record reads back, a new row is appended and nothing else changes; well-formedness is kept |
| `Store.UpdateStock` | pkg/inventory/storage/postgres.go:90-122 | succeeds iff the row exists with version `s.version - 1`; otherwise VersionMismatch; afterwards the record reads back, rows are unchanged and nothing else changes |
| `Store.GetTotalStockByItem` | pkg/inventory/storage/postgres.go:193-203 | the sum of the item's quantities over all records, and an error iff it does not fit int64 |
| `Store.TotalStockNoRecords` | pkg/inventory/storage/postgres.go:193-203 | an item without records totals 0 (the COALESCE) |
| `Store.QuantitySumUpdate` | pkg/inventory/storage/postgres.go:90-122 | replacing one record changes the item's total by exactly the quantity difference |
| `Store.TotalAfterCreate` | pkg/inventory/storage/postgres.go:62-86 | creating a record adds its quantity to its item's total and leaves other items' totals alone |
| `Store.TotalAfterUpdate` | pkg/inventory/storage/postgres.go:90-122 | updating a record changes its item's total by the quantity difference and leaves other items' totals alone |
| `Store.ListStockByLocation` | pkg/inventory/storage/postgres.go:156-189 | on a well-formed store, exactly the records at the location, each item at most once |
| `Store.CreateTransaction` | pkg/inventory/storage/postgres.go:207-238 | succeeds iff the insert goes through; then the entry is appended and nothing else changes |
| `Store.NewestFirst` | pkg/inventory/storage/postgres.go:242-291 | a permutation of the journal whose first element is the last appended |
| `Store.Limit` | pkg/inventory/storage/postgres.go:242-291 | a negative limit is an error; otherwise the first min(limit, length) elements, and all of them when the limit covers the input |
| `Store.Latest` | pkg/inventory/storage/postgres.go:247-248 | a negative limit is an error; otherwise min(limit, n) elements, the i-th being the i-th last appended |
| `Store.LatestKeepsNewest` | pkg/inventory/storage/postgres.go:247-248 | over a sequence ascending by a key, an element the limit leaves out has a key no larger than any element returned |
| `Store.Query` | pkg/inventory/storage/postgres.go:242-291 | only matching journal entries; min(limit, #matching) of them, the i-th being the i-th newest match; all matches when the limit covers the journal |
| `Store.GetTransactionHistory` | pkg/inventory/storage/postgres.go:242-291 | at most `limit` of the item's journal entries: exactly min(limit, #item entries), the i-th being the item's i-th newest entry; all of them when the limit covers the journal |
| `Store.GetTransactionHistoryByLocation` | pkg/inventory/storage/postgres.go:295-344 | journal entries from or to the location: exactly min(limit, #such entries), the i-th being the i-th newest; all of them when the limit covers the journal |
| `Store.HistoryKeepsNewest` | pkg/inventory/storage/postgres.go:247-248 | under a monotone clock, an item or location entry the limit cuts off is no newer than any entry returned |
| `Store.GetTransactionHistoryByDateRange` | pkg/inventory/storage/postgres.go:348-396 | exactly the item's entries with from <= created_at <= to |
| `Store.HistoryNewestFirst` | pkg/inventory/storage/postgres.go:242-396 | under a monotone clock, all three history queries are sorted newest first |
| `Store.CreateAlert` | pkg/inventory/storage/postgres.go:903-925 | succeeds iff the insert goes through; then the alert is appended and nothing else changes |
| `Store.GetActiveAlerts` | pkg/inventory/storage/postgres.go:929-964 | exactly the active alerts of the location, all of them, the last raised first |
| `Store.ActiveAlertsNewestFirst` | pkg/inventory/storage/postgres.go:929-934 | when alerts are raised in time order, the active alerts come back by created_at descending |
| `Store.ResolveAlert` | pkg/inventory/storage/postgres.go:968-990 | succeeds iff an alert has the id, else AlertNotFound; that alert becomes inactive with its resolution time, and nothing else changes |
| `Store.ResolvedAlertNotActive` | pkg/inventory/storage/postgres.go:929-990 | after resolving, the alert is no longer listed as active, and every other active alert still is |
| `Store.CreateLot` | pkg/inventory/storage/postgres.go:740-760 | succeeds iff the insert goes through; then the lot is appended and nothing else changes |
| `Store.FindLot` | pkg/inventory/storage/postgres.go:764-789 | finds a lot iff one has the id, and what it finds has it |
| `Store.GetLot` | pkg/inventory/storage/postgres.go:764-789 | found iff a lot has the id; otherwise LotNotFound |
| `Store.GetLotsByItem` | pkg/inventory/storage/postgres.go:793-825 | exactly the item's lots, all of them, the last created first |
| `Store.LotsByItemNewestFirst` | pkg/inventory/storage/postgres.go:793-798 | when lots are stored in time order, an item's lots come back by created_at descending |
| `Store.GetExpiringLots` | pkg/inventory/storage/postgres.go:829-862 | exactly the lots with an expiry date at most now + within, ascending by expiry |
| `Store.GetExpiredLots` | pkg/inventory/storage/postgres.go:866-899 | exactly the lots with an expiry date before now, ascending by expiry |
| `Store.ExpiredQueryAgreesWithRule` | pkg/inventory/storage/postgres.go:829-899 | every lot the expired query returns is expired by the lot rule, and every expired lot is among the expiring ones for a non-negative window |
| `Ledger.NewManager` | pkg/inventory/manager.go:40-57 | without a policy: negative stock forbidden, threshold 10, default location "DEFAULT"; a given policy is used as is |
| `Ledger.Actor` | pkg/inventory/manager.go:725-730 | the user from the request, or "system" |
| `Ledger.Build` | pkg/inventory/manager.go:179-184 | the written record has the key and counters given, the clock and actor stamped, and a derived `available` |
| `Ledger.PutKeepsWf` | pkg/inventory/storage/postgres.go:62-122 | writing a record keeps the stock table well formed |
| `Ledger.Entry` | pkg/inventory/manager.go:219-228 | a journal entry carries exactly the kind, item, locations, quantity and reference given, with no unit cost or lot |
| `Ledger.LowStock` | pkg/inventory/manager.go:734-745 | an active, unresolved low_stock alert for the item and location, with the current quantity and the configured threshold |
| `Ledger.ValidateItemAndLocation` | pkg/inventory/manager.go:703-721 | no error iff both exist; a missing item is ItemNotFound, checked before the location's LocationNotFound |
| `Ledger.Record` | pkg/inventory/manager.go:219-232 | appends the entry when the journal is up, and otherwise changes nothing; the failure is swallowed |
| `Ledger.TriggerLowStockAlert` | pkg/inventory/manager.go:734-765 | appends the low-stock alert when alerts are up, and otherwise changes nothing |
| `Ledger.Save` | pkg/inventory/storage/postgres.go:62-122 | the write succeeds iff the database accepts it; then exactly that record is written |
| `Ledger.Add` | pkg/inventory/manager.go:61-150 | non-positive quantity, missing item or location, or a rejected write are errors and change nothing; success iff none applies; a new record gets quantity q, reserved 0, version 1; an existing one gets quantity + q and version + 1; one inbound entry is journalled |
| `Ledger.Remove` | pkg/inventory/manager.go:154-242 | errors in order: quantity, item/location, no record or too little available (InsufficientStock), negative result without permission, rejected write; success writes quantity - q and version + 1, journals one outbound entry, and raises a low-stock alert at or below the threshold |
| `Ledger.Transfer` | pkg/inventory/manager.go:246-320 | the quantity, same-location and source/destination checks come first, and a failing removal is returned as is (success and rollback in `LedgerProperties`) |
| `Ledger.Adjust` | pkg/inventory/manager.go:324-414 | a negative target without permission is refused first; success sets the quantity to n with version + 1 (or creates the record), keeps reserved, and journals n minus the old quantity |
| `Ledger.Reserve` | pkg/inventory/manager.go:611-646 | no record is a storage error wrapping StockNotFound; too little available is InsufficientStock; success raises reserved by q and bumps the version; nothing is journalled |
| `Ledger.ReleaseReservation` | pkg/inventory/manager.go:650-685 | no record is a storage error; more than reserved is InsufficientReservation; success lowers reserved by q and bumps the version |
| `Ledger.GetTotalStock` | pkg/inventory/manager.go:424-445 | an unknown item is ItemNotFound; otherwise the item's total over all locations |
| `Ledger.GetHistoryByLocation` | pkg/inventory/manager.go:461-491 | an empty id and an unknown location are errors; a non-positive limit means 100; the entries are journal entries from or to the location: exactly min(that limit, #such entries), the i-th being the i-th newest; all of them when the limit covers the journal |
| `Ledger.GetHistoryByDateRange` | pkg/inventory/manager.go:495-526 | an empty item id and from > to are errors; otherwise exactly the item's entries in the closed range |
| `LedgerProperties.PutPut` | pkg/inventory/storage/postgres.go:90-122 | a second write of the same key overrides the first |
| `LedgerProperties.SumAfterPut` | pkg/inventory/manager.go:424-445 | the item total after a write, in terms of the total before |
| `LedgerProperties.PutKeepsDerived` | pkg/inventory/types.go:183-185 | writing a derived record keeps every record derived |
| `LedgerProperties.NegativeCheckUnreachable` | pkg/inventory/manager.go:173-189 | with a non-negative reservation and exact `available`, the negative-stock refusal never fires |
| `LedgerProperties.NegativeCheckReachableUnderWrap` | pkg/inventory/manager.go:173-189 | a concrete record whose `available` wrapped around reaches the negative-stock refusal |
| `LedgerProperties.DebitCredited` | pkg/inventory/manager.go:61-242 | removing q right after a credit of q restores quantity, reserved and available; the version has moved on by two |
| `LedgerProperties.AddThenRemove` | pkg/inventory/manager.go:61-242 | Remove undoes Add on an existing record: the counters come back and the version is +2 |
| `LedgerProperties.ReleaseReserved` | pkg/inventory/manager.go:611-685 | releasing q right after reserving q writes back the original counters with version +2 |
| `LedgerProperties.ReleaseHeld` | pkg/inventory/manager.go:650-685 | releasing at most the reserved amount succeeds and lowers reserved by q |
| `LedgerProperties.ReserveThenRelease` | pkg/inventory/manager.go:611-685 | ReleaseReservation undoes Reserve: the record is rewritten from its original quantity and reservation, with version +2, `available` recomputed and fresh stamps; nothing else changes |
| `LedgerProperties.AdjustTwice` | pkg/inventory/manager.go:324-414 | adjusting to the same quantity twice keeps the quantity and journals a zero difference |
| `LedgerProperties.TransferSucceeded` | pkg/inventory/manager.go:246-320 | a successful transfer had distinct locations, a successful removal and a successful addition |
| `LedgerProperties.TransferCompensated` | pkg/inventory/manager.go:268-275 | when the addition fails, the result is the compensating addition's state with the addition's error |
| `LedgerProperties.Credited` | pkg/inventory/manager.go:61-150 | the destination record a transfer writes carries its key and a derived `available` |
| `LedgerProperties.Debited` | pkg/inventory/manager.go:178-184 | the source record a removal writes has quantity - q and the same reservation |
| `LedgerProperties.RemoveState` | pkg/inventory/manager.go:154-242 | the state after a successful removal: the debited record, one outbound entry, possibly a low-stock alert |
| `LedgerProperties.AddState` | pkg/inventory/manager.go:61-150 | the state after a successful addition: the credited record and one inbound entry |
| `LedgerProperties.CreditAfterDebit` | pkg/inventory/manager.go:263-275 | the state after the two legs of a transfer, in terms of the original state |
| `LedgerProperties.TransferEffect` | pkg/inventory/manager.go:246-320 | a successful transfer writes exactly the debited source and the credited destination, journals outbound, inbound and transfer entries with consecutive ids, and raises the source's low-stock alert if due |
| `LedgerProperties.TransferPreservesTotal` | pkg/inventory/manager.go:246-320 | without wrap-around, a successful transfer keeps the item's total over all locations |
| `LedgerProperties.MoveKeepsSum` | pkg/inventory/manager.go:246-320 | debiting q at one location and crediting q at another keeps the item's total |
| `LedgerProperties.RollbackSteps` | pkg/inventory/manager.go:268-275 | when the destination write is refused, the transfer's state is the compensation's state and its error is the destination's |
| `LedgerProperties.RestoredAfterDebit` | pkg/inventory/manager.go:268-275 | crediting q back to a record just debited by q restores its counters |
| `LedgerProperties.CreditBack` | pkg/inventory/manager.go:270-273 | adding q back after a debit of q succeeds and restores the record with version +2 |
| `LedgerProperties.CompensationState` | pkg/inventory/manager.go:270-273 | removing q and adding it back restores the record, with both entries journalled |
| `LedgerProperties.TransferRollsBack` | pkg/inventory/manager.go:268-275 | when the destination write fails, the source gets q back (version +2), no other record changes, the destination's error is returned, and outbound plus rollback inbound entries are journalled |
| `LedgerProperties.TransferRollbackFails` | pkg/inventory/manager.go:268-275 | when the compensation's write also fails, the source stays debited: the transfer is not atomic |
| `LedgerProperties.CompensationRefused` | pkg/inventory/manager.go:270-273 | a compensating addition whose write is refused leaves the debited state as is |
| `LedgerProperties.AddKeepsInvariants` | pkg/inventory/manager.go:61-150 | Add keeps the table well formed and every `available` derived, and only appends to the journal and alerts |
| `LedgerProperties.RemoveKeepsInvariants` | pkg/inventory/manager.go:154-242 | Remove keeps the same invariants |
| `LedgerProperties.AdjustKeepsInvariants` | pkg/inventory/manager.go:324-414 | Adjust keeps the same invariants |
| `LedgerProperties.ReserveKeepsInvariants` | pkg/inventory/manager.go:611-646 | Reserve keeps the same invariants and writes neither journal nor alerts |
| `LedgerProperties.ReleaseKeepsInvariants` | pkg/inventory/manager.go:650-685 | ReleaseReservation keeps the same invariants and writes neither journal nor alerts |
| `LedgerProperties.TransferKeepsInvariants` | pkg/inventory/manager.go:246-320 | a transfer, whatever its outcome, keeps the same invariants |
| `LedgerProperties.TransferNotCompensated` | pkg/inventory/manager.go:263-275 | when both legs succeed, the transfer succeeds |
| `LedgerProperties.TransferredKeepsInvariants` | pkg/inventory/manager.go:246-320 | the success path keeps the invariants |
| `LedgerProperties.CompensatedKeepsInvariants` | pkg/inventory/manager.go:268-275 | the compensation path keeps the invariants |
| `LedgerProperties.RecordKeepsInvariants` | pkg/inventory/manager.go:219-232 | journalling keeps the invariants and only appends |
| `Batch.Apply` | pkg/inventory/manager.go:541-556 | dispatches on the operation type to Add, Remove, Transfer or Adjust; a transfer without destination and an unknown type are errors that change nothing |
| `Batch.ThreadConcat` | pkg/inventory/manager.go:539-567 | running a concatenation is running the first part and then the second from its state, with the outcomes concatenated |
| `Batch.Run` | pkg/inventory/manager.go:539-567 | one outcome per operation |
| `Batch.RunConcat` | pkg/inventory/manager.go:539-567 | the batch run splits at any point: state and outcomes compose |
| `Batch.FailuresExact` | pkg/inventory/manager.go:558-566 | the error list is exactly the failed operations, by ascending index, each with its own error |
| `Batch.FailuresEmpty` | pkg/inventory/manager.go:558-576 | the error list is empty iff no operation failed |
| `Batch.RunStep` | pkg/inventory/manager.go:539-567 | one more operation extends the run by its outcome |
| `Batch.FailuresStep` | pkg/inventory/manager.go:558-566 | one more outcome extends the error list by at most its own failure |
| `Batch.RunAll` | pkg/inventory/manager.go:539-567 | the loop computes the reference run and its error list |
| `Batch.ExecuteBatch` | pkg/inventory/manager.go:530-579 | the final state is the run's; errors are the failures; failures + successes = operations; status is Completed iff every operation succeeded, else Failed; id, operations and times are recorded |
| `Batch.ApplyKeepsInvariants` | pkg/inventory/manager.go:541-556 | every operation keeps the store invariants |
| `Batch.RunKeepsInvariants` | pkg/inventory/manager.go:530-579 | a whole batch keeps the store invariants and only appends to journal and alerts |
| `Batch.GetBatchStatus` | pkg/inventory/manager.go:583-607 | an empty id is a validation error; any other id gets a completed, empty batch under that id |
| `Valuation.InboundLayers` | pkg/inventory/valuation.go:173-192 | only inbound or transfer entries into the location with a positive unit cost; all of them while the journal is within the 10,000-entry window |
| `Valuation.CostIsProduct` | pkg/inventory/valuation.go:215 | the cost of n units at c is c·n |
| `Valuation.CostAdd` | pkg/inventory/valuation.go:215 | the cost is additive in the quantity |
| `Valuation.CalculateValueFromTransactions` | pkg/inventory/valuation.go:196-220 | the loop computes the layer consumption (`Consume`): it stops when nothing is left, skips uncosted layers and takes min(layer, remaining) from each |
| `Valuation.ConsumeBounds` | pkg/inventory/valuation.go:196-220 | with every layer cost in [lo, hi], the value of the u units costed lies between lo·u and hi·u, where u is min(quantity, units available) |
| `Valuation.CalculateFifo` | pkg/inventory/valuation.go:112-125 | the layers are consumed oldest first; a non-positive quantity or an item without cost layers at the location is worth 0 |
| `Valuation.CalculateLifo` | pkg/inventory/valuation.go:129-142 | the layers are consumed newest first, with the same zero cases |
| `Valuation.UniformCostValue` | pkg/inventory/valuation.go:196-220 | when every layer holds stock at one unit cost c, the value of q units is c times the units valued, min(q, units available) |
| `Valuation.SortedUniformValue` | pkg/inventory/valuation.go:196-220 | at a uniform cost, the order the layers are sorted into does not change the value |
| `Valuation.FifoLifoAgreeOnUniformCost` | pkg/inventory/valuation.go:112-142 | when all cost layers of the item at the location share one unit cost, FIFO and LIFO give the same value, c · min(quantity, units available) |
| `Valuation.FifoOrder` | pkg/inventory/valuation.go:119-122 | FIFO puts an older layer before a newer one |
| `Valuation.LifoOrder` | pkg/inventory/valuation.go:136-139 | LIFO puts a newer layer before an older one |
| `Valuation.FifoExample` | pkg/inventory/valuation.go:112-125 | 100 units at 10 (old) and 100 at 20 (new): 150 units by FIFO are worth 2000 |
| `Valuation.LifoExample` | pkg/inventory/valuation.go:129-142 | the same layers by LIFO: 150 units are worth 2500 |
| `Valuation.AverageEntries` | pkg/inventory/valuation.go:96-101 | exactly the costed inbound entries among the item's 1,000 newest; every costed inbound entry of the item when the journal holds at most 1,000 |
| `Valuation.QuantitySumPositive` | pkg/inventory/valuation.go:94-99 | positive quantities sum to a positive total |
| `Valuation.RunningQuantityExact` | pkg/inventory/valuation.go:94-99 | without overflow, the int64 running total equals the exact sum |
| `Valuation.SpreadCost` | pkg/inventory/valuation.go:107 | cost total / quantity, times the quantity, is the cost total again |
| `Valuation.GetAverageCost` | pkg/inventory/valuation.go:86-108 | an error exactly when the int64 total quantity is 0, and that error is "no average data" |
| `Valuation.AverageTimesQuantity` | pkg/inventory/valuation.go:86-108 | the average times the total quantity gives back the total cost |
| `Valuation.CostSumBounds` | pkg/inventory/valuation.go:96-101 | with every unit cost in [lo, hi], the cost total lies between lo·Q and hi·Q |
| `Valuation.AverageWithinCosts` | pkg/inventory/valuation.go:86-108 | with costed entries whose costs lie in [lo, hi] and no overflow, the average exists and lies in [lo, hi] |
| `Valuation.CalculateStandard` | pkg/inventory/valuation.go:157-169 | an unknown item is a storage error; a non-positive standard cost is an error; otherwise unit cost · quantity |
| `Valuation.CalculateValue` | pkg/inventory/valuation.go:30-54 | a missing record is a storage error; no stock on hand is worth 0 whatever the method; otherwise the named method's value, average errors are propagated, and an unknown method is an error |
| `Valuation.CalculateTotalValue` | pkg/inventory/valuation.go:58-82 | the loop sums the values of the location's records with stock on hand and skips records whose valuation fails |
| `Valuation.UnknownMethodTotalsZero` | pkg/inventory/valuation.go:58-82 | under an unknown method every valuation fails and is skipped, so the total is 0 rather than an error |
| `Analytics.ShareAtMost` | pkg/inventory/valuation.go:287-300 | comparing the cumulative share with a fraction is comparing the cumulative value with that fraction of the total |
| `Analytics.Tier` | pkg/inventory/valuation.go:287-300 | with a positive total: A iff cumulative share <= 80%, B iff in (80%, 95%], C above; with a zero total (NaN share) nothing is B, and A iff the cumulative value is negative |
| `Analytics.TierMonotone` | pkg/inventory/valuation.go:287-300 | a larger cumulative value never gets a better class |
| `Analytics.TiersMonotone` | pkg/inventory/valuation.go:282-301 | along the sorted items the classes never improve |
| `Analytics.TiersEndInC` | pkg/inventory/valuation.go:282-301 | the last item of the sorted order is always C (cumulative share 100%) |
| `Analytics.Assign` | pkg/inventory/valuation.go:282-301 | the classification has exactly the items as keys |
| `Analytics.AssignAt` | pkg/inventory/valuation.go:282-301 | with distinct ids, each item gets the class computed at its position |
| `Analytics.ClassifyABC` | pkg/inventory/valuation.go:268-304 | every item of the value map is classified, and nothing else |
| `Analytics.DistinctIdsPermutation` | pkg/inventory/valuation.go:282-285 | sorting keeps the item ids distinct |
| `Analytics.SortedValueSum` | pkg/inventory/valuation.go:276-285 | sorting keeps the total value |
| `Analytics.ClassAt` | pkg/inventory/valuation.go:282-301 | the class of the item at position i of the descending order is the tier at position i |
| `Analytics.ClassifyMonotone` | pkg/inventory/valuation.go:268-304 | with non-negative values, an item worth strictly more never gets a worse class than one worth less |
| `Analytics.LeastIsC` | pkg/inventory/valuation.go:268-304 | the strictly least valuable item is always C, even when it is the only one |
| `Analytics.Estimates` | pkg/inventory/valuation.go:249-260 | at most one estimate per record |
| `Analytics.EstimatesSound` | pkg/inventory/valuation.go:249-260 | every estimate is quantity·10·unit cost of a record whose item is in the catalog |
| `Analytics.EstimatesComplete` | pkg/inventory/valuation.go:249-260 | every record whose item is in the catalog has its estimate; the others are skipped |
| `Analytics.EstimatesDistinct` | pkg/inventory/valuation.go:249-260 | records of distinct items give estimates of distinct items |
| `Analytics.CalculateABCClassification` | pkg/inventory/valuation.go:240-264 | an item is classified iff it is in the catalog and has a record at the location |
| `Analytics.SlowMovingMembers` | pkg/inventory/valuation.go:344-374 | an item is reported iff one of its records has stock on hand and there is no outbound entry after the cutoff among its newest 100 entries |
| `Analytics.HasRecentActivity` | pkg/inventory/valuation.go:360-366 | the scan reports an outbound entry after the cutoff among the newest 100 entries, stopping at the first |
| `Analytics.ScanSlowMoving` | pkg/inventory/valuation.go:353-371 | the loop computes the slow-moving list in listing order |
| `Analytics.GetSlowMovingItems` | pkg/inventory/valuation.go:344-374 | the slow-moving items of the location's records with cutoff now - threshold |
| `Analytics.SlowMovingAntitone` | pkg/inventory/valuation.go:344-374 | a later cutoff reports every item an earlier cutoff reports |
| `Tracking.CreateLot` | pkg/inventory/tracking.go:29-61 | an unknown item is ItemNotFound; a failed insert is a storage error; otherwise a lot with the given fields and the clock's time is appended and returned |
| `Tracking.CreatedLotFound` | pkg/inventory/tracking.go:29-72 | a created lot is found again by its id and among its item's lots, and lot ids stay fresh |
| `Tracking.GetExpiringLots` | pkg/inventory/tracking.go:76-93 | a non-positive window is a validation error; any other window gets an empty list |
| `Tracking.GetExpiredLots` | pkg/inventory/tracking.go:97-109 | always an empty list |
| `Tracking.ManagerQueriesMissLots` | pkg/inventory/tracking.go:76-109 | an expired lot is found by the store's queries and the expiry rule but by neither tracking query |
| `Tracking.MovementMetadata` | pkg/inventory/tracking.go:137-143 | the metadata has `lot_tracking` = `enabled` iff a lot number is given, and no other key |
| `Tracking.TrackInventoryMovement` | pkg/inventory/tracking.go:124-158 | fails with a storage error iff the insert fails; otherwise appends exactly one entry with the given fields and changes nothing else |
| `Tracking.MovementIsNewest` | pkg/inventory/tracking.go:124-158 | a recorded movement is the first entry of its item's history; a failed one leaves the journal unchanged |
| `Tracking.WithoutMetadata` | pkg/inventory/tracking.go:169-173 | only the metadata is dropped |
| `Tracking.GetMovementHistory` | pkg/inventory/tracking.go:162-176 | a negative limit is a storage error; otherwise the item's history, with metadata dropped entry by entry unless requested |
| `Tracking.ValidateLotExpiry` | pkg/inventory/tracking.go:180-191 | LotNotFound iff the lot is missing; ExpiredLot iff it is expired; no error iff it exists and is not expired |
| `Tracking.CreateExpiryAlert` | pkg/inventory/tracking.go:195-228 | a missing lot, a lot without an expiry date and a failed insert are errors (iff); otherwise one active "expiring" alert for location ALL with the lot's quantity and the day count is appended and nothing else changes |
| `Tracking.ActiveAlertsElsewhere` | pkg/inventory/storage/postgres.go:929-964 | appending an alert for another location leaves a location's active alerts as they were |
| `Tracking.ExpiryAlertOnlyUnderAll` | pkg/inventory/tracking.go:205-219 | the new alert is listed among the active alerts of ALL, and the active alerts of every other location are unchanged |
| `Tracking.GetAuditTrail` | pkg/inventory/tracking.go:232-264 | the entries among the item's newest 1,000 strictly inside (from, to); the item's lots, or none when the lot query fails |
| `Tracking.AuditTrailWithinDateRange` | pkg/inventory/tracking.go:232-264 | within the 1,000-entry window, the audit trail is the date-range query less the entries at either end, newest first under a monotone clock |
| `Concurrency.Bumped` | pkg/inventory/manager.go:178-184 | the written-back record: same key and reservation, quantity + delta and version + 1 in int64, and `available` derived |
| `Concurrency.SameReadOneWins` | pkg/inventory/storage/postgres.go:90-122 | of two writers that read the same version, the first is accepted and the second gets VersionMismatch |
| `Concurrency.TallyUpdate` | pkg/inventory/storage/postgres.go:90-122 | how the count and the sum of accepted writes change when one writer changes phase |
| `Concurrency.IdleTally` | pkg/inventory/storage/postgres.go:90-122 | before any write there are no accepted writes |
| `Concurrency.AcceptedUpdate` | pkg/inventory/storage/postgres.go:90-122 | a writer whose read is current is accepted and installs its record |
| `Concurrency.WriteKeepsInv` | pkg/inventory/storage/postgres.go:90-122 | a writer's write, accepted or refused, keeps the invariant: version = start + accepted writes, quantity = start + accepted deltas (in int64), and every pending read is no newer than the stored record and equal to it when its version is current |
| `Concurrency.StepKeepsInv` | pkg/inventory/storage/postgres.go:90-122 | any single step of any writer keeps the invariant |
| `Concurrency.RunKeepsInv` | pkg/inventory/storage/postgres.go:90-122 | every schedule keeps the invariant |
| `Concurrency.NoLostUpdate` | pkg/inventory/interface.go:125-126 | after any interleaving, the version has grown by the number of accepted writes and the quantity by exactly their deltas: no accepted update is lost |

## Left out

- Logging, event publishing, HTTP handlers, `NewManager`'s logger and publisher
  wiring: these are side effects that change neither the state nor the result.
- Read failures of the database (connection loss, scan errors): reads only fail
  by not finding a row. The `StorageError` branches for failed reads are
  therefore not modelled.
- Floating-point rounding: costs and values are exact reals.
- Go's `sort.Slice` is unstable, and Go's map iteration order is random. The
  model uses a stable sort in input order. Where ties would make the Go result
  depend on that order (equal timestamps, equal ABC values), the model picks
  one order.
- `ListStockByLocation` returns records in creation order rather than
  `ORDER BY item_id`, because the ordering depends on the collation. The
  contract is about membership and distinctness only.
- `GetTurnoverRate` and the CSV report generators (`GenerateStockReport` and
  helpers): they compute floating-point figures from a hard-coded average and
  render text, which is outside this model.
- `IsValidEmail` and `ContainsOnlyAlphanumeric`: they depend on Unicode letter
  classes, which the model has no table for.
- Catalog mutations of the store (`CreateItem`, `UpdateItem`, `DeleteItem`,
  `ListItems`, `SearchItems`, and the same for locations), `Begin`, `Ping` and
  `Close`: the core reads the catalog but never changes it.
- `Manager.GetStock`, `GetStockByLocation`, `GetHistory`, `GetAlerts`,
  `ResolveAlert`, `TrackingManager.GetLot` and `GetLotsByItem`: they are plain
  pass-throughs to the store functions of the same names (or wrap the store's
  error). They are modelled by those store functions.
- One `Env` (one clock reading and one set of failing writes) serves each
  whole call. A `Transfer` makes up to three journal inserts and reads
  `time.Now()` several times, and a batch runs many operations; all of them
  see the same instant and the same failing writes.
- The `x == nil` branches of the composite validators (`ValidateItem`,
  `ValidateLocation`, `ValidateStock`, `ValidateLot`, `ValidateTransaction`,
  `ValidateStockAlert`): the model passes records by value, so there is no
  nil record to reject.
- `Batch.GetBatchStatus`: the source returns a fixed stub, so the model does
  too. Batches are not persisted.
- `Tracking.GetAuditTrail`: the history read cannot fail with the constant
  limit of 1000, so its error branch is absent.
- `Concurrency.NoLostUpdate`: writers never retry. The premise keeps the
  version below MaxInt64. Store writes fail only by version mismatch.
- `Valuation.CalculateFifo`: the contract states the consumption order and the
  zero cases. The value in general is pinned by `CalculateValueFromTransactions`,
  `ConsumeBounds`, `FifoLifoAgreeOnUniformCost` and `FifoExample`.
- `Valuation.CalculateLifo`: same as `CalculateFifo`, with `LifoExample`.
- `Analytics.Estimates`: its own contract only bounds the length. Soundness,
  completeness and distinctness are separate lemmas.
- `Types.Wrap64`: the function's own contract gives only the direction of the
  wrap. Exact congruence modulo 2^64 is `Types.Wrap64Congruent`.

### Where the code and its documentation differ (the model follows the code)

- Several validators do not compile as written. The model takes their
  evident intent:
  - `ValidateAlertType` (validation.go:209-214) lists `AlertTypeLowStock`,
    `AlertTypeExpiry`, `AlertTypeOverstock` and `AlertTypeSystemError`.
    types.go:110-114 declares `low_stock`, `over_stock`, `expiring`, `expired`
    and `discrepancy`. Only the first name matches a declaration; `Expiry` and
    `Overstock` are misspellings of `Expiring` and `OverStock`, and no system
    error kind exists. The model accepts exactly the five declared kinds, so
    every alert the package can raise passes, and nothing else does.
  - `ValidateTransactionType` and `ValidateOperationType`
    (validation.go:194-199, 224-229) use typed constants as keys of a
    `map[string]bool`, and `ValidateTransaction` passes a `TransactionType`
    where a string is expected. The model compares the kind's text with the
    declared kinds.
  - The lot-number check of `ValidateTransaction` (validation.go:369): a lot
    number is checked when it is present and non-empty.
- `ResolveAlert` succeeds on an alert that is already resolved, and stamps it
  again.
- `Reserve` and `ReleaseReservation` do not check the item and location
  against the catalog. A missing record is a storage error that wraps
  StockNotFound.
- The weighted average cost is taken over the item's inbound entries at every
  location, not only the valued location.
- Journal entries written by the manager carry no unit cost. A store filled
  only by the manager therefore has no FIFO/LIFO layers and no average data.
  `TrackInventoryMovement` is the writer that records costs.
- A location with a single item classifies it as C, because its cumulative
  share is 100%.
- The tracking manager's `GetExpiringLots` and `GetExpiredLots` never consult
  the store and always return an empty list.
