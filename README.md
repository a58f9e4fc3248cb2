# inventory-fifo in Dafny

A model of the inventory-fifo service. The service keeps a stock ledger per
customer and product (`cust_id`, `prd_id`). Stock arrives in lots, each with a
quantity and a unit price, and is removed first-in, first-out. Every change
writes two rows in one batch:

- a new version of the product's summary: the lots still available, and the
  available, removed and total quantities and values;
- a log row naming the operation (`add` or `rm`) and the lots it moved.

A per-product lock, taken with a conditional insert, keeps two changes from
interleaving.

The model has six modules:

- `Values` (values.dfy): `Option`, `Result`, and `JsNumber`, a JavaScript
  number after coercion (finite, NaN or an infinity).
- `InventoryErrors` (inventory_error.dfy): the error taxonomy of
  src/InventoryError.js. It has the four codes and their message table. The
  modelled constructor is the corrected one: it turns any unknown code into
  `EINTERNAL`. The code test as written also keeps inherited property names
  such as `"toString"`; see "## Findings".
- `InventoryDb` (inventory_db.dfy): the store of src/inventory-db.js.
  - It is a class, `InventoryStore`, over the three tables: a lock set, and
    per-key summary and log histories ordered by transaction id.
  - The stored rows keep decimals as nullable columns, and the decoder maps
    null to 0 as `getNumber` does.
  - The summary read returns the newest row under an optional date cutoff.
    The log read returns every row under the cutoff, newest first.
- `Ledger` (ledger.dfy): the accounting of the add and rm steps.
  - `Added` specifies add. `Deplete` is FIFO depletion, and `Removed` is its
    effect on a summary.
  - `ApplyAdd` and `ApplyRm` are the step bodies, as methods. `ApplyRm` keeps
    the source's `while` loop and is proved equal to `Removed`.
  - `Consistent` is the summary invariant:
    - the available quantity and value equal the sums over the lots;
    - the totals equal available plus removed;
    - no lot is empty, and no price is negative.
- `Inventory` (inventory.dfy): the engine of src/inventory.js.
  - `ValidateOpParams` is parameter validation.
  - `Lock`, `Unlock` and `WrapUnlock` are the lock protocol.
  - `AddRecord` and `RmRecord` are the two changing operations.
  - `ReadSummary` and `ListLogs` are the reads.
  - Every stored summary version stays `Consistent` across add and rm (the
    `Ledgered` invariant).
- `Scenarios` (scenarios.dfy): the add and rm sequences of the service's
  test suite, computed through `Added` and `Removed`, with the lots and
  counters the tests expect.

The model keeps these behaviours of the code:

- When `rmRecord` finds too little stock, it answers `ENOTAVAILABLE` straight
  to its caller without going through `wrapUnlock`, so the lock stays taken.
  `RmLocked` and `RmRecord` state this.
- The removed counters are `rm_quantity` and `rm_value`, as the code names
  them. Some test text calls them `sold_*`; the model follows the code.
- The log operation of a removal is `"rm"`.

## Model

| member | source | states |
|---|---|---|
| InventoryErrors.Template | src/InventoryError.js:32-39 | the message template of each code is the entry for that code in the ERRORS table |
| InventoryErrors.ParseCode | src/InventoryError.js:7 | a string names a code exactly when it is a key of the ERRORS table, and the code parsed has that name |
| InventoryErrors.ErrorsTableKeys | src/InventoryError.js:32-39 | the keys of the ERRORS table are exactly the names of the four codes |
| InventoryErrors.NormalizeCode | src/InventoryError.js:7-8 | a missing or unknown code becomes EINTERNAL; a known code is kept |
| InventoryErrors.NewInventoryError | src/InventoryError.js:6-19 | the error carries the normalised code, the raw arguments (empty when none are given) and the template of its code as raw message |
| InventoryErrors.ConstructorKeepsOwnCodes | src/InventoryError.js:6-18 | constructing with one of the four codes keeps that code and the arguments unchanged |
| InventoryErrors.NormalizeCodeAsWritten | src/InventoryError.js:7-8 | with the JavaScript `in` test, a table key or a name inherited by every object is kept as the code; a missing code, the empty string and every other name become "EINTERNAL" |
| InventoryErrors.InheritedNameEscapesNormalisation | src/InventoryError.js:7-8 | "toString" is not a code, yet the as-written check keeps it, while the corrected one maps it to EINTERNAL |
| InventoryDb.DecodeLots | src/inventory-db.js:100-103 | decoding keeps the number and the quantities of the lots and maps a null price to 0 |
| InventoryDb.DecodeSummaryRows | src/inventory-db.js:94-113 | each summary row is decoded in place, keeping its transaction id |
| InventoryDb.DecodeLogRows | src/inventory-db.js:115-131 | each log row is decoded in place, keeping its transaction id |
| InventoryDb.EncodeLots | src/inventory-db.js:64-87 | lots are written one for one, in order |
| InventoryDb.DecodeEncodeLots | src/inventory-db.js:61-103 | decoding the lots written gives back the lots |
| InventoryDb.DecodeEncodeSummary | src/inventory-db.js:64-77 | decoding a written summary row gives back the summary |
| InventoryDb.DecodeEncodeLog | src/inventory-db.js:78-86 | decoding a written log row gives back the log entry |
| InventoryDb.LatestBefore | src/inventory-db.js:148-155 | the index found is under the cutoff and every later version is not; none is found only when no version is under the cutoff |
| InventoryDb.NewestFirst | src/inventory-db.js:157-162 | the rows returned are exactly the versions under the cutoff, in strictly decreasing transaction id |
| InventoryDb.AppendFresh | src/inventory-db.js:62 | appending a version with an id above every stored id keeps the history increasing |
| InventoryDb.InventoryStore.constructor | src/inventory-db.js:10-13 | a fresh store has no locks, no summaries and no logs |
| InventoryDb.InventoryStore.AquireLock | src/inventory-db.js:19-24 | the insert applies exactly when the key was not locked, and afterwards the key is locked |
| InventoryDb.InventoryStore.ReleaseLock | src/inventory-db.js:26-31 | the delete removes the key from the lock set and reports no error |
| InventoryDb.InventoryStore.GetSummary | src/inventory-db.js:33-45 | at most one row; it is the version with the greatest id under the cutoff, and there is none only when no version is under the cutoff |
| InventoryDb.InventoryStore.GetLogs | src/inventory-db.js:47-59 | every row is a stored log version under the cutoff, every such version is returned, and the rows are newest first |
| InventoryDb.InventoryStore.UpdateInventory | src/inventory-db.js:61-88 | one summary and one log version are appended under the same fresh id, above every stored id; nothing else changes |
| Ledger.TimesIsProduct | src/inventory.js:40 | the value of a lot is its quantity times its unit price |
| Ledger.TimesSplit | src/inventory.js:93-96 | splitting a lot's quantity splits its value the same way |
| Ledger.SumsAppend | src/inventory.js:41-47 | the quantity and value sums over lots are additive under concatenation |
| Ledger.AddedAppends | src/inventory.js:36-47 | add appends the new lot at the end, keeps every earlier lot and preserves the summary invariant |
| Ledger.ApplyAdd | src/inventory.js:36-58 | add raises total and available by the quantity and the value, leaves the removed counters alone, and logs one "add" record of the lot |
| Ledger.DepleteSums | src/inventory.js:83-114 | FIFO removal records exactly q units, leaves the rest, and neither creates nor loses value |
| Ledger.DepleteFifo | src/inventory.js:83-114 | records follow the lots from the front at their own prices; all but the last are whole lots; the last is consumed whole or split with the remainder left in front |
| Ledger.DepleteWellFormed | src/inventory.js:84-99 | removal from non-empty lots leaves non-empty lots and records non-empty movements |
| Ledger.DepleteAtMost | src/inventory.js:83-114 | removal never records more than was asked for |
| Ledger.ChargedStep | src/inventory.js:92-110 | charging one more record moves its quantity and value from available to removed |
| Ledger.RemovedMoves | src/inventory.js:79-114 | rm moves exactly q units and their value from available to removed, keeps the invariant and the totals, and records well-formed lots |
| Ledger.RemovedConsistent | src/inventory.js:79-114 | the result of rm on a consistent summary is consistent and records q units |
| Ledger.RmLoopExit | src/inventory.js:83-114 | when the loop ends, its summary and records are the FIFO removal |
| Ledger.ApplyRm | src/inventory.js:79-122 | the loop yields the FIFO removal of the quantity and logs its records under "rm" |
| Inventory.ValidateOpParams | src/inventory.js:168-186 | accepts add exactly for a finite positive whole quantity and a finite non-negative price, and rm for the quantity alone; otherwise EBADVALUE naming the first bad field and its value |
| Inventory.ClassifyLock | src/inventory.js:188-201 | success exactly when the first row applied; a driver error passes through, no rows is EINTERNAL, an unapplied row is ELOCKED |
| Inventory.UnlockSkippedOnlyBeforeLocking | src/inventory.js:212-216 | the unlock is skipped for validation errors and a held lock only, never for success, ENOTAVAILABLE or EINTERNAL |
| Inventory.Lock | src/inventory.js:188-201 | ELOCKED when the key was already locked, success otherwise; the key is locked afterwards |
| Inventory.FromDriver | src/inventory.js:204-209 | the driver's own error is passed on unchanged, and its absence is success |
| Inventory.Unlock | src/inventory.js:203-210 | the key is no longer locked |
| Inventory.WrapUnlock | src/inventory.js:212-230 | the caller gets the original error; the lock is released unless that error is ELOCKED or EBADVALUE |
| Inventory.GetQueryObj | src/inventory.js:150-166 | no date gives the bare key; a date that parses becomes the cutoff; one that does not is EBADVALUE naming the date |
| Inventory.LatestOfNothing | src/inventory.js:259-269 | a key never written starts from the empty summary |
| Inventory.LatestConsistent | src/inventory.js:35 | when every stored version is consistent, so is the summary an operation starts from |
| Inventory.AppendConsistent | src/inventory-db.js:61-88 | appending a consistent version keeps every stored version consistent |
| Inventory.AddKeepsLedgered | src/inventory.js:36-63 | add keeps every stored summary version consistent |
| Inventory.RmKeepsLedgered | src/inventory.js:74-127 | rm past its availability check keeps every stored summary version consistent |
| Inventory.LatestCovers | src/inventory.js:76-84 | the available quantity the check reads is covered by the lots, so the FIFO loop always finds a lot |
| Inventory.CurrentSummaryIsRead | src/inventory.js:12-27 | the summary add and rm start from is what the summary read without a date returns |
| Inventory.ReadSummary | src/inventory.js:12-28 | a bad date is EBADVALUE; otherwise the newest version under the cutoff, or the empty summary when there is none |
| Inventory.ListLogs | src/inventory.js:132-144 | a bad date is EBADVALUE; otherwise exactly the stored log entries under the cutoff (each row returned is one, and every one is returned), newest first |
| Scenarios.FifoSplitsSecondLot | test/rm.js:63-111 | after adding 100 at 10 and 250 at 15, removing 200 records 100 at 10 and 100 at 15 and leaves one lot of 150 at 15, with available 150/2250, removed 200/2500 and totals 350/4750 |
| Scenarios.InterleavedAddsAndRemovals | test/summary.js:50-95 | adding 100 at 10, removing 50, adding 250 at 15, removing 225, adding 150 at 12.5 and removing 50 leaves lots 25 at 15 and 150 at 12.5, with available 175/2250, removed 325/4375 and totals 500/6625 |
| Inventory.CommitAdd | src/inventory.js:36-64 | the new current summary is the old one plus the lot; one summary and one "add" log version are written under a fresh id; the invariant holds |
| Inventory.CommitRm | src/inventory.js:74-128 | the new current summary is the FIFO removal from the old one; its records are logged under "rm" with the same fresh id; the invariant holds |
| Inventory.AddLocked | src/inventory.js:31-66 | with the key locked elsewhere: ELOCKED and nothing changes; otherwise the add is committed and the lock released |
| Inventory.AddRecord | src/inventory.js:31-66 | bad input: EBADVALUE and nothing changes; lock held: ELOCKED and nothing changes; otherwise the add is committed, the lock released and the invariant kept |
| Inventory.RmLocked | src/inventory.js:69-130 | ELOCKED with nothing changed, or ENOTAVAILABLE with the lock left taken and no rows written, or the FIFO removal committed and the lock released |
| Inventory.RmRecord | src/inventory.js:69-130 | bad quantity: EBADVALUE and nothing changes; then as RmLocked on the validated quantity |

## Left out

- The Express server, seneca routing and the `async` waterfall plumbing are not modelled. Each operation's steps are written in sequence, and each failure goes to the final callback as the waterfall sends it.
- The Cassandra driver and the connect and disconnect calls are not modelled. The store is an in-memory class that always succeeds, so the driver-error branches appear only in `ClassifyLock` and `FromDriver`.
- The store cannot fail, which leaves the driver-failure paths of `Lock` and `Unlock` unexercised by the methods.
- Concurrency and lock expiry are not modelled. Each call runs alone against the store.
- A TimeUuid is modelled as a natural number above every id stored so far. Clock time is not modelled.
- Parsing a date with `new Date(...)` and the `maxTimeuuid` conversion are modelled as a parameter `parse`. It returns a cutoff id or nothing.
- Inventory.ValidateOpParams: request values are taken to be JavaScript numbers already. The error's `raw_args` hold that number, not the raw body value the source passes: for the body `quantity: 'asdas'` the source reports `"asdas"`, the model `NaN`, and a missing quantity is `undefined` in the source. A numeric string such as `"5"` passes the source's coercing checks and is then concatenated as text by `+=` in the counter updates. The model does not capture that.
- JavaScript numbers are modelled as exact reals and naturals. Floating-point rounding in the value counters is not modelled.
- `util.format` of the message, `stack`, `name` and `toJson` are not modelled. The error keeps its code and raw arguments, and `RawMessage` is the template.
- The `cust_id`, `prd_id` and `date` fields that `summary` merges into its answer are not modelled. A summary holds only its lots and counters.
- The log row's customer and product come from the key, not from the row.
- Inventory.ReadSummary: the `date` field is not returned.
- Ledger.Removed: its properties hold for a consistent summary. On an inconsistent one, removal is still defined but not constrained. The source's loop would fail there on an empty lot list.

## Findings

| source | as written | input that shows it | evidently intended | confidence | as-written member | corrected member |
|---|---|---|---|---|---|---|
| src/InventoryError.js:7 | `code in InventoryError.ERRORS` also holds for names every object inherits | code `"toString"` is kept as the error's code | any code other than the four in the table becomes `EINTERNAL` | medium; not executed | InventoryErrors.NormalizeCodeAsWritten | InventoryErrors.NormalizeCode |
