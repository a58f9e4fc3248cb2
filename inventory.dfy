/** The accounting engine (src/inventory.js): parameter validation, the lock
    protocol, the add and rm operations over the store, and the summary and
    log reads. The asynchronous waterfall of each operation is written as
    straight-line steps; a step that fails hands its error to the final
    callback, as the waterfall does. */
module Inventory {
  import opened Values
  import opened InventoryErrors
  import opened InventoryDb
  import opened Ledger

  /** What reaches a callback as `err`: an InventoryError or a driver error. */
  datatype OpError = AppError(e: InventoryError) | DbError(err: DriverError)

  // `new InventoryError('ELOCKED')` and the like; ConstructorKeepsOwnCodes
  // shows these are the errors the constructor builds.
  const LOCKED_ERROR: InventoryError := InventoryError(ELOCKED, [])
  const INTERNAL_ERROR: InventoryError := InventoryError(EINTERNAL, [])
  const NOT_AVAILABLE_ERROR: InventoryError := InventoryError(ENOTAVAILABLE, [])

  /** `new InventoryError('EBADVALUE', [value, field])`. */
  function BadValue(value: ErrArg, field: string): InventoryError {
    InventoryError(EBADVALUE, [value, Text(field)])
  }

  /***************************************************************************
   * validateOpParams
   ***************************************************************************/

  /** A quantity the engine accepts: a finite, positive whole number. */
  predicate ValidQuantity(v: JsNumber) {
    v.Finite? && v.x > 0.0 && v.x == v.x.Floor as real
  }

  /** A unit price the engine accepts: finite and not negative. */
  predicate ValidPrice(v: JsNumber) {
    v.Finite? && v.x >= 0.0
  }

  function QuantityOf(v: JsNumber): nat
    requires ValidQuantity(v)
  {
    v.x.Floor
  }

  /** JavaScript `x % 1`: the remainder of truncating division, which keeps
      the sign of x. */
  function JsRemainderOne(x: real): real {
    if x >= 0.0 then x - x.Floor as real else x + (-x).Floor as real
  }

  /** The `cmd` a mutation request is routed under. */
  datatype Cmd = Add | Rm

  /** The checks of `validateOpParams`, in the order the source makes them.
      For cmd `rm` the unit price is never looked at. */
  function ValidateOpParams(cmd: Cmd, quantity: JsNumber, unitPrice: JsNumber): (r: Option<InventoryError>)
    ensures cmd.Add? ==> (r.None? <==> ValidQuantity(quantity) && ValidPrice(unitPrice))
    ensures cmd.Rm? ==> (r.None? <==> ValidQuantity(quantity))
    ensures !ValidQuantity(quantity) ==> r == Some(BadValue(Number(quantity), "quantity"))
    ensures cmd.Add? && ValidQuantity(quantity) && !ValidPrice(unitPrice) ==>
      r == Some(BadValue(Number(unitPrice), "unit_price"))
    ensures r.Some? ==> r.value.code == EBADVALUE
  {
    if quantity.NaN? || !quantity.Finite? || JsRemainderOne(quantity.x) != 0.0 || quantity.x <= 0.0 then
      Some(BadValue(Number(quantity), "quantity"))
    else if cmd.Rm? then
      None
    else if unitPrice.NaN? || !unitPrice.Finite? || unitPrice.x < 0.0 then
      Some(BadValue(Number(unitPrice), "unit_price"))
    else
      None
  }

  /***************************************************************************
   * lock / unlock / wrapUnlock
   ***************************************************************************/

  /** How `lock` reads the result of the conditional insert: a driver error
      passes through, no row is an internal error, a row that was not
      applied means the lock is held, and an applied row is success. */
  function ClassifyLock(resp: LockResponse): (r: Option<OpError>)
    ensures r.None? <==> resp.LockRows? && |resp.rows| > 0 && resp.rows[0].applied
    ensures resp.LockFailure? ==> r == Some(DbError(resp.err))
    ensures resp.LockRows? && resp.rows == [] ==> r == Some(AppError(INTERNAL_ERROR))
    ensures resp.LockRows? && |resp.rows| > 0 && !resp.rows[0].applied ==> r == Some(AppError(LOCKED_ERROR))
  {
    match resp
    case LockFailure(e) => Some(DbError(e))
    case LockRows(rows) =>
      if |rows| == 0 then Some(AppError(INTERNAL_ERROR))
      else if !rows[0].applied then Some(AppError(LOCKED_ERROR))
      else None
  }

  /** The errors on which `wrapUnlock` returns without releasing the lock. */
  predicate SkipsUnlock(err: Option<OpError>) {
    err.Some? && err.value.AppError? && (err.value.e.code == ELOCKED || err.value.e.code == EBADVALUE)
  }

  /** wrapUnlock leaves the lock alone exactly for the failures that happen
      before this call could hold it (bad input, lock held elsewhere); on
      success, on missing stock and on every internal or driver error it
      releases. */
  lemma {:induction false} UnlockSkippedOnlyBeforeLocking(cmd: Cmd, quantity: JsNumber, unitPrice: JsNumber, resp: LockResponse)
    ensures ValidateOpParams(cmd, quantity, unitPrice).Some? ==>
      SkipsUnlock(Some(AppError(ValidateOpParams(cmd, quantity, unitPrice).value)))
    ensures ClassifyLock(resp).Some? ==>
      (SkipsUnlock(ClassifyLock(resp)) <==> resp.LockRows? && |resp.rows| > 0 && !resp.rows[0].applied)
    ensures !SkipsUnlock(None)
    ensures !SkipsUnlock(Some(AppError(NOT_AVAILABLE_ERROR)))
    ensures !SkipsUnlock(Some(AppError(INTERNAL_ERROR)))
  {
  }

  /** `lock`: the conditional insert, then its classification. */
  method Lock(db: InventoryStore, key: Key) returns (err: Option<OpError>)
    requires db.Valid()
    ensures db.Valid()
    modifies db`locks
    ensures err == if key in old(db.locks) then Some(AppError(LOCKED_ERROR)) else None
    ensures db.locks == old(db.locks) + {key}
  {
    var resp := db.AquireLock(key);
    err := ClassifyLock(resp);
  }

  /** A driver error, as it reaches the callback. */
  function FromDriver(e: Option<DriverError>): (r: Option<OpError>)
    ensures r.None? <==> e.None?
    ensures e.Some? ==> r == Some(DbError(e.value))
  {
    match e
    case None => None
    case Some(d) => Some(DbError(d))
  }

  /** `unlock`: the unconditional delete. */
  method Unlock(db: InventoryStore, key: Key) returns (err: Option<OpError>)
    requires db.Valid()
    ensures db.Valid()
    modifies db`locks
    ensures err.None?
    ensures db.locks == old(db.locks) - {key}
  {
    var dbErr := db.ReleaseLock(key);
    err := FromDriver(dbErr);
  }

  /** The final callback of add and rm: releases the lock unless the error
      says it was never taken, ignores what the release reports, and hands
      the caller the original error (and nothing else on success). */
  method WrapUnlock(db: InventoryStore, key: Key, err: Option<OpError>) returns (reported: Option<OpError>)
    requires db.Valid()
    ensures db.Valid()
    modifies db`locks
    ensures reported == err
    ensures db.locks == if SkipsUnlock(err) then old(db.locks) else old(db.locks) - {key}
  {
    if SkipsUnlock(err) {
      return err;
    }
    var unlockErr := Unlock(db, key);
    reported := err;
  }

  /***************************************************************************
   * summary / listLogs
   ***************************************************************************/

  /** `getQueryObj`: a non-empty date must parse, and its cutoff joins the
      query; `parse` stands for `new Date(...)` followed by `maxTimeuuid`. */
  function GetQueryObj(key: Key, date: Option<string>, parse: string -> Option<nat>): (r: Result<QueryObj, InventoryError>)
    ensures date.None? || date.value == "" ==> r == Ok(QueryObj(key, None))
    ensures date.Some? && date.value != "" ==>
      (r.Err? <==> parse(date.value).None?) &&
      (r.Err? ==> r.error == BadValue(Text(date.value), "date")) &&
      (r.Ok? ==> r.value == QueryObj(key, parse(date.value)))
  {
    if date.Some? && date.value != "" then
      match parse(date.value)
      case Some(cutoff) => Ok(QueryObj(key, Some(cutoff)))
      case None => Err(BadValue(Text(date.value), "date"))
    else
      Ok(QueryObj(key, None))
  }

  /** The snapshot merged over EMPTY_SUMMARY: the row if there is one. */
  function SummaryOf(rows: seq<Versioned<Summary>>): Summary {
    if rows == [] then EMPTY_SUMMARY else rows[0].row
  }

  /** The summary `addRecord` and `rmRecord` start from: the last one
      written for the key, or EMPTY_SUMMARY for a key never written. */
  function CurrentSummary(db: InventoryStore, key: Key): Summary
    reads db`summaries
  {
    Latest(db.SummaryHistory(key))
  }

  /** The newest version of a summary history, or EMPTY_SUMMARY for an empty
      one. The empty case writes its counters as |h|, which is zero there,
      rather than as literals: a summary whose every field is a literal makes
      the solver's work on the consistency invariant explode. */
  function Latest(h: seq<Versioned<SummaryRow>>): Summary {
    if h == [] then Summary([], |h|, |h| as real, |h|, |h| as real, |h|, |h| as real)
    else DecodeSummary(h[|h| - 1].row)
  }

  lemma LatestOfNothing()
    ensures Latest([]) == EMPTY_SUMMARY
  {
  }

  /** Every snapshot version stored for any key satisfies the summary
      invariant. */
  ghost predicate AllConsistent(m: map<Key, seq<Versioned<SummaryRow>>>) {
    forall k, i | k in m && 0 <= i < |m[k]| :: Consistent(DecodeSummary(m[k][i].row))
  }

  ghost predicate Ledgered(db: InventoryStore)
    reads db`summaries
  {
    AllConsistent(db.summaries)
  }

  /** With every stored version consistent, so is the one add and rm start
      from, including EMPTY_SUMMARY for a key never written. */
  lemma LatestConsistent(m: map<Key, seq<Versioned<SummaryRow>>>, key: Key, h: seq<Versioned<SummaryRow>>)
    requires AllConsistent(m)
    requires h == if key in m then m[key] else []
    ensures Consistent(Latest(h))
  {
    if h == [] {
      assert Consistent(Latest(h));
    } else {
      assert Consistent(DecodeSummary(m[key][|h| - 1].row));
    }
  }

  /** Appending a consistent version keeps every version consistent. */
  lemma AppendConsistent(m: map<Key, seq<Versioned<SummaryRow>>>, key: Key, h: seq<Versioned<SummaryRow>>, v: Versioned<SummaryRow>)
    requires AllConsistent(m)
    requires h == if key in m then m[key] else []
    requires Consistent(DecodeSummary(v.row))
    ensures AllConsistent(m[key := h + [v]])
  {
    var m': map<Key, seq<Versioned<SummaryRow>>> := m[key := h + [v]];
    forall k: Key, i: int | k in m' && 0 <= i < |m'[k]| ensures Consistent(DecodeSummary(m'[k][i].row)) {
      if k == key && i < |h| {
        assert m'[k][i] == m[k][i];
      }
    }
  }

  /** addRecord keeps every stored version consistent. */
  lemma AddKeepsLedgered(m: map<Key, seq<Versioned<SummaryRow>>>, key: Key, h: seq<Versioned<SummaryRow>>,
                         q: nat, p: real, id: nat)
    requires AllConsistent(m)
    requires h == if key in m then m[key] else []
    requires q > 0 && p >= 0.0
    ensures AllConsistent(m[key := h + [Versioned(id, EncodeSummary(Added(Latest(h), q, p)))]])
  {
    LatestConsistent(m, key, h);
    AddedAppends(Latest(h), q, p);
    DecodeEncodeSummary(Added(Latest(h), q, p));
    AppendConsistent(m, key, h, Versioned(id, EncodeSummary(Added(Latest(h), q, p))));
  }

  /** rmRecord, past its availability check, finds enough stock in the lots
      for the FIFO loop and keeps every stored version consistent. */
  lemma RmKeepsLedgered(m: map<Key, seq<Versioned<SummaryRow>>>, key: Key, h: seq<Versioned<SummaryRow>>,
                        q: nat, id: nat)
    requires AllConsistent(m)
    requires h == if key in m then m[key] else []
    requires q <= Latest(h).available_quantity && Consistent(Latest(h))
    ensures AllConsistent(m[key := h + [Versioned(id, EncodeSummary(Removed(Latest(h), q).0))]])
  {
    AppendRemoved(m, key, h, Latest(h), q, id);
  }

  /** Every stored version holds at least its available quantity in lots. */
  lemma LatestCovers(m: map<Key, seq<Versioned<SummaryRow>>>, key: Key, h: seq<Versioned<SummaryRow>>)
    requires AllConsistent(m)
    requires h == if key in m then m[key] else []
    ensures Latest(h).available_quantity == SumQty(Latest(h).available)
  {
    LatestConsistent(m, key, h);
  }

  lemma AppendRemoved(m: map<Key, seq<Versioned<SummaryRow>>>, key: Key, h: seq<Versioned<SummaryRow>>,
                      s: Summary, q: nat, id: nat)
    requires AllConsistent(m)
    requires h == if key in m then m[key] else []
    requires Consistent(s) && q <= s.available_quantity
    ensures AllConsistent(m[key := h + [Versioned(id, EncodeSummary(Removed(s, q).0))]])
  {
    RemovedMoves(s, q);
    DecodeEncodeSummary(Removed(s, q).0);
    AppendConsistent(m, key, h, Versioned(id, EncodeSummary(Removed(s, q).0)));
  }

  /** The current summary is what the `summary` read without a date returns:
      the newest row by transaction id, merged over EMPTY_SUMMARY. */
  lemma CurrentSummaryIsRead(db: InventoryStore, key: Key)
    requires db.Valid()
    ensures CurrentSummary(db, key) == SummaryOf(db.GetSummary(QueryObj(key, None)))
  {
  }

  /** `summary`: the newest snapshot visible under the cutoff, or the empty
      summary when there is none; a date that does not parse is EBADVALUE. */
  function ReadSummary(db: InventoryStore, key: Key, date: Option<string>, parse: string -> Option<nat>): (r: Result<Summary, InventoryError>)
    reads db
    requires db.Valid()
    ensures r.Err? <==> GetQueryObj(key, date, parse).Err?
    ensures r.Err? ==> r.error.code == EBADVALUE
    ensures r.Ok? ==>
      var rows := db.GetSummary(GetQueryObj(key, date, parse).value);
      (rows == [] ==> r.value == EMPTY_SUMMARY) && (rows != [] ==> r.value == rows[0].row)
  {
    match GetQueryObj(key, date, parse)
    case Err(e) => Err(e)
    case Ok(q) => Ok(SummaryOf(db.GetSummary(q)))
  }

  /** `listLogs`: the log rows visible under the cutoff, newest first. */
  function ListLogs(db: InventoryStore, key: Key, date: Option<string>, parse: string -> Option<nat>): (r: Result<seq<Versioned<LogData>>, InventoryError>)
    reads db
    requires db.Valid()
    ensures r.Err? <==> GetQueryObj(key, date, parse).Err?
    ensures r.Err? ==> r.error.code == EBADVALUE
    ensures r.Ok? ==> forall i, j :: 0 <= i < j < |r.value| ==> r.value[i].trx_id > r.value[j].trx_id
    ensures r.Ok? ==>
      var h := db.LogHistory(key);
      var cutoff := GetQueryObj(key, date, parse).value.date;
      forall i :: 0 <= i < |r.value| ==>
        Before(r.value[i].trx_id, cutoff) && exists j :: 0 <= j < |h| && r.value[i] == DecodeLogRow(h[j])
    ensures r.Ok? ==>
      var h := db.LogHistory(key);
      var cutoff := GetQueryObj(key, date, parse).value.date;
      forall j :: 0 <= j < |h| && Before(h[j].trx_id, cutoff) ==> DecodeLogRow(h[j]) in r.value
  {
    match GetQueryObj(key, date, parse)
    case Err(e) => Err(e)
    case Ok(q) => Ok(db.GetLogs(q))
  }

  /***************************************************************************
   * addRecord / rmRecord
   ***************************************************************************/

  /** The steps of `addRecord` that run under the lock: read the newest
      summary, append the lot, write summary and log in one batch. */
  method CommitAdd(db: InventoryStore, key: Key, quantity: nat, unitPrice: real) returns (err: Option<OpError>)
    requires db.Valid() && Ledgered(db)
    requires quantity > 0 && unitPrice >= 0.0
    modifies db`summaries, db`logs, db`lastTrx
    ensures db.Valid() && Ledgered(db)
    ensures CurrentSummary(db, key) == Added(old(CurrentSummary(db, key)), quantity, unitPrice)
    ensures err.None?
    ensures db.lastTrx == old(db.lastTrx) + 1
    ensures db.summaries == old(db.summaries)[key := old(db.SummaryHistory(key)) +
      [Versioned(db.lastTrx, EncodeSummary(CurrentSummary(db, key)))]]
    ensures db.logs == old(db.logs)[key := old(db.LogHistory(key)) +
      [Versioned(db.lastTrx, EncodeLog(LogData("add", [Lot(quantity, unitPrice)])))]]
  {
    var summary := CurrentSummary(db, key);
    var summaryData, logData := ApplyAdd(summary, quantity, unitPrice);
    ghost var next := db.summaries[key := db.SummaryHistory(key) + [Versioned(db.lastTrx + 1, EncodeSummary(summaryData))]];
    assert AllConsistent(next) by {
      AddKeepsLedgered(db.summaries, key, db.SummaryHistory(key), quantity, unitPrice, db.lastTrx + 1);
    }
    var dbErr := db.UpdateInventory(key, summaryData, logData);
    assert DecodeSummary(EncodeSummary(summaryData)) == summaryData by {
      DecodeEncodeSummary(summaryData);
    }
    err := FromDriver(dbErr);
  }

  /** The steps of `rmRecord` that run under the lock once the stock is
      known to suffice: the FIFO loop, then summary and log in one batch. */
  method CommitRm(db: InventoryStore, key: Key, quantity: nat) returns (err: Option<OpError>)
    requires db.Valid() && Ledgered(db)
    requires quantity <= CurrentSummary(db, key).available_quantity
    modifies db`summaries, db`logs, db`lastTrx
    ensures db.Valid() && Ledgered(db)
    ensures CurrentSummary(db, key) == Removed(old(CurrentSummary(db, key)), quantity).0
    ensures err.None?
    ensures db.lastTrx == old(db.lastTrx) + 1
    ensures db.summaries == old(db.summaries)[key := old(db.SummaryHistory(key)) +
      [Versioned(db.lastTrx, EncodeSummary(CurrentSummary(db, key)))]]
    ensures db.logs == old(db.logs)[key := old(db.LogHistory(key)) +
      [Versioned(db.lastTrx, EncodeLog(LogData("rm", Removed(old(CurrentSummary(db, key)), quantity).1)))]]
  {
    var summary := CurrentSummary(db, key);
    assert quantity <= SumQty(summary.available) by {
      LatestCovers(db.summaries, key, db.SummaryHistory(key));
    }
    var summaryData, logData := ApplyRm(summary, quantity);
    ghost var next := db.summaries[key := db.SummaryHistory(key) + [Versioned(db.lastTrx + 1, EncodeSummary(summaryData))]];
    assert AllConsistent(next) by {
      LatestConsistent(db.summaries, key, db.SummaryHistory(key));
      RmKeepsLedgered(db.summaries, key, db.SummaryHistory(key), quantity, db.lastTrx + 1);
    }
    var dbErr := db.UpdateInventory(key, summaryData, logData);
    assert DecodeSummary(EncodeSummary(summaryData)) == summaryData by {
      DecodeEncodeSummary(summaryData);
    }
    err := FromDriver(dbErr);
  }

  /** The steps of `addRecord` after validation: lock, commit, wrapUnlock. */
  method AddLocked(db: InventoryStore, key: Key, q: nat, p: real) returns (err: Option<OpError>)
    requires db.Valid() && Ledgered(db)
    requires q > 0 && p >= 0.0
    modifies db`locks, db`summaries, db`logs, db`lastTrx
    ensures db.Valid() && Ledgered(db)
    ensures key in old(db.locks) ==> err == Some(AppError(LOCKED_ERROR)) && unchanged(db)
    ensures key !in old(db.locks) ==>
      && err.None?
      && db.locks == old(db.locks)
      && db.lastTrx == old(db.lastTrx) + 1
      && CurrentSummary(db, key) == Added(old(CurrentSummary(db, key)), q, p)
      && db.summaries == old(db.summaries)[key := old(db.SummaryHistory(key)) +
           [Versioned(db.lastTrx, EncodeSummary(CurrentSummary(db, key)))]]
      && db.logs == old(db.logs)[key := old(db.LogHistory(key)) +
           [Versioned(db.lastTrx, EncodeLog(LogData("add", [Lot(q, p)])))]]
  {
    ghost var before := CurrentSummary(db, key);
    err := Lock(db, key);
    assert CurrentSummary(db, key) == before;
    if err.Some? {
      assert old(db.locks) + {key} == old(db.locks);
      err := WrapUnlock(db, key, err);
      return;
    }
    err := CommitAdd(db, key, q, p);
    assert db.locks == old(db.locks) + {key};
    err := WrapUnlock(db, key, err);
    assert db.locks == old(db.locks) + {key} - {key};
    assert old(db.locks) + {key} - {key} == old(db.locks);
  }

  /** `addRecord`: validate, then lock, commit and wrapUnlock. The caller
      hears only whether it failed: on success wrapUnlock passes on no
      summary. */
  method AddRecord(db: InventoryStore, key: Key, quantity: JsNumber, unitPrice: JsNumber) returns (err: Option<OpError>)
    requires db.Valid() && Ledgered(db)
    modifies db
    ensures db.Valid() && Ledgered(db)
    ensures !(ValidQuantity(quantity) && ValidPrice(unitPrice)) ==>
      err == Some(AppError(ValidateOpParams(Add, quantity, unitPrice).value)) && unchanged(db)
    ensures ValidQuantity(quantity) && ValidPrice(unitPrice) && key in old(db.locks) ==>
      err == Some(AppError(LOCKED_ERROR)) && unchanged(db)
    ensures ValidQuantity(quantity) && ValidPrice(unitPrice) && key !in old(db.locks) ==>
      var q, p := QuantityOf(quantity), unitPrice.x;
      && err.None?
      && db.locks == old(db.locks)
      && db.lastTrx == old(db.lastTrx) + 1
      && CurrentSummary(db, key) == Added(old(CurrentSummary(db, key)), q, p)
      && db.summaries == old(db.summaries)[key := old(db.SummaryHistory(key)) +
           [Versioned(db.lastTrx, EncodeSummary(CurrentSummary(db, key)))]]
      && db.logs == old(db.logs)[key := old(db.LogHistory(key)) +
           [Versioned(db.lastTrx, EncodeLog(LogData("add", [Lot(q, p)])))]]
  {
    var invalid := ValidateOpParams(Add, quantity, unitPrice);
    if invalid.Some? {
      err := WrapUnlock(db, key, Some(AppError(invalid.value)));
      return;
    }
    err := AddLocked(db, key, QuantityOf(quantity), unitPrice.x);
  }

  /** The steps of `rmRecord` after validation: lock, read the newest
      summary; with too little stock answer ENOTAVAILABLE straight to the
      caller, without wrapUnlock, so the lock stays taken; otherwise commit,
      then wrapUnlock. */
  method RmLocked(db: InventoryStore, key: Key, q: nat) returns (err: Option<OpError>)
    requires db.Valid() && Ledgered(db)
    modifies db`locks, db`summaries, db`logs, db`lastTrx
    ensures db.Valid() && Ledgered(db)
    ensures key in old(db.locks) ==> err == Some(AppError(LOCKED_ERROR)) && unchanged(db)
    ensures key !in old(db.locks) && old(CurrentSummary(db, key)).available_quantity < q ==>
      && err == Some(AppError(NOT_AVAILABLE_ERROR))
      && db.locks == old(db.locks) + {key}
      && db.summaries == old(db.summaries) && db.logs == old(db.logs) && db.lastTrx == old(db.lastTrx)
    ensures key !in old(db.locks) && old(CurrentSummary(db, key)).available_quantity >= q ==>
      var removed := Removed(old(CurrentSummary(db, key)), q);
      && err.None?
      && db.locks == old(db.locks)
      && db.lastTrx == old(db.lastTrx) + 1
      && CurrentSummary(db, key) == removed.0
      && db.summaries == old(db.summaries)[key := old(db.SummaryHistory(key)) +
           [Versioned(db.lastTrx, EncodeSummary(removed.0))]]
      && db.logs == old(db.logs)[key := old(db.LogHistory(key)) +
           [Versioned(db.lastTrx, EncodeLog(LogData("rm", removed.1)))]]
  {
    ghost var before := CurrentSummary(db, key);
    err := Lock(db, key);
    assert CurrentSummary(db, key) == before;
    if err.Some? {
      assert old(db.locks) + {key} == old(db.locks);
      err := WrapUnlock(db, key, err);
      return;
    }
    var summary := CurrentSummary(db, key);
    if summary.available_quantity < q {
      return Some(AppError(NOT_AVAILABLE_ERROR));
    }
    err := CommitRm(db, key, q);
    assert db.locks == old(db.locks) + {key};
    err := WrapUnlock(db, key, err);
    assert db.locks == old(db.locks) + {key} - {key};
    assert old(db.locks) + {key} - {key} == old(db.locks);
  }

  /** `rmRecord`: validate the quantity, then RmLocked. */
  method RmRecord(db: InventoryStore, key: Key, quantity: JsNumber) returns (err: Option<OpError>)
    requires db.Valid() && Ledgered(db)
    modifies db
    ensures db.Valid() && Ledgered(db)
    ensures !ValidQuantity(quantity) ==>
      err == Some(AppError(BadValue(Number(quantity), "quantity"))) && unchanged(db)
    ensures ValidQuantity(quantity) && key in old(db.locks) ==>
      err == Some(AppError(LOCKED_ERROR)) && unchanged(db)
    ensures (ValidQuantity(quantity) && key !in old(db.locks)
             && old(CurrentSummary(db, key)).available_quantity < QuantityOf(quantity)) ==>
      && err == Some(AppError(NOT_AVAILABLE_ERROR))
      && db.locks == old(db.locks) + {key}
      && db.summaries == old(db.summaries) && db.logs == old(db.logs) && db.lastTrx == old(db.lastTrx)
    ensures (ValidQuantity(quantity) && key !in old(db.locks)
             && old(CurrentSummary(db, key)).available_quantity >= QuantityOf(quantity)) ==>
      var removed := Removed(old(CurrentSummary(db, key)), QuantityOf(quantity));
      && err.None?
      && db.locks == old(db.locks)
      && db.lastTrx == old(db.lastTrx) + 1
      && CurrentSummary(db, key) == removed.0
      && db.summaries == old(db.summaries)[key := old(db.SummaryHistory(key)) +
           [Versioned(db.lastTrx, EncodeSummary(removed.0))]]
      && db.logs == old(db.logs)[key := old(db.LogHistory(key)) +
           [Versioned(db.lastTrx, EncodeLog(LogData("rm", removed.1)))]]
  {
    // An rm body carries no unit_price; the check that would read it is skipped.
    var invalid := ValidateOpParams(Rm, quantity, NaN);
    if invalid.Some? {
      err := WrapUnlock(db, key, Some(AppError(invalid.value)));
      return;
    }
    err := RmLocked(db, key, QuantityOf(quantity));
  }
}
