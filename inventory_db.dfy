/** The storage layer (src/inventory-db.js) as an in-memory store that
    follows the semantics of its CQL statements: a lock table with
    insert-if-absent and idempotent delete, and per-key summary and log
    histories keyed by an increasing transaction id. */
module InventoryDb {
  import opened Values

  /** The (cust_id, prd_id) pair that keys every table. */
  datatype Key = Key(cust_id: string, prd_id: string)

  /** One stock lot, or one movement record of a log entry. */
  datatype Lot = Lot(quantity: nat, unit_price: real)

  /** A decoded summary snapshot. */
  datatype Summary = Summary(
    available: seq<Lot>,
    available_quantity: nat,
    available_value: real,
    rm_quantity: nat,
    rm_value: real,
    total_quantity: nat,
    total_value: real)

  /** What a log entry records: the operation name and its movement records. */
  datatype LogData = LogData(operation: string, records: seq<Lot>)

  // The stored form of the rows. Decimal columns may be null (None).

  datatype StoredLot = StoredLot(quantity: nat, unit_price: Option<real>)

  datatype SummaryRow = SummaryRow(
    available: seq<StoredLot>,
    available_quantity: nat,
    available_value: Option<real>,
    rm_quantity: nat,
    rm_value: Option<real>,
    total_quantity: nat,
    total_value: Option<real>)

  datatype LogRow = LogRow(operation: string, records: seq<StoredLot>)

  /** A row together with the transaction id it was written under. */
  datatype Versioned<T> = Versioned(trx_id: nat, row: T)

  /** A read request: the key and, when a date was given, the transaction
      id that `maxTimeuuid(date)` stands for. */
  datatype QueryObj = QueryObj(key: Key, date: Option<nat>)

  datatype DriverError = DriverError(message: string)

  /** The one column the conditional insert returns. */
  datatype LockRow = LockRow(applied: bool)

  /** What the driver hands the callback of the lock insert. */
  datatype LockResponse = LockRows(rows: seq<LockRow>) | LockFailure(err: DriverError)

  /***************************************************************************
   * Decoding
   ***************************************************************************/

  /** A stored decimal as a number; an absent value reads as 0. */
  function GetNumber(d: Option<real>): real {
    if d.Some? then d.value else 0.0
  }

  function DecodeLot(l: StoredLot): Lot {
    Lot(l.quantity, GetNumber(l.unit_price))
  }

  /** The `_.map` over a lot list: count and order kept, each price read
      through GetNumber. */
  function DecodeLots(lots: seq<StoredLot>): (r: seq<Lot>)
    ensures |r| == |lots|
    ensures forall i :: 0 <= i < |lots| ==>
      r[i].quantity == lots[i].quantity && r[i].unit_price == GetNumber(lots[i].unit_price)
  {
    if lots == [] then [] else [DecodeLot(lots[0])] + DecodeLots(lots[1..])
  }

  function DecodeSummary(row: SummaryRow): Summary {
    Summary(
      DecodeLots(row.available),
      row.available_quantity,
      GetNumber(row.available_value),
      row.rm_quantity,
      GetNumber(row.rm_value),
      row.total_quantity,
      GetNumber(row.total_value))
  }

  function DecodeLog(row: LogRow): LogData {
    LogData(row.operation, DecodeLots(row.records))
  }

  function DecodeSummaryRow(v: Versioned<SummaryRow>): Versioned<Summary> {
    Versioned(v.trx_id, DecodeSummary(v.row))
  }

  function DecodeLogRow(v: Versioned<LogRow>): Versioned<LogData> {
    Versioned(v.trx_id, DecodeLog(v.row))
  }

  /** The result-row decoding of a summary read (`wrapDecodeSummary`):
      count and order kept, each row decoded under its own id. */
  function DecodeSummaryRows(rows: seq<Versioned<SummaryRow>>): (r: seq<Versioned<Summary>>)
    ensures |r| == |rows|
    ensures forall i :: 0 <= i < |rows| ==>
      r[i].trx_id == rows[i].trx_id && r[i].row == DecodeSummary(rows[i].row)
  {
    if rows == [] then [] else [DecodeSummaryRow(rows[0])] + DecodeSummaryRows(rows[1..])
  }

  /** The result-row decoding of a log read (`wrapDecodeLog`). */
  function DecodeLogRows(rows: seq<Versioned<LogRow>>): (r: seq<Versioned<LogData>>)
    ensures |r| == |rows|
    ensures forall i :: 0 <= i < |rows| ==>
      r[i].trx_id == rows[i].trx_id && r[i].row == DecodeLog(rows[i].row)
  {
    if rows == [] then [] else [DecodeLogRow(rows[0])] + DecodeLogRows(rows[1..])
  }

  // Encoding: what the batch insert stores; every decimal is present.

  function EncodeLot(l: Lot): StoredLot {
    StoredLot(l.quantity, Some(l.unit_price))
  }

  function EncodeLots(lots: seq<Lot>): (r: seq<StoredLot>)
    ensures |r| == |lots|
    ensures forall i :: 0 <= i < |lots| ==> r[i] == EncodeLot(lots[i])
  {
    if lots == [] then [] else [EncodeLot(lots[0])] + EncodeLots(lots[1..])
  }

  function EncodeSummary(s: Summary): SummaryRow {
    SummaryRow(
      EncodeLots(s.available),
      s.available_quantity,
      Some(s.available_value),
      s.rm_quantity,
      Some(s.rm_value),
      s.total_quantity,
      Some(s.total_value))
  }

  function EncodeLog(l: LogData): LogRow {
    LogRow(l.operation, EncodeLots(l.records))
  }

  lemma {:induction false} DecodeEncodeLots(lots: seq<Lot>)
    ensures DecodeLots(EncodeLots(lots)) == lots
  {
    var d := DecodeLots(EncodeLots(lots));
    assert |d| == |lots|;
    forall i | 0 <= i < |lots| ensures d[i] == lots[i] {
    }
  }

  /** A summary written by the batch reads back unchanged. */
  lemma {:induction false} DecodeEncodeSummary(s: Summary)
    ensures DecodeSummary(EncodeSummary(s)) == s
  {
    DecodeEncodeLots(s.available);
  }

  /** A log entry written by the batch reads back unchanged. */
  lemma {:induction false} DecodeEncodeLog(l: LogData)
    ensures DecodeLog(EncodeLog(l)) == l
  {
    DecodeEncodeLots(l.records);
  }

  /***************************************************************************
   * Histories
   ***************************************************************************/

  /** The row is visible to a read with this cutoff (`trx_id < maxTimeuuid(date)`). */
  predicate Before(trx_id: nat, date: Option<nat>) {
    date.None? || trx_id < date.value
  }

  /** Ids increase strictly along the history (the clustering order). */
  ghost predicate Increasing<T>(h: seq<Versioned<T>>) {
    forall i, j :: 0 <= i < j < |h| ==> h[i].trx_id < h[j].trx_id
  }

  ghost predicate IdsAtMost<T>(h: seq<Versioned<T>>, bound: nat) {
    forall i :: 0 <= i < |h| ==> h[i].trx_id <= bound
  }

  /** Two histories written in lockstep: the same ids in the same order. */
  ghost predicate SameIds<A, B>(a: seq<Versioned<A>>, b: seq<Versioned<B>>) {
    |a| == |b| && forall i :: 0 <= i < |a| ==> a[i].trx_id == b[i].trx_id
  }

  /** The position of the newest row visible under the cutoff, if any
      (`ORDER BY trx_id DESC LIMIT 1`). */
  function LatestBefore<T>(h: seq<Versioned<T>>, date: Option<nat>): (r: Option<nat>)
    ensures r.Some? ==> r.value < |h| && Before(h[r.value].trx_id, date)
    ensures r.Some? ==> forall j :: r.value < j < |h| ==> !Before(h[j].trx_id, date)
    ensures r.None? ==> forall j :: 0 <= j < |h| ==> !Before(h[j].trx_id, date)
  {
    if h == [] then None
    else if Before(h[|h| - 1].trx_id, date) then Some(|h| - 1)
    else LatestBefore(h[..|h| - 1], date)
  }

  /** The rows visible under the cutoff, newest first (`ORDER BY trx_id DESC`). */
  function NewestFirst<T>(h: seq<Versioned<T>>, date: Option<nat>): (r: seq<Versioned<T>>)
    requires Increasing(h)
    ensures forall i :: 0 <= i < |r| ==> r[i] in h && Before(r[i].trx_id, date)
    ensures forall j :: 0 <= j < |h| && Before(h[j].trx_id, date) ==> h[j] in r
    ensures forall i, j :: 0 <= i < j < |r| ==> r[i].trx_id > r[j].trx_id
  {
    if h == [] then []
    else
      var rest := NewestFirst(h[..|h| - 1], date);
      NewestFirstStep(h, date, rest);
      if Before(h[|h| - 1].trx_id, date) then [h[|h| - 1]] + rest else rest
  }

  /** One step of NewestFirst: given the rows of all but the last entry,
      putting the last entry in front (when visible) keeps the contract. */
  lemma NewestFirstStep<T>(h: seq<Versioned<T>>, date: Option<nat>, rest: seq<Versioned<T>>)
    requires Increasing(h) && h != []
    requires forall i :: 0 <= i < |rest| ==> rest[i] in h[..|h| - 1] && Before(rest[i].trx_id, date)
    requires forall j :: 0 <= j < |h| - 1 && Before(h[j].trx_id, date) ==> h[j] in rest
    requires forall i, j :: 0 <= i < j < |rest| ==> rest[i].trx_id > rest[j].trx_id
    ensures var r := if Before(h[|h| - 1].trx_id, date) then [h[|h| - 1]] + rest else rest;
      && (forall i :: 0 <= i < |r| ==> r[i] in h && Before(r[i].trx_id, date))
      && (forall j :: 0 <= j < |h| && Before(h[j].trx_id, date) ==> h[j] in r)
      && (forall i, j :: 0 <= i < j < |r| ==> r[i].trx_id > r[j].trx_id)
  {
    OlderThanLast(h, rest);
    if Before(h[|h| - 1].trx_id, date) {
      ConsNewest(h, date, rest);
    } else {
      var n := |h|;
      forall j | 0 <= j < n - 1 && Before(h[j].trx_id, date) ensures h[j] in rest {
        assert h[..n - 1][j] == h[j];
      }
    }
  }

  lemma OlderThanLast<T>(h: seq<Versioned<T>>, rest: seq<Versioned<T>>)
    requires Increasing(h) && h != []
    requires forall i :: 0 <= i < |rest| ==> rest[i] in h[..|h| - 1]
    ensures forall i :: 0 <= i < |rest| ==> rest[i] in h && rest[i].trx_id < h[|h| - 1].trx_id
  {
    var p := h[..|h| - 1];
    forall i | 0 <= i < |rest| ensures rest[i] in h && rest[i].trx_id < h[|h| - 1].trx_id {
      var k :| 0 <= k < |p| && p[k] == rest[i];
      assert h[k] == rest[i];
    }
  }

  lemma ConsNewest<T>(h: seq<Versioned<T>>, date: Option<nat>, rest: seq<Versioned<T>>)
    requires h != [] && Before(h[|h| - 1].trx_id, date)
    requires forall i :: 0 <= i < |rest| ==> rest[i] in h && rest[i].trx_id < h[|h| - 1].trx_id
    requires forall i :: 0 <= i < |rest| ==> Before(rest[i].trx_id, date)
    requires forall j :: 0 <= j < |h| - 1 && Before(h[j].trx_id, date) ==> h[j] in rest
    requires forall i, j :: 0 <= i < j < |rest| ==> rest[i].trx_id > rest[j].trx_id
    ensures var r := [h[|h| - 1]] + rest;
      && (forall i :: 0 <= i < |r| ==> r[i] in h && Before(r[i].trx_id, date))
      && (forall j :: 0 <= j < |h| && Before(h[j].trx_id, date) ==> h[j] in r)
      && (forall i, j :: 0 <= i < j < |r| ==> r[i].trx_id > r[j].trx_id)
  {
    var r := [h[|h| - 1]] + rest;
    forall i | 0 <= i < |r| ensures r[i] in h && Before(r[i].trx_id, date) {
      if i > 0 { assert r[i] == rest[i - 1]; }
    }
    forall j | 0 <= j < |h| && Before(h[j].trx_id, date) ensures h[j] in r {
      if j < |h| - 1 { assert h[j] in rest; }
    }
    forall i, j | 0 <= i < j < |r| ensures r[i].trx_id > r[j].trx_id {
      assert r[j] == rest[j - 1];
      if i > 0 { assert r[i] == rest[i - 1]; }
    }
  }

  lemma AppendFresh<T>(h: seq<Versioned<T>>, bound: nat, v: Versioned<T>)
    requires Increasing(h) && IdsAtMost(h, bound) && v.trx_id > bound
    ensures Increasing(h + [v]) && IdsAtMost(h + [v], v.trx_id)
  {
  }

  /***************************************************************************
   * The store
   ***************************************************************************/

  class InventoryStore {
    /** Rows of the lock table. */
    var locks: set<Key>
    /** Rows of the summary table, per key, oldest first. */
    var summaries: map<Key, seq<Versioned<SummaryRow>>>
    /** Rows of the log table, per key, oldest first. */
    var logs: map<Key, seq<Versioned<LogRow>>>
    /** The last transaction id handed out. */
    var lastTrx: nat

    ghost predicate Valid()
      reads this`summaries, this`logs, this`lastTrx
    {
      && summaries.Keys == logs.Keys
      && forall k | k in summaries ::
           && Increasing(summaries[k])
           && IdsAtMost(summaries[k], lastTrx)
           && SameIds(summaries[k], logs[k])
    }

    constructor ()
      ensures Valid()
      ensures locks == {} && summaries == map[] && logs == map[] && lastTrx == 0
    {
      locks := {};
      summaries := map[];
      logs := map[];
      lastTrx := 0;
    }

    function SummaryHistory(key: Key): seq<Versioned<SummaryRow>>
      reads this`summaries
    {
      if key in summaries then summaries[key] else []
    }

    function LogHistory(key: Key): seq<Versioned<LogRow>>
      reads this`logs
    {
      if key in logs then logs[key] else []
    }

    /** `INSERT INTO lock ... IF NOT EXISTS`: applied exactly when no lock row
        exists for the key; afterwards the row exists. */
    method AquireLock(key: Key) returns (res: LockResponse)
      modifies this`locks
      ensures res == LockRows([LockRow(key !in old(locks))])
      ensures locks == old(locks) + {key}
    {
      var applied := key !in locks;
      if applied {
        locks := locks + {key};
      }
      res := LockRows([LockRow(applied)]);
    }

    /** `DELETE FROM lock ...`: unconditional and idempotent. */
    method ReleaseLock(key: Key) returns (err: Option<DriverError>)
      modifies this`locks
      ensures err.None?
      ensures locks == old(locks) - {key}
    {
      locks := locks - {key};
      err := None;
    }

    /** The summary read: at most one row, the newest visible under the cutoff. */
    function GetSummary(q: QueryObj): (rows: seq<Versioned<Summary>>)
      reads this`summaries, this`logs, this`lastTrx
      requires Valid()
      ensures |rows| <= 1
      ensures var h := SummaryHistory(q.key);
        rows == [] <==> forall j :: 0 <= j < |h| ==> !Before(h[j].trx_id, q.date)
      ensures var h := SummaryHistory(q.key);
        rows != [] ==>
          exists j :: 0 <= j < |h| && Before(h[j].trx_id, q.date) &&
            rows[0] == DecodeSummaryRow(h[j]) &&
            forall k :: 0 <= k < |h| && Before(h[k].trx_id, q.date) ==> h[k].trx_id <= h[j].trx_id
    {
      var h := SummaryHistory(q.key);
      match LatestBefore(h, q.date)
      case None => []
      case Some(j) =>
        DecodeSummaryRows([h[j]])
    }

    /** The log read: every row visible under the cutoff, newest first. */
    function GetLogs(q: QueryObj): (rows: seq<Versioned<LogData>>)
      reads this`summaries, this`logs, this`lastTrx
      requires Valid()
      ensures var h := LogHistory(q.key);
        forall i :: 0 <= i < |rows| ==>
          Before(rows[i].trx_id, q.date) && exists j :: 0 <= j < |h| && rows[i] == DecodeLogRow(h[j])
      ensures var h := LogHistory(q.key);
        forall j :: 0 <= j < |h| && Before(h[j].trx_id, q.date) ==> DecodeLogRow(h[j]) in rows
      ensures forall i, j :: 0 <= i < j < |rows| ==> rows[i].trx_id > rows[j].trx_id
    {
      var h := LogHistory(q.key);
      assert Increasing(h) by {
        if q.key in logs {
          assert SameIds(summaries[q.key], logs[q.key]);
        }
      }
      var visible := NewestFirst(h, q.date);
      var rows := DecodeLogRows(visible);
      assert forall i :: 0 <= i < |rows| ==> rows[i] == DecodeLogRow(visible[i]);
      rows
    }

    /** The batch: one summary row and one log row under the same fresh id,
        greater than every id stored so far; nothing else changes. */
    method UpdateInventory(key: Key, summary: Summary, log: LogData) returns (err: Option<DriverError>)
      requires Valid()
      modifies this`summaries, this`logs, this`lastTrx
      ensures Valid()
      ensures err.None?
      ensures lastTrx == old(lastTrx) + 1
      ensures forall k, j | k in old(summaries) && 0 <= j < |old(summaries)[k]| ::
        old(summaries)[k][j].trx_id < lastTrx
      ensures summaries == old(summaries)[key := old(SummaryHistory(key)) + [Versioned(lastTrx, EncodeSummary(summary))]]
      ensures logs == old(logs)[key := old(LogHistory(key)) + [Versioned(lastTrx, EncodeLog(log))]]
    {
      var trx := lastTrx + 1;
      var sh := SummaryHistory(key);
      var lh := LogHistory(key);
      AppendFresh(sh, lastTrx, Versioned(trx, EncodeSummary(summary)));
      summaries := summaries[key := sh + [Versioned(trx, EncodeSummary(summary))]];
      logs := logs[key := lh + [Versioned(trx, EncodeLog(log))]];
      lastTrx := trx;
      err := None;
    }
  }
}
