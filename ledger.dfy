/** The accounting of one inventory line (src/inventory.js): lot sums, the
    summary invariant, the append step of `addRecord` and the FIFO depletion
    loop of `rmRecord`. */
module Ledger {
  import opened InventoryDb

  /***************************************************************************
   * Sums over lots
   ***************************************************************************/

  /** q units at price p, summed unit by unit. Written as repeated addition
      so that the solver only meets linear arithmetic; `TimesIsProduct`
      shows it is the product `q * p` the source computes. */
  function Times(q: nat, p: real): real {
    if q == 0 then 0.0 else Times(q - 1, p) + p
  }

  lemma {:induction false} TimesIsProduct(q: nat, p: real)
    ensures Times(q, p) == q as real * p
  {
    if q > 0 {
      TimesIsProduct(q - 1, p);
      assert (q - 1) as real * p + p == q as real * p;
    }
  }

  lemma {:induction false} TimesSplit(a: nat, b: nat, p: real)
    ensures Times(a + b, p) == Times(a, p) + Times(b, p)
    decreases b
  {
    if b > 0 {
      TimesSplit(a, b - 1, p);
    }
  }

  /** The value of a lot: its quantity times its unit price. */
  function LotValue(l: Lot): real {
    Times(l.quantity, l.unit_price)
  }

  function SumQty(lots: seq<Lot>): nat {
    if lots == [] then 0 else lots[0].quantity + SumQty(lots[1..])
  }

  function SumValue(lots: seq<Lot>): real {
    if lots == [] then 0.0 else LotValue(lots[0]) + SumValue(lots[1..])
  }

  lemma {:induction false} SumsAppend(a: seq<Lot>, b: seq<Lot>)
    ensures SumQty(a + b) == SumQty(a) + SumQty(b)
    ensures SumValue(a + b) == SumValue(a) + SumValue(b)
  {
    if a == [] {
      assert a + b == b;
    } else {
      assert (a + b)[1..] == a[1..] + b;
      SumsAppend(a[1..], b);
    }
  }

  lemma SumsSingle(l: Lot)
    ensures SumQty([l]) == l.quantity && SumValue([l]) == LotValue(l)
  {
    assert [l][1..] == [];
  }

  /** Every lot holds stock and has a non-negative price. */
  ghost predicate LotsWellFormed(lots: seq<Lot>) {
    forall i :: 0 <= i < |lots| ==> lots[i].quantity > 0 && lots[i].unit_price >= 0.0
  }

  /** The summary invariant: the counters agree with the lots, and the
      totals split into what is available and what was removed. */
  ghost predicate Consistent(s: Summary) {
    && LotsWellFormed(s.available)
    && s.available_quantity == SumQty(s.available)
    && s.available_value == SumValue(s.available)
    && s.total_quantity == s.available_quantity + s.rm_quantity
    && s.total_value == s.available_value + s.rm_value
  }

  /** The all-zero snapshot a key has before its first write. */
  const EMPTY_SUMMARY: Summary := Summary([], 0, 0.0, 0, 0.0, 0, 0.0)

  /***************************************************************************
   * addRecord
   ***************************************************************************/

  /** The snapshot after adding q units at price p. */
  function Added(s: Summary, q: nat, p: real): Summary {
    s.(total_quantity := s.total_quantity + q,
       total_value := s.total_value + LotValue(Lot(q, p)),
       available := s.available + [Lot(q, p)],
       available_quantity := s.available_quantity + q,
       available_value := s.available_value + LotValue(Lot(q, p)))
  }

  /** Adding appends exactly one lot, of q units at p, after the existing
      ones, and keeps the summary invariant. */
  lemma AddedAppends(s: Summary, q: nat, p: real)
    ensures |Added(s, q, p).available| == |s.available| + 1
    ensures Added(s, q, p).available[..|s.available|] == s.available
    ensures Added(s, q, p).available[|s.available|] == Lot(q, p)
    ensures Consistent(s) && q > 0 && p >= 0.0 ==> Consistent(Added(s, q, p))
  {
    SumsAppend(s.available, [Lot(q, p)]);
    assert SumValue([Lot(q, p)]) == LotValue(Lot(q, p));
    assert (s.available + [Lot(q, p)])[..|s.available|] == s.available;
  }

  /** The summary update and log entry `addRecord` builds. */
  method ApplyAdd(summary: Summary, quantity: nat, unitPrice: real) returns (summaryData: Summary, logData: LogData)
    ensures summaryData == Added(summary, quantity, unitPrice)
    ensures summaryData.total_quantity == summary.total_quantity + quantity
    ensures summaryData.available_quantity == summary.available_quantity + quantity
    ensures summaryData.total_value == summary.total_value + LotValue(Lot(quantity, unitPrice))
    ensures summaryData.available_value == summary.available_value + LotValue(Lot(quantity, unitPrice))
    ensures summaryData.rm_quantity == summary.rm_quantity && summaryData.rm_value == summary.rm_value
    ensures logData == LogData("add", [Lot(quantity, unitPrice)])
  {
    summaryData := summary;
    summaryData := summaryData.(total_quantity := summaryData.total_quantity + quantity);
    summaryData := summaryData.(total_value := summaryData.total_value + LotValue(Lot(quantity, unitPrice)));
    summaryData := summaryData.(available := summaryData.available + [Lot(quantity, unitPrice)]);
    summaryData := summaryData.(available_quantity := summaryData.available_quantity + quantity);
    summaryData := summaryData.(available_value := summaryData.available_value + LotValue(Lot(quantity, unitPrice)));
    logData := LogData("add", [Lot(quantity, unitPrice)]);
  }

  /***************************************************************************
   * rmRecord: FIFO depletion
   ***************************************************************************/

  /** FIFO depletion of q units: the lots left and the movement records, in
      consumption order. A front lot larger than what remains is split; one
      equal to it is consumed whole. */
  function Deplete(lots: seq<Lot>, q: nat): (r: (seq<Lot>, seq<Lot>))
    decreases |lots|
  {
    if q == 0 || lots == [] then (lots, [])
    else if q < lots[0].quantity then
      ([Lot(lots[0].quantity - q, lots[0].unit_price)] + lots[1..], [Lot(q, lots[0].unit_price)])
    else
      var (rest, records) := Deplete(lots[1..], q - lots[0].quantity);
      (rest, [lots[0]] + records)
  }

  /** The records add up to q, the lots left to what was there minus q, and
      no value is created or lost. */
  lemma {:induction false} DepleteSums(lots: seq<Lot>, q: nat)
    requires q <= SumQty(lots)
    ensures var (rest, records) := Deplete(lots, q);
      && SumQty(records) == q
      && SumQty(rest) == SumQty(lots) - q
      && SumValue(rest) + SumValue(records) == SumValue(lots)
    decreases |lots|
  {
    if q == 0 {
    } else if q < lots[0].quantity {
      var l := lots[0];
      var split := Lot(l.quantity - q, l.unit_price);
      assert ([split] + lots[1..])[1..] == lots[1..];
      assert [Lot(q, l.unit_price)][1..] == [];
      TimesSplit(l.quantity - q, q, l.unit_price);
    } else {
      DepleteSums(lots[1..], q - lots[0].quantity);
      var (rest, records) := Deplete(lots[1..], q - lots[0].quantity);
      assert ([lots[0]] + records)[1..] == records;
    }
  }

  /** FIFO order: the records follow the lots front first, each at its lot's
      price; all but the last are whole lots; the last lot touched is either
      consumed whole and gone, or split and left at the front with the
      consumed part subtracted and its price kept. */
  lemma {:induction false} DepleteFifo(lots: seq<Lot>, q: nat)
    requires q <= SumQty(lots)
    ensures var (rest, records) := Deplete(lots, q);
      && |records| <= |lots|
      && (q == 0 <==> records == [])
      && (records == [] ==> rest == lots)
      && (forall i :: 0 <= i < |records| ==> records[i].unit_price == lots[i].unit_price)
      && (forall i :: 0 <= i < |records| - 1 ==> records[i] == lots[i])
      && (records != [] ==>
            var n := |records|;
            && 0 < records[n - 1].quantity <= lots[n - 1].quantity
            && (records[n - 1].quantity == lots[n - 1].quantity ==> rest == lots[n..])
            && (records[n - 1].quantity < lots[n - 1].quantity ==>
                  rest == [Lot(lots[n - 1].quantity - records[n - 1].quantity, lots[n - 1].unit_price)] + lots[n..]))
    decreases |lots|
  {
    if q == 0 {
    } else if q < lots[0].quantity {
    } else {
      var q' := q - lots[0].quantity;
      DepleteFifo(lots[1..], q');
      var (rest, records) := Deplete(lots[1..], q');
      var all := [lots[0]] + records;
      assert forall i :: 1 <= i < |all| ==> all[i] == records[i - 1];
      if records != [] {
        var n := |records|;
        assert lots[1..][n - 1] == lots[n];
        assert lots[1..][n..] == lots[n + 1..];
      } else {
        assert q' == 0;
        assert rest == lots[1..];
      }
    }
  }

  /** Depleting well-formed lots leaves well-formed lots (none at zero) and
      produces records that each move stock. */
  lemma {:induction false} DepleteWellFormed(lots: seq<Lot>, q: nat)
    requires q <= SumQty(lots) && LotsWellFormed(lots)
    ensures var (rest, records) := Deplete(lots, q);
      LotsWellFormed(rest) && LotsWellFormed(records)
    decreases |lots|
  {
    if q == 0 {
    } else if q < lots[0].quantity {
    } else {
      DepleteWellFormed(lots[1..], q - lots[0].quantity);
    }
  }

  /** The counters after `records` have moved from available to removed. */
  function Charged(s: Summary, records: seq<Lot>): Summary
    requires SumQty(records) <= s.available_quantity
  {
    s.(available_quantity := s.available_quantity - SumQty(records),
       available_value := s.available_value - SumValue(records),
       rm_quantity := s.rm_quantity + SumQty(records),
       rm_value := s.rm_value + SumValue(records))
  }

  /** Charging one more record moves its quantity and value across. */
  lemma ChargedStep(s: Summary, records: seq<Lot>, r: Lot)
    requires SumQty(records) + r.quantity <= s.available_quantity
    ensures SumQty(records + [r]) <= s.available_quantity
    ensures var c := Charged(s, records);
      Charged(s, records + [r]) == c.(available_quantity := c.available_quantity - r.quantity,
                                       available_value := c.available_value - LotValue(r),
                                       rm_quantity := c.rm_quantity + r.quantity,
                                       rm_value := c.rm_value + LotValue(r))
  {
    SumsAppend(records, [r]);
    SumsSingle(r);
  }

  /** Depletion never records more than was asked for, whatever the lots. */
  lemma {:induction false} DepleteAtMost(lots: seq<Lot>, q: nat)
    ensures SumQty(Deplete(lots, q).1) <= q
    decreases |lots|
  {
    if q == 0 || lots == [] {
    } else if q < lots[0].quantity {
      assert [Lot(q, lots[0].unit_price)][1..] == [];
    } else {
      DepleteAtMost(lots[1..], q - lots[0].quantity);
      var (rest, records) := Deplete(lots[1..], q - lots[0].quantity);
      assert ([lots[0]] + records)[1..] == records;
    }
  }

  /** The snapshot after removing q units, and the movement records. On a
      consistent snapshot the records move exactly q units, and the
      counters follow them. */
  function Removed(s: Summary, q: nat): (Summary, seq<Lot>)
    requires q <= s.available_quantity
  {
    DepleteAtMost(s.available, q);
    var (rest, records) := Deplete(s.available, q);
    (Charged(s, records).(available := rest), records)
  }

  /** Removing q units from a consistent snapshot moves exactly q units and
      their value from available to removed, records well-formed lots, and
      keeps the summary invariant; the totals never change. */
  lemma RemovedMoves(s: Summary, q: nat)
    requires q <= s.available_quantity
    ensures var r := Removed(s, q);
      && (Consistent(s) ==> Consistent(r.0) && SumQty(r.1) == q && LotsWellFormed(r.1))
      && (Consistent(s) ==> r.0.available_quantity + q == s.available_quantity)
      && (Consistent(s) ==> r.0.rm_quantity == s.rm_quantity + q)
      && s.available_value - r.0.available_value == r.0.rm_value - s.rm_value == SumValue(r.1)
      && r.0.total_quantity == s.total_quantity && r.0.total_value == s.total_value
  {
    DepleteAtMost(s.available, q);
    RemovedConsistent(s, q);
  }

  lemma RemovedConsistent(s: Summary, q: nat)
    requires q <= s.available_quantity
    ensures SumQty(Deplete(s.available, q).1) <= s.available_quantity
    ensures var (rest, records) := Deplete(s.available, q);
      Consistent(s) ==>
        SumQty(records) == q && LotsWellFormed(records) && Consistent(Charged(s, records).(available := rest))
  {
    DepleteAtMost(s.available, q);
    if Consistent(s) {
      DepleteSums(s.available, q);
      DepleteWellFormed(s.available, q);
    }
  }

  /** What the FIFO loop of `rmRecord` keeps: `summaryData` holds the
      summary with the records so far charged and the lots not yet touched,
      and finishing Deplete from there gives the overall result. */
  ghost predicate RmLoopInv(s: Summary, q: nat, summaryData: Summary, remaining: nat, records: seq<Lot>) {
    && remaining <= q <= s.available_quantity
    && q <= SumQty(s.available)
    && remaining <= SumQty(summaryData.available)
    && SumQty(records) == q - remaining
    && Deplete(s.available, q)
       == (Deplete(summaryData.available, remaining).0, records + Deplete(summaryData.available, remaining).1)
    && summaryData == Charged(s, records).(available := summaryData.available)
  }

  lemma RmLoopEntry(s: Summary, q: nat)
    requires q <= s.available_quantity && q <= SumQty(s.available)
    ensures RmLoopInv(s, q, s, q, [])
  {
    assert [] + Deplete(s.available, q).1 == Deplete(s.available, q).1;
  }

  /** One turn of the loop when the front lot is larger than what remains:
      the lot is split and stays at the front. */
  lemma RmLoopSplit(s: Summary, q: nat, summaryData: Summary, remaining: nat, records: seq<Lot>)
    requires RmLoopInv(s, q, summaryData, remaining, records)
    requires 0 < remaining
    ensures summaryData.available != []
    ensures var entry := summaryData.available[0];
      var record := Lot(remaining, entry.unit_price);
      remaining < entry.quantity ==>
        RmLoopInv(s, q,
          summaryData.(available := [entry.(quantity := entry.quantity - remaining)] + summaryData.available[1..],
                       rm_quantity := summaryData.rm_quantity + remaining,
                       rm_value := summaryData.rm_value + LotValue(record),
                       available_quantity := summaryData.available_quantity - remaining,
                       available_value := summaryData.available_value - LotValue(record)),
          0, records + [record])
  {
    var lots := summaryData.available;
    var entry := lots[0];
    if remaining < entry.quantity {
      var record := Lot(remaining, entry.unit_price);
      ChargedStep(s, records, record);
      var left := [entry.(quantity := entry.quantity - remaining)] + lots[1..];
      assert Deplete(lots, remaining) == (left, [record]);
      assert Deplete(left, 0) == (left, []);
      SumsAppend(records, [record]);
      SumsSingle(record);
      assert records + [record] + [] == records + [record];
    }
  }

  /** One turn of the loop when the front lot is no larger than what
      remains: the lot is consumed whole. */
  lemma RmLoopWhole(s: Summary, q: nat, summaryData: Summary, remaining: nat, records: seq<Lot>)
    requires RmLoopInv(s, q, summaryData, remaining, records)
    requires 0 < remaining
    ensures summaryData.available != []
    ensures var entry := summaryData.available[0];
      var record := Lot(entry.quantity, entry.unit_price);
      remaining >= entry.quantity ==>
        RmLoopInv(s, q,
          summaryData.(available := summaryData.available[1..],
                       available_quantity := summaryData.available_quantity - entry.quantity,
                       rm_quantity := summaryData.rm_quantity + entry.quantity,
                       available_value := summaryData.available_value - LotValue(record),
                       rm_value := summaryData.rm_value + LotValue(record)),
          remaining - entry.quantity, records + [record])
  {
    var lots := summaryData.available;
    var entry := lots[0];
    if remaining >= entry.quantity {
      var record := Lot(entry.quantity, entry.unit_price);
      assert record == entry;
      ChargedStep(s, records, record);
      SumsAppend(records, [record]);
      SumsSingle(record);
      var rest := Deplete(lots[1..], remaining - entry.quantity);
      assert Deplete(lots, remaining) == (rest.0, [entry] + rest.1);
      assert records + ([record] + rest.1) == (records + [record]) + rest.1;
    }
  }

  lemma RmLoopExit(s: Summary, q: nat, summaryData: Summary, records: seq<Lot>)
    requires RmLoopInv(s, q, summaryData, 0, records)
    ensures (summaryData, records) == Removed(s, q)
  {
    assert Deplete(summaryData.available, 0) == (summaryData.available, []);
    assert records + [] == records;
  }

  /** The FIFO loop of `rmRecord`: takes the front lot off, splits it back
      onto the front when it is larger than what remains to remove, and
      accumulates one record per consumed piece into the counters. */
  method ApplyRm(summary: Summary, quantity: nat) returns (summaryData: Summary, logData: LogData)
    requires quantity <= summary.available_quantity && quantity <= SumQty(summary.available)
    ensures (summaryData, logData.records) == Removed(summary, quantity)
    ensures logData.operation == "rm"
  {
    var rmRecords: seq<Lot> := [];
    summaryData := summary;
    var remaining: nat := quantity;
    RmLoopEntry(summary, quantity);
    while remaining > 0
      invariant RmLoopInv(summary, quantity, summaryData, remaining, rmRecords)
      decreases |summaryData.available|, remaining
    {
      RmLoopSplit(summary, quantity, summaryData, remaining, rmRecords);
      RmLoopWhole(summary, quantity, summaryData, remaining, rmRecords);
      var entry := summaryData.available[0];
      summaryData := summaryData.(available := summaryData.available[1..]);
      if remaining < entry.quantity {
        var record := Lot(remaining, entry.unit_price);
        rmRecords := rmRecords + [record];
        summaryData := summaryData.(rm_quantity := summaryData.rm_quantity + remaining);
        summaryData := summaryData.(rm_value := summaryData.rm_value + LotValue(record));
        summaryData := summaryData.(available_quantity := summaryData.available_quantity - remaining);
        summaryData := summaryData.(available_value := summaryData.available_value - LotValue(record));
        entry := entry.(quantity := entry.quantity - remaining);
        summaryData := summaryData.(available := [entry] + summaryData.available);
        remaining := 0;
      } else {
        var record := Lot(entry.quantity, entry.unit_price);
        rmRecords := rmRecords + [record];
        summaryData := summaryData.(available_quantity := summaryData.available_quantity - entry.quantity);
        summaryData := summaryData.(rm_quantity := summaryData.rm_quantity + entry.quantity);
        summaryData := summaryData.(available_value := summaryData.available_value - LotValue(record));
        summaryData := summaryData.(rm_value := summaryData.rm_value + LotValue(record));
        remaining := remaining - entry.quantity;
      }
    }
    RmLoopExit(summary, quantity, summaryData, rmRecords);
    logData := LogData("rm", rmRecords);
  }
}
