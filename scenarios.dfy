/** Concrete ledgers: the add and rm sequences the service's own test suite
    runs, computed through Added and Removed. */
module Scenarios {
  import opened InventoryDb
  import opened Ledger

  /** The sums over a two-lot list. */
  lemma SumsPair(a: Lot, b: Lot)
    ensures SumQty([a, b]) == a.quantity + b.quantity
    ensures SumValue([a, b]) == LotValue(a) + LotValue(b)
  {
    assert [a, b][1..] == [b];
    SumsSingle(b);
  }

  /** Depleting less than the front lot holds splits it. */
  lemma SplitFront(l: Lot, rest: seq<Lot>, q: nat)
    requires 0 < q < l.quantity
    ensures Deplete([l] + rest, q) == ([Lot(l.quantity - q, l.unit_price)] + rest, [Lot(q, l.unit_price)])
  {
    assert ([l] + rest)[1..] == rest;
  }

  /** Depleting at least the front lot consumes it whole and goes on. */
  lemma TakeFront(l: Lot, rest: seq<Lot>, q: nat)
    requires 0 < l.quantity <= q
    ensures Deplete([l] + rest, q) ==
      (Deplete(rest, q - l.quantity).0, [l] + Deplete(rest, q - l.quantity).1)
  {
    assert ([l] + rest)[1..] == rest;
  }

  /** Stock of 100 at 10 then 250 at 15; removing 200 empties the first lot
      and splits the second, leaving 150 at 15. */
  lemma {:induction false} FifoSplitsSecondLot()
    ensures var s := Added(Added(EMPTY_SUMMARY, 100, 10.0), 250, 15.0);
      && s.available_quantity == 350
      && var r := Removed(s, 200);
      && r.1 == [Lot(100, 10.0), Lot(100, 15.0)]
      && r.0.available == [Lot(150, 15.0)]
      && r.0.available_quantity == 150 && r.0.available_value == 2250.0
      && r.0.rm_quantity == 200 && r.0.rm_value == 2500.0
      && r.0.total_quantity == 350 && r.0.total_value == 4750.0
  {
    TimesIsProduct(100, 10.0);
    TimesIsProduct(250, 15.0);
    TimesIsProduct(100, 15.0);
    var s := Added(Added(EMPTY_SUMMARY, 100, 10.0), 250, 15.0);
    assert s.available == [Lot(100, 10.0)] + [Lot(250, 15.0)];
    TakeFront(Lot(100, 10.0), [Lot(250, 15.0)], 200);
    SplitFront(Lot(250, 15.0), [], 100);
    assert [Lot(250, 15.0)] + [] == [Lot(250, 15.0)];
    SumsPair(Lot(100, 10.0), Lot(100, 15.0));
  }

  /** Three adds, each followed by a removal: the first lot runs out in the
      second removal, the second lot is left with 25, and the third is
      untouched. */
  lemma {:induction false} InterleavedAddsAndRemovals()
    ensures var s1 := Added(EMPTY_SUMMARY, 100, 10.0);
      && s1.available_quantity >= 50
      && var s2 := Added(Removed(s1, 50).0, 250, 15.0);
      && s2.available_quantity >= 225
      && var s3 := Added(Removed(s2, 225).0, 150, 12.5);
      && s3.available_quantity >= 50
      && var s := Removed(s3, 50).0;
      && s.available == [Lot(25, 15.0), Lot(150, 12.5)]
      && s.available_quantity == 175 && s.available_value == 2250.0
      && s.rm_quantity == 325 && s.rm_value == 4375.0
      && s.total_quantity == 500 && s.total_value == 6625.0
  {
    TimesIsProduct(100, 10.0);
    TimesIsProduct(50, 10.0);
    TimesIsProduct(250, 15.0);
    TimesIsProduct(175, 15.0);
    TimesIsProduct(150, 12.5);
    TimesIsProduct(50, 15.0);
    var s1 := Added(EMPTY_SUMMARY, 100, 10.0);
    assert s1.available == [Lot(100, 10.0)] + [];
    SplitFront(Lot(100, 10.0), [], 50);
    SumsSingle(Lot(50, 10.0));
    var s2 := Added(Removed(s1, 50).0, 250, 15.0);
    assert s2.available == [Lot(50, 10.0)] + [Lot(250, 15.0)];
    TakeFront(Lot(50, 10.0), [Lot(250, 15.0)], 225);
    SplitFront(Lot(250, 15.0), [], 175);
    SumsPair(Lot(50, 10.0), Lot(175, 15.0));
    var s3 := Added(Removed(s2, 225).0, 150, 12.5);
    assert s3.available == [Lot(75, 15.0)] + [Lot(150, 12.5)];
    SplitFront(Lot(75, 15.0), [Lot(150, 12.5)], 50);
    SumsSingle(Lot(50, 15.0));
  }
}
