/**
 * Worked examples over the seed orders and single orders, stated as lemmas:
 * what the dashboard shows on first start, after delivering the first seed
 * order, and when a delivery falls due.
 */
module Scenarios {
  import opened Wrappers
  import opened Schema
  import opened Catalog
  import opened OrderStore
  import opened Dashboard

  /** The figures of a two-order collection, order by order. */
  lemma TwoOrderFigures(a: Order, b: Order, s: OrderStatus, now: int)
    ensures PendingRevenue([a, b]) == Balance(a) + Balance(b)
    ensures ActiveOrders([a, b]) == (if a.status != Delivered then 1 else 0) + (if b.status != Delivered then 1 else 0)
    ensures CountStatus([a, b], s) == (if a.status == s then 1 else 0) + (if b.status == s then 1 else 0)
    ensures DeliveriesDue([a], now) + DeliveriesDue([b], now) == DeliveriesDue([a, b], now)
  {
    assert [a, b][1..] == [b];
    assert [b][1..] == [];
    assert PendingRevenue([b]) == Balance(b) + PendingRevenue([]);
  }

  /** With nothing stored, the dashboard shows two active orders and 10,000 rupees pending. */
  lemma FirstStartFigures(decode: string -> Option<seq<Order>>, now: int)
    ensures ComputeStats(Load(None, decode, now)) == Stats(2, 10000, 2)
    ensures DeliveriesDue(Load(None, decode, now), now) == 0
  {
    var seed := SeedOrders(now);
    assert Load(None, decode, now) == [seed[0], seed[1]];
    TwoOrderFigures(seed[0], seed[1], Delivered, now);
    assert [seed[0]][1..] == [] && [seed[1]][1..] == [];
  }

  /** The seed histogram: one order cutting, one stitching, the other bars at zero. */
  lemma SeedHistogram(now: int)
    ensures StatusData(SeedOrders(now)) == [
      StatusCount(Measured, 0), StatusCount(Cutting, 1), StatusCount(Stitching, 1),
      StatusCount(Finishing, 0), StatusCount(Ready, 0), StatusCount(Delivered, 0)]
  {
    var seed := SeedOrders(now);
    assert seed == [seed[0], seed[1]];
    var h := StatusData(seed);
    forall i | 0 <= i < 6
      ensures h[i].count == CountStatus([seed[0], seed[1]], AllStatuses()[i])
    {
    }
    TwoOrderFigures(seed[0], seed[1], Measured, now);
    TwoOrderFigures(seed[0], seed[1], Cutting, now);
    TwoOrderFigures(seed[0], seed[1], Stitching, now);
    TwoOrderFigures(seed[0], seed[1], Finishing, now);
    TwoOrderFigures(seed[0], seed[1], Ready, now);
    TwoOrderFigures(seed[0], seed[1], Delivered, now);
  }

  /** Delivering ORD-001 leaves one active order, two in all, and the revenue unchanged. */
  lemma DeliverFirstSeedOrder(now: int)
    ensures ComputeStats(UpdateStatus(SeedOrders(now), "ORD-001", Delivered)) == Stats(2, 10000, 1)
  {
    var seed := SeedOrders(now);
    var after := UpdateStatus(seed, "ORD-001", Delivered);
    assert after[0].status == Delivered;
    assert after[1] == seed[1];
    assert after == [after[0], after[1]];
    UpdateKeepsRevenue(seed, "ORD-001", Delivered);
    assert seed == [seed[0], seed[1]];
    TwoOrderFigures(seed[0], seed[1], Delivered, now);
    TwoOrderFigures(after[0], after[1], Delivered, now);
  }

  /** An undelivered order a day past its delivery date is due; the same order delivered is not. */
  lemma DueOneDayLate(o: Order, d: int)
    requires o.deliveryDate == Some(d) && o.status != Delivered
    ensures DeliveriesDue([o], d + Day) == 1
    ensures DeliveriesDue([o.(status := Delivered)], d + Day) == 0
  {
  }

  /** An order whose delivery date does not denote a date is never due. */
  lemma UnreadableDateNeverDue(o: Order, now: int)
    requires o.deliveryDate.None?
    ensures DeliveriesDue([o], now) == 0
  {
  }
}
