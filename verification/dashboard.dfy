/**
 * The dashboard's figures (components/Dashboard.tsx), recomputed from the
 * current collection on every render: total count, pending revenue, active
 * count, the per-status histogram and the number of deliveries due.
 */
module Dashboard {
  import opened Wrappers
  import opened Schema
  import opened OrderStore

  // ---------------------------------------------------------------- counting

  /** Orders at status `s`: `orders.filter(o => o.status === s).length`. */
  function CountStatus(orders: seq<Order>, s: OrderStatus): (n: nat)
    ensures n <= |orders|
  {
    if |orders| == 0 then 0
    else (if orders[0].status == s then 1 else 0) + CountStatus(orders[1..], s)
  }

  /** Orders not yet delivered. */
  function ActiveOrders(orders: seq<Order>): (n: nat)
    ensures n <= |orders|
  {
    if |orders| == 0 then 0
    else (if orders[0].status != Delivered then 1 else 0) + ActiveOrders(orders[1..])
  }

  /**
   * Orders due by `now` and not yet delivered. An order whose delivery date
   * does not denote a date is never due (the comparison with an invalid date
   * is false).
   */
  predicate IsDue(o: Order, now: int) {
    o.deliveryDate.Some? && o.deliveryDate.value <= now && o.status != Delivered
  }

  function DeliveriesDue(orders: seq<Order>, now: int): (n: nat)
    ensures n <= |orders|
  {
    if |orders| == 0 then 0
    else (if IsDue(orders[0], now) then 1 else 0) + DeliveriesDue(orders[1..], now)
  }

  /** The statuses of the orders, in collection order. */
  function Statuses(orders: seq<Order>): (r: seq<OrderStatus>)
    ensures |r| == |orders|
    ensures forall i :: 0 <= i < |orders| ==> r[i] == orders[i].status
  {
    if |orders| == 0 then [] else [orders[0].status] + Statuses(orders[1..])
  }

  /** The count at a status is the number of times that status occurs among the orders. */
  lemma {:induction false} CountStatusIsMultiplicity(orders: seq<Order>, s: OrderStatus)
    ensures CountStatus(orders, s) == multiset(Statuses(orders))[s]
  {
    if |orders| > 0 {
      CountStatusIsMultiplicity(orders[1..], s);
      assert Statuses(orders) == [orders[0].status] + Statuses(orders[1..]);
    }
  }

  /** Whether each order is due by `now`, in collection order. */
  function DueFlags(orders: seq<Order>, now: int): (r: seq<bool>)
    ensures |r| == |orders|
    ensures forall i :: 0 <= i < |orders| ==> r[i] == IsDue(orders[i], now)
  {
    if |orders| == 0 then [] else [IsDue(orders[0], now)] + DueFlags(orders[1..], now)
  }

  /** The due count is the number of orders that are due. */
  lemma {:induction false} DeliveriesDueIsMultiplicity(orders: seq<Order>, now: int)
    ensures DeliveriesDue(orders, now) == multiset(DueFlags(orders, now))[true]
  {
    if |orders| > 0 {
      DeliveriesDueIsMultiplicity(orders[1..], now);
      assert DueFlags(orders, now) == [IsDue(orders[0], now)] + DueFlags(orders[1..], now);
    }
  }

  /** Nothing is reported due exactly when no order is due. */
  lemma {:induction false} NoneDueIffNoOrderDue(orders: seq<Order>, now: int)
    ensures DeliveriesDue(orders, now) == 0 <==> forall i :: 0 <= i < |orders| ==> !IsDue(orders[i], now)
  {
    if |orders| > 0 {
      NoneDueIffNoOrderDue(orders[1..], now);
      if DeliveriesDue(orders, now) == 0 {
        forall i | 0 <= i < |orders|
          ensures !IsDue(orders[i], now)
        {
          if i > 0 {
            assert orders[i] == orders[1..][i - 1];
          }
        }
      } else if !IsDue(orders[0], now) {
        var j :| 0 <= j < |orders[1..]| && IsDue(orders[1..][j], now);
        assert IsDue(orders[j + 1], now);
      }
    }
  }

  /** Every order is either active or delivered: active + delivered = total. */
  lemma {:induction false} ActivePlusDelivered(orders: seq<Order>)
    ensures ActiveOrders(orders) + CountStatus(orders, Delivered) == |orders|
  {
    if |orders| > 0 {
      ActivePlusDelivered(orders[1..]);
    }
  }

  /** Every due delivery is an active order. */
  lemma {:induction false} DueAreActive(orders: seq<Order>, now: int)
    ensures DeliveriesDue(orders, now) <= ActiveOrders(orders)
  {
    if |orders| > 0 {
      DueAreActive(orders[1..], now);
    }
  }

  // --------------------------------------------------------------- histogram

  datatype StatusCount = StatusCount(name: OrderStatus, count: nat)

  function SumCounts(h: seq<StatusCount>): int {
    if |h| == 0 then 0 else h[0].count + SumCounts(h[1..])
  }

  /** The six status counts add up to the number of orders. */
  lemma {:induction false} StatusCountsSumToTotal(orders: seq<Order>)
    ensures CountStatus(orders, Measured) + CountStatus(orders, Cutting) + CountStatus(orders, Stitching)
          + CountStatus(orders, Finishing) + CountStatus(orders, Ready) + CountStatus(orders, Delivered)
         == |orders|
  {
    if |orders| > 0 {
      StatusCountsSumToTotal(orders[1..]);
    }
  }

  /**
   * One entry per status in declaration order, zero counts included, each
   * holding the number of orders at that status; the counts sum to the total.
   */
  function StatusData(orders: seq<Order>): (h: seq<StatusCount>)
    ensures |h| == |AllStatuses()|
    ensures forall i :: 0 <= i < |h| ==> h[i].name == AllStatuses()[i]
    ensures forall i :: 0 <= i < |h| ==> h[i].count == CountStatus(orders, h[i].name)
    ensures SumCounts(h) == |orders|
  {
    var h := seq(|AllStatuses()|, i requires 0 <= i < |AllStatuses()| =>
      StatusCount(AllStatuses()[i], CountStatus(orders, AllStatuses()[i])));
    StatusCountsSumToTotal(orders);
    assert SumCounts(h) == h[0].count + SumCounts(h[1..]);
    assert SumCounts(h[1..]) == h[1].count + SumCounts(h[2..]);
    assert SumCounts(h[2..]) == h[2].count + SumCounts(h[3..]);
    assert SumCounts(h[3..]) == h[3].count + SumCounts(h[4..]);
    assert SumCounts(h[4..]) == h[4].count + SumCounts(h[5..]);
    assert SumCounts(h[5..]) == h[5].count + SumCounts(h[6..]);
    h
  }

  /** The histogram's Delivered bar and the active count together make up the total. */
  lemma ActivePlusDeliveredBar(orders: seq<Order>)
    ensures ActiveOrders(orders) + StatusData(orders)[StatusOrdinal(Delivered)].count == |orders|
  {
    ActivePlusDelivered(orders);
  }

  // ---------------------------------------------------------- pending revenue

  /** The sum over all orders of total minus paid; nothing is clamped. */
  function PendingRevenue(orders: seq<Order>): int {
    if |orders| == 0 then 0 else Balance(orders[0]) + PendingRevenue(orders[1..])
  }

  lemma {:induction false} PendingRevenueAppend(a: seq<Order>, b: seq<Order>)
    ensures PendingRevenue(a + b) == PendingRevenue(a) + PendingRevenue(b)
  {
    if |a| == 0 {
      assert a + b == b;
    } else {
      PendingRevenueAppend(a[1..], b);
      assert (a + b)[1..] == a[1..] + b;
    }
  }

  /**
   * `orders.reduce((acc, o) => acc + (o.amountTotal - o.amountPaid), 0)`:
   * folds left to right and arrives at the sum of the balances.
   */
  method ReducePendingRevenue(orders: seq<Order>) returns (acc: int)
    ensures acc == PendingRevenue(orders)
  {
    acc := 0;
    var i := 0;
    while i < |orders|
      invariant 0 <= i <= |orders|
      invariant acc == PendingRevenue(orders[..i])
    {
      PendingRevenueAppend(orders[..i], [orders[i]]);
      assert orders[..i + 1] == orders[..i] + [orders[i]];
      acc := acc + Balance(orders[i]);
      i := i + 1;
    }
    assert orders[..i] == orders;
  }

  /** An overpaid order makes the pending revenue negative: it is not clamped at zero. */
  lemma PendingRevenueNotClamped(o: Order)
    requires o.amountPaid > o.amountTotal
    ensures PendingRevenue([o]) < 0
  {
  }

  // ------------------------------------------------------------------- stats

  datatype Stats = Stats(totalOrders: nat, pendingRevenue: int, activeOrders: nat)

  /** The three headline figures. An empty collection gives zeros. */
  function ComputeStats(orders: seq<Order>): (st: Stats)
    ensures st.totalOrders == |orders|
    ensures st.pendingRevenue == PendingRevenue(orders)
    ensures st.activeOrders == ActiveOrders(orders)
    ensures st.activeOrders <= st.totalOrders
    ensures st.activeOrders + CountStatus(orders, Delivered) == st.totalOrders
    ensures orders == [] ==> st == Stats(0, 0, 0)
  {
    ActivePlusDelivered(orders);
    Stats(|orders|, PendingRevenue(orders), ActiveOrders(orders))
  }

  // -------------------------------------------- figures across store changes

  /** Creating an order adds one to the total, one to the active count, and its balance to the revenue. */
  lemma CreateStats(orders: seq<Order>, o: Order)
    requires o.status == Measured
    ensures ComputeStats(Create(orders, o)) ==
      Stats(|orders| + 1, PendingRevenue(orders) + Balance(o), ActiveOrders(orders) + 1)
  {
    assert Create(orders, o)[1..] == orders;
  }

  /** A status change never alters the total or the pending revenue. */
  lemma {:induction false} UpdateKeepsRevenue(orders: seq<Order>, id: string, s: OrderStatus)
    ensures PendingRevenue(UpdateStatus(orders, id, s)) == PendingRevenue(orders)
    ensures |UpdateStatus(orders, id, s)| == |orders|
  {
    if |orders| > 0 {
      UpdateKeepsRevenue(orders[1..], id, s);
      assert UpdateStatus(orders, id, s)[1..] == UpdateStatus(orders[1..], id, s);
    }
  }

  /** Marking an id delivered never raises the active count or the deliveries due. */
  lemma {:induction false} DeliveringShrinksActive(orders: seq<Order>, id: string, now: int)
    ensures ActiveOrders(UpdateStatus(orders, id, Delivered)) <= ActiveOrders(orders)
    ensures DeliveriesDue(UpdateStatus(orders, id, Delivered), now) <= DeliveriesDue(orders, now)
  {
    if |orders| > 0 {
      DeliveringShrinksActive(orders[1..], id, now);
      assert UpdateStatus(orders, id, Delivered)[1..] == UpdateStatus(orders[1..], id, Delivered);
    }
  }
}
