/**
 * The order collection the app owns (App.tsx): the initial load with its
 * fallback to the seed orders, prepending a new order, replacing the status
 * of the orders with a given id, and the write-back of the whole collection
 * after every change. Serialisation is a pair of parameters `encode`/`decode`.
 */
module OrderStore {
  import opened Wrappers
  import opened Schema
  import opened Catalog

  // ------------------------------------------------------------------- load

  /**
   * The collection the app starts with. A stored blob is used when it is
   * present, non-empty and parses; an absent or empty blob, or one whose
   * parse throws, gives the seed orders. `now` is the clock reading the seed
   * dates were computed from.
   */
  function Load(saved: Option<string>, decode: string -> Option<seq<Order>>, now: int): (r: seq<Order>)
    ensures saved.Some? && saved.value != "" && decode(saved.value).Some? ==> r == decode(saved.value).value
    ensures saved.None? ==> r == SeedOrders(now)
    ensures saved == Some("") ==> r == SeedOrders(now)
    ensures saved.Some? && decode(saved.value).None? ==> r == SeedOrders(now)
  {
    match saved
    case None => SeedOrders(now)
    case Some(text) =>
      if text == "" then SeedOrders(now)
      else match decode(text)
        case Some(orders) => orders
        case None => SeedOrders(now)
  }

  // ----------------------------------------------------------------- create

  /** `[newOrder, ...orders]`: the new order first, the old collection after it unchanged. */
  function Create(orders: seq<Order>, o: Order): (r: seq<Order>)
    ensures |r| == |orders| + 1
    ensures r[0] == o
    ensures r[1..] == orders
  {
    [o] + orders
  }

  // ---------------------------------------------------------- status update

  /** An order with its status blanked out: everything a status update must keep. */
  function Frame(o: Order): Order {
    o.(status := Measured)
  }

  /** `b` is `a` with possibly another status and every other field the same. */
  predicate SameExceptStatus(a: Order, b: Order) {
    Frame(a) == Frame(b)
  }

  /**
   * `orders.map(o => o.id === id ? {...o, status} : o)`: every order carrying
   * the id gets the new status, whatever its current status is; every other
   * order is left as it was. Nothing is reported when no order matches.
   */
  function UpdateStatus(orders: seq<Order>, id: string, status: OrderStatus): (r: seq<Order>)
    ensures |r| == |orders|
    ensures forall i :: 0 <= i < |orders| ==> SameExceptStatus(orders[i], r[i])
    ensures forall i :: 0 <= i < |orders| && orders[i].id == id ==> r[i].status == status
    ensures forall i :: 0 <= i < |orders| && orders[i].id != id ==> r[i] == orders[i]
  {
    if |orders| == 0 then []
    else
      var head := if orders[0].id == id then orders[0].(status := status) else orders[0];
      var rest := UpdateStatus(orders[1..], id, status);
      assert forall i :: 1 <= i < |orders| ==> ([head] + rest)[i] == rest[i - 1] && orders[1..][i - 1] == orders[i];
      [head] + rest
  }

  /** An id that no order carries leaves the collection exactly as it was. */
  lemma UpdateUnknownIdIsIdentity(orders: seq<Order>, id: string, status: OrderStatus)
    requires forall i :: 0 <= i < |orders| ==> orders[i].id != id
    ensures UpdateStatus(orders, id, status) == orders
  {
  }

  /** Applying the same update twice is the same as applying it once. */
  lemma UpdateStatusIdempotent(orders: seq<Order>, id: string, status: OrderStatus)
    ensures UpdateStatus(UpdateStatus(orders, id, status), id, status) == UpdateStatus(orders, id, status)
  {
    var once := UpdateStatus(orders, id, status);
    var twice := UpdateStatus(once, id, status);
    forall i | 0 <= i < |orders|
      ensures twice[i] == once[i]
    {
      assert once[i].id == orders[i].id;
    }
  }

  /** A second update of the same id overrides the first: the last status set wins. */
  lemma UpdateStatusLastWins(orders: seq<Order>, id: string, first: OrderStatus, second: OrderStatus)
    ensures UpdateStatus(UpdateStatus(orders, id, first), id, second) == UpdateStatus(orders, id, second)
  {
    var a := UpdateStatus(UpdateStatus(orders, id, first), id, second);
    var b := UpdateStatus(orders, id, second);
    forall i | 0 <= i < |orders|
      ensures a[i] == b[i]
    {
      assert UpdateStatus(orders, id, first)[i].id == orders[i].id;
    }
  }

  /** Updates of two different ids do not interfere: they may be applied in either order. */
  lemma UpdatesOfDistinctIdsCommute(orders: seq<Order>, id1: string, s1: OrderStatus, id2: string, s2: OrderStatus)
    requires id1 != id2
    ensures UpdateStatus(UpdateStatus(orders, id1, s1), id2, s2) == UpdateStatus(UpdateStatus(orders, id2, s2), id1, s1)
  {
    var a := UpdateStatus(UpdateStatus(orders, id1, s1), id2, s2);
    var b := UpdateStatus(UpdateStatus(orders, id2, s2), id1, s1);
    forall i | 0 <= i < |orders|
      ensures a[i] == b[i]
    {
      assert UpdateStatus(orders, id1, s1)[i].id == orders[i].id;
      assert UpdateStatus(orders, id2, s2)[i].id == orders[i].id;
    }
  }

  /**
   * No transition rule is checked: from any current status, any target status
   * is set on the order carrying the id, including moves backwards.
   */
  lemma AnyTransitionAccepted(o: Order, target: OrderStatus)
    ensures UpdateStatus([o], o.id, target) == [o.(status := target)]
  {
  }

  // ------------------------------------------------------------ persistence

  /** The app's state: the collection on screen and the blob last written to storage. */
  datatype Shop = Shop(orders: seq<Order>, saved: Option<string>)

  /** The stored blob is the whole current collection, serialised. */
  predicate Persisted(shop: Shop, encode: seq<Order> -> string) {
    shop.saved == Some(encode(shop.orders))
  }

  /** A new collection takes effect and is written back in full. */
  function Commit(orders: seq<Order>, encode: seq<Order> -> string): (shop: Shop)
    ensures shop.orders == orders
    ensures Persisted(shop, encode)
  {
    Shop(orders, Some(encode(orders)))
  }

  /** Start-up: load, then the save effect runs once for the initial collection. */
  function Boot(saved: Option<string>, decode: string -> Option<seq<Order>>, encode: seq<Order> -> string, now: int): (shop: Shop)
    ensures shop.orders == Load(saved, decode, now)
    ensures Persisted(shop, encode)
  {
    Commit(Load(saved, decode, now), encode)
  }

  /** The two things a user can do to the collection. */
  datatype Event = Created(order: Order) | StatusChanged(id: string, status: OrderStatus)

  /** One user action: the collection changes as the action says and is written back in full. */
  function Step(shop: Shop, e: Event, encode: seq<Order> -> string): (next: Shop)
    ensures e.Created? ==> next.orders == Create(shop.orders, e.order)
    ensures e.StatusChanged? ==> next.orders == UpdateStatus(shop.orders, e.id, e.status)
    ensures Persisted(next, encode)
  {
    match e
    case Created(o) => Commit(Create(shop.orders, o), encode)
    case StatusChanged(id, s) => Commit(UpdateStatus(shop.orders, id, s), encode)
  }

  function Replay(shop: Shop, events: seq<Event>, encode: seq<Order> -> string): Shop
    decreases |events|
  {
    if |events| == 0 then shop else Replay(Step(shop, events[0], encode), events[1..], encode)
  }

  function CreatedCount(events: seq<Event>): nat {
    if |events| == 0 then 0 else (if events[0].Created? then 1 else 0) + CreatedCount(events[1..])
  }

  /** The orders with their statuses blanked out. */
  function Frames(orders: seq<Order>): (r: seq<Order>)
    ensures |r| == |orders|
    ensures forall i :: 0 <= i < |orders| ==> r[i] == Frame(orders[i])
  {
    if |orders| == 0 then [] else [Frame(orders[0])] + Frames(orders[1..])
  }

  /** One event: a creation puts one order in front; a status change touches statuses only. */
  lemma StepFrames(shop: Shop, e: Event, encode: seq<Order> -> string)
    ensures |Step(shop, e, encode).orders| == |shop.orders| + (if e.Created? then 1 else 0)
    ensures Frames(Step(shop, e, encode).orders)[(if e.Created? then 1 else 0)..] == Frames(shop.orders)
  {
    var next := Step(shop, e, encode).orders;
    var c := if e.Created? then 1 else 0;
    var a := Frames(next)[c..];
    var b := Frames(shop.orders);
    assert |a| == |b|;
    forall i | 0 <= i < |b|
      ensures a[i] == b[i]
    {
      assert SameExceptStatus(shop.orders[i], next[c + i]);
    }
  }

  /** After any sequence of events from a persisted state, the blob is still the whole collection. */
  lemma {:induction false} ReplayPersisted(shop: Shop, events: seq<Event>, encode: seq<Order> -> string)
    requires Persisted(shop, encode)
    ensures Persisted(Replay(shop, events, encode), encode)
    decreases |events|
  {
    if |events| > 0 {
      ReplayPersisted(Step(shop, events[0], encode), events[1..], encode);
    }
  }

  /**
   * The collection grows by exactly the number of creations, and the orders
   * there before sit at its end, in their old order, differing at most in
   * status. No order is ever removed.
   */
  lemma {:induction false} ReplayKeepsOldOrders(shop: Shop, events: seq<Event>, encode: seq<Order> -> string)
    ensures |Replay(shop, events, encode).orders| == |shop.orders| + CreatedCount(events)
    ensures Frames(Replay(shop, events, encode).orders)[CreatedCount(events)..] == Frames(shop.orders)
    decreases |events|
  {
    if |events| > 0 {
      var e := events[0];
      var next := Step(shop, e, encode);
      var c := if e.Created? then 1 else 0;
      var k := CreatedCount(events[1..]);
      var after := Replay(next, events[1..], encode);
      assert CreatedCount(events) == c + k;
      assert Replay(shop, events, encode) == after;
      StepFrames(shop, e, encode);
      ReplayKeepsOldOrders(next, events[1..], encode);
      var fa := Frames(after.orders);
      assert fa[k..] == Frames(next.orders);
      assert fa[k + c..] == fa[k..][c..];
    }
  }

  /** `decode` reads back what `encode` wrote for `orders`, and what it wrote is not empty. */
  predicate RoundTrips(encode: seq<Order> -> string, decode: string -> Option<seq<Order>>, orders: seq<Order>) {
    encode(orders) != "" && decode(encode(orders)) == Some(orders)
  }

  /**
   * Reloading a persisted state gives back the collection on screen, not the
   * seed, even when the collection is empty.
   */
  lemma ReloadSeesLatest(shop: Shop, encode: seq<Order> -> string, decode: string -> Option<seq<Order>>, now: int)
    requires Persisted(shop, encode)
    requires RoundTrips(encode, decode, shop.orders)
    ensures Load(shop.saved, decode, now) == shop.orders
  {
  }
}
