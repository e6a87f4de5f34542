/** Limit orders (models/Wallet.js, class Order). */
module Orders {
  import opened Base

  datatype Side = Buy | Sell

  datatype Status = Pending | Filled | Cancelled

  /**
   * A limit order. `quantity` is the remaining base amount and shrinks as the
   * order fills; `price` is quote per unit of base and never changes.
   * `createdAt` is the insertion time stamp the order book sorts ties by.
   */
  datatype Order = Order(
    user: UserId,
    base: CurrencyId,
    quote: CurrencyId,
    side: Side,
    status: Status,
    quantity: real,
    price: real,
    createdAt: nat)

  /** The quote value of the remaining quantity at the order's own price. */
  function TotalValue(o: Order): real {
    o.quantity * o.price
  }

  predicate IsActive(o: Order) {
    o.status == Pending
  }

  /** A fill keeps an active order active exactly when it leaves some quantity. */
  lemma FillKeepsActive(o: Order, q: real)
    ensures IsActive(Fill(o, q)) <==> IsActive(o) && q < o.quantity
  {
  }

  /** The wallet an order holds funds in: quote for a buy, base for a sell. */
  function HoldKey(o: Order): WalletKey {
    WalletKey(o.user, if o.side == Buy then o.quote else o.base)
  }

  /** The amount held for the remaining quantity: its value for a buy, the quantity for a sell. */
  function HeldAmount(o: Order): (r: real)
    ensures o.side == Buy ==> r == TotalValue(o)
    ensures o.side == Sell ==> r == o.quantity
  {
    if o.side == Buy then TotalValue(o) else o.quantity
  }

  /**
   * What an order is worth and what it holds are never negative for a
   * non-negative quantity and price, and with a positive price they are
   * positive exactly while some quantity remains.
   */
  lemma HeldAmountSign(o: Order)
    ensures o.quantity >= 0.0 && o.price >= 0.0 ==> TotalValue(o) >= 0.0 && HeldAmount(o) >= 0.0
    ensures o.price > 0.0 ==> (TotalValue(o) > 0.0 <==> o.quantity > 0.0)
    ensures o.price > 0.0 ==> (HeldAmount(o) > 0.0 <==> o.quantity > 0.0)
  {
  }

  /**
   * Filling a pending order by `q`, at most its quantity, releases exactly
   * what `q` held: `q` times the price for a buy, `q` itself for a sell.
   */
  lemma FillReleases(o: Order, q: real)
    requires o.status == Pending && 0.0 <= q <= o.quantity
    ensures HoldKey(Fill(o, q)) == HoldKey(o)
    ensures HeldAmount(o) - (if Fill(o, q).status == Pending then HeldAmount(Fill(o, q)) else 0.0)
         == (if o.side == Buy then q * o.price else q)
  {
    if o.side == Buy && Fill(o, q).status == Pending {
      assert HeldAmount(Fill(o, q)) == (o.quantity - q) * o.price;
    }
  }

  predicate InPair(o: Order, base: CurrencyId, quote: CurrencyId) {
    o.base == base && o.quote == quote
  }

  /** The pending orders of a pair, optionally restricted to one side. */
  function PendingOrders(orders: map<OrderId, Order>, base: CurrencyId, quote: CurrencyId, side: Option<Side>): (r: set<OrderId>)
    ensures r <= orders.Keys
    ensures forall id :: id in r <==>
      && id in orders
      && InPair(orders[id], base, quote)
      && IsActive(orders[id])
      && (side.Some? ==> orders[id].side == side.value)
  {
    set id | id in orders && InPair(orders[id], base, quote) && orders[id].status == Pending
                          && (side.Some? ==> orders[id].side == side.value)
  }

  /** Without a side filter the pending orders of a pair are exactly the buys and the sells. */
  lemma PendingOrdersBySide(orders: map<OrderId, Order>, base: CurrencyId, quote: CurrencyId)
    ensures PendingOrders(orders, base, quote, None)
         == PendingOrders(orders, base, quote, Some(Buy)) + PendingOrders(orders, base, quote, Some(Sell))
  {
  }

  /** Every pending order of any pair. */
  function PendingIds(orders: map<OrderId, Order>): (r: set<OrderId>)
    ensures forall id :: id in r <==> id in orders && orders[id].status == Pending
  {
    set id | id in orders && orders[id].status == Pending
  }

  /** The pending orders of every pair, on either side, are among all pending orders. */
  lemma PendingOrdersInPendingIds(orders: map<OrderId, Order>, base: CurrencyId, quote: CurrencyId, side: Option<Side>)
    ensures PendingOrders(orders, base, quote, side) <= PendingIds(orders)
    ensures PendingIds(orders) == {} ==> PendingOrders(orders, base, quote, side) == {}
  {
  }

  /**
   * One side of a settlement: the remaining quantity drops by `q`; at zero
   * or below the order is filled with quantity 0, otherwise it stays as it was.
   */
  function Fill(o: Order, q: real): (r: Order)
    ensures r.user == o.user && r.base == o.base && r.quote == o.quote && r.side == o.side
    ensures r.price == o.price && r.createdAt == o.createdAt
    ensures o.quantity - q <= 0.0 ==> r.status == Filled && r.quantity == 0.0
    ensures o.quantity - q > 0.0 ==> r.status == o.status && r.quantity == o.quantity - q
    ensures r.quantity >= 0.0 && (r.quantity > 0.0 <==> o.quantity - q > 0.0)
  {
    var remaining := o.quantity - q;
    if remaining <= 0.0 then o.(status := Filled, quantity := 0.0) else o.(quantity := remaining)
  }

  /** The terms fixed at placement that no fill or cancellation changes. */
  predicate SameTerms(a: Order, b: Order) {
    a.user == b.user && a.base == b.base && a.quote == b.quote && a.side == b.side
    && a.price == b.price && a.createdAt == b.createdAt
  }
}
