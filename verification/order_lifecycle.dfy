/**
 * Order placement with fund holding and cancellation with release
 * (controllers/OrderController.js `createOrder`, `cancelOrder`;
 * models/Wallet.js `Order.cancel`). Matching after placement lives in
 * module Matching.
 */
module OrderLifecycle {
  import opened Base
  import opened Wallets
  import opened Orders
  import opened Users
  import opened LedgerState
  import opened Totals

  /** The order as placement stores it. */
  function NewOrder(user: UserId, base: CurrencyId, quote: CurrencyId, side: Side, quantity: real, price: real, now: nat): Order {
    Order(user, base, quote, side, Pending, quantity, price, now)
  }

  /**
   * Validates and stores a new pending order, then holds its funds.
   * Rejections, in order: unknown user, user not allowed to trade, either
   * currency unknown (its active flag is not consulted), available balance
   * in the held currency below the held amount. A missing wallet has
   * available balance 0 and, if the check still passes, is not locked.
   */
  function CreateOrder(st: Ledger, id: OrderId, user: UserId, base: CurrencyId, quote: CurrencyId,
                       side: Side, quantity: real, price: real, now: nat): (r: Result<Ledger>)
    requires id !in st.orders
    ensures var o := NewOrder(user, base, quote, side, quantity, price, now);
      && (user !in st.users ==> r == Err(NotFound))
      && (user in st.users && !CanTrade(st.users[user]) ==> r == Err(Unauthorized))
      && ((user in st.users && CanTrade(st.users[user]) && (base !in st.currencies || quote !in st.currencies))
            ==> r == Err(InvalidCurrency))
      && ((user in st.users && CanTrade(st.users[user]) && base in st.currencies && quote in st.currencies
           && AvailableBalance(st, user, HoldKey(o).currency) < HeldAmount(o)) ==> r == Err(InsufficientBalance))
      && (r.Ok? <==> (user in st.users && CanTrade(st.users[user]) && base in st.currencies && quote in st.currencies
                      && AvailableBalance(st, user, HoldKey(o).currency) >= HeldAmount(o)))
    ensures r.Ok? ==> r.value.orders == st.orders[id := NewOrder(user, base, quote, side, quantity, price, now)]
    ensures r.Ok? ==> var k := HoldKey(NewOrder(user, base, quote, side, quantity, price, now));
      && r.value.wallets.Keys == st.wallets.Keys
      && (k in st.wallets ==> r.value.wallets[k].locked == st.wallets[k].locked + HeldAmount(r.value.orders[id])
                              && r.value.wallets[k].balance == st.wallets[k].balance)
      && (forall j :: j in st.wallets && j != k ==> r.value.wallets[j] == st.wallets[j])
    ensures r.Ok? ==> r.value == st.(orders := r.value.orders, wallets := r.value.wallets)
  {
    var o := NewOrder(user, base, quote, side, quantity, price, now);
    if user !in st.users then Err(NotFound)
    else if !CanTrade(st.users[user]) then Err(Unauthorized)
    else if base !in st.currencies || quote !in st.currencies then Err(InvalidCurrency)
    else if AvailableBalance(st, user, HoldKey(o).currency) < HeldAmount(o) then Err(InsufficientBalance)
    else Ok(st.(orders := st.orders[id := o], wallets := LockWallet(st.wallets, HoldKey(o), HeldAmount(o))))
  }

  /**
   * Cancels a pending order and releases what its remaining quantity holds:
   * quantity times price on the quote wallet for a buy, the quantity on the
   * base wallet for a sell. Any other status is rejected with no change.
   */
  function OrderCancel(st: Ledger, id: OrderId): (r: Result<Ledger>)
    requires id in st.orders
    ensures r.Err? <==> st.orders[id].status != Pending
    ensures r.Err? ==> r.error == InvalidState
    ensures r.Ok? ==> r.value.orders == st.orders[id := st.orders[id].(status := Cancelled)]
    ensures r.Ok? ==> var o := st.orders[id]; var k := HoldKey(o);
      && r.value.wallets.Keys == st.wallets.Keys
      && (k in st.wallets ==> r.value.wallets[k] == Unlock(st.wallets[k], HeldAmount(o)))
      && (forall j :: j in st.wallets && j != k ==> r.value.wallets[j] == st.wallets[j])
    ensures r.Ok? ==> r.value == st.(orders := r.value.orders, wallets := r.value.wallets)
  {
    var o := st.orders[id];
    if o.status != Pending then Err(InvalidState)
    else Ok(st.(orders := st.orders[id := o.(status := Cancelled)],
                wallets := UnlockWallet(st.wallets, HoldKey(o), HeldAmount(o))))
  }

  /** The cancel endpoint: unknown order, then another user's order, then the status check. */
  function CancelOrder(st: Ledger, id: OrderId, requester: UserId): (r: Result<Ledger>)
    ensures id !in st.orders ==> r == Err(NotFound)
    ensures id in st.orders && st.orders[id].user != requester ==> r == Err(Forbidden)
    ensures (id in st.orders && st.orders[id].user == requester && st.orders[id].status != Pending)
            ==> r == Err(InvalidState)
    ensures r.Ok? <==> id in st.orders && st.orders[id].user == requester && st.orders[id].status == Pending
    ensures r.Ok? ==> id in r.value.orders && r.value.orders[id].status == Cancelled
  {
    if id !in st.orders then Err(NotFound)
    else if st.orders[id].user != requester then Err(Forbidden)
    else OrderCancel(st, id)
  }

  // ---- Properties ----

  /**
   * Placing an order and cancelling it before anything matches releases
   * exactly what was held: every wallet is as before, and the order is kept
   * as cancelled.
   */
  lemma PlaceThenCancelRestoresWallets(st: Ledger, id: OrderId, user: UserId, base: CurrencyId, quote: CurrencyId,
                                       side: Side, quantity: real, price: real, now: nat)
    requires id !in st.orders
    requires WalletsBounded(st.wallets)
    requires CreateOrder(st, id, user, base, quote, side, quantity, price, now).Ok?
    ensures var s1 := CreateOrder(st, id, user, base, quote, side, quantity, price, now).value;
      var r := CancelOrder(s1, id, user);
      && r.Ok?
      && r.value.wallets == st.wallets
      && r.value.orders == st.orders[id := NewOrder(user, base, quote, side, quantity, price, now).(status := Cancelled)]
  {
    var o := NewOrder(user, base, quote, side, quantity, price, now);
    var s1 := CreateOrder(st, id, user, base, quote, side, quantity, price, now).value;
    var r := CancelOrder(s1, id, user).value;
    var k := HoldKey(o);
    if k in st.wallets {
      LockUnlockRoundTrip(st.wallets[k], HeldAmount(o));
    }
    assert r.wallets == st.wallets;
  }

  /** Cancellation is one-shot: a cancelled order cannot be cancelled again. */
  lemma CancelOneShot(st: Ledger, id: OrderId, requester: UserId)
    requires CancelOrder(st, id, requester).Ok?
    ensures CancelOrder(CancelOrder(st, id, requester).value, id, requester) == Err(InvalidState)
  {
  }

  /** Placing an order only holds funds: no balance, hence no currency total, changes. */
  lemma CreateOrderKeepsTotals(st: Ledger, id: OrderId, user: UserId, base: CurrencyId, quote: CurrencyId,
                               side: Side, quantity: real, price: real, now: nat, c: CurrencyId)
    requires id !in st.orders
    requires CreateOrder(st, id, user, base, quote, side, quantity, price, now).Ok?
    ensures Total(CreateOrder(st, id, user, base, quote, side, quantity, price, now).value.wallets, c) == Total(st.wallets, c)
  {
    var o := NewOrder(user, base, quote, side, quantity, price, now);
    TotalAfterLockOrUnlock(st.wallets, HoldKey(o), HeldAmount(o), c);
  }

  /** A placement with positive quantity and price preserves the ledger invariant. */
  lemma CreateOrderKeepsValid(st: Ledger, id: OrderId, user: UserId, base: CurrencyId, quote: CurrencyId,
                              side: Side, quantity: real, price: real, now: nat)
    requires id !in st.orders
    requires Valid(st) && quantity > 0.0 && price > 0.0
    requires CreateOrder(st, id, user, base, quote, side, quantity, price, now).Ok?
    ensures Valid(CreateOrder(st, id, user, base, quote, side, quantity, price, now).value)
  {
    var o := NewOrder(user, base, quote, side, quantity, price, now);
    var r := CreateOrder(st, id, user, base, quote, side, quantity, price, now).value;
    var k := HoldKey(o);
    assert HeldAmount(o) > 0.0;
    if k in st.wallets {
      LockKeepsBounded(st.wallets[k], HeldAmount(o));
    }
    forall j | j in r.wallets ensures Bounded(r.wallets[j]) {
      assert j in st.wallets;
    }
  }

  /** Cancelling preserves the ledger invariant. */
  lemma CancelKeepsValid(st: Ledger, id: OrderId, requester: UserId)
    requires Valid(st)
    requires CancelOrder(st, id, requester).Ok?
    ensures Valid(CancelOrder(st, id, requester).value)
  {
    var r := CancelOrder(st, id, requester).value;
    var o := st.orders[id];
    assert HeldAmount(o) >= 0.0;
    forall j | j in r.wallets ensures Bounded(r.wallets[j]) {
      assert j in st.wallets;
    }
  }
}
