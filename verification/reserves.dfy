/**
 * The reserve a wallet keeps for open orders. Every pending order holds its
 * `HeldAmount` on its `HoldKey` wallet; the ledger is `Covered` when each
 * such wallet exists and its locked balance is at least the sum of what the
 * pending orders hold on it. The locked balance may exceed that sum (the
 * residual of a price-improved buy stays locked), never fall below it.
 */
module Reserves {
  import opened Base
  import opened Wallets
  import opened Orders
  import opened LedgerState
  import opened Totals
  import opened OrderLifecycle
  import opened FundMoves
  import opened WalletController

  /** What order `id` holds on wallet `k`: its held amount while pending there, else nothing. */
  ghost function HeldOn(orders: map<OrderId, Order>, k: WalletKey): OrderId -> real {
    id => if id in orders && orders[id].status == Pending && HoldKey(orders[id]) == k then HeldAmount(orders[id]) else 0.0
  }

  /** The sum of what the pending orders hold on wallet `k`. */
  ghost function Committed(orders: map<OrderId, Order>, k: WalletKey): real {
    SumOf(orders.Keys, HeldOn(orders, k))
  }

  /** Every pending order's wallet exists and its locked balance covers all it holds. */
  ghost predicate Covered(st: Ledger) {
    && (forall id :: id in st.orders && st.orders[id].status == Pending ==> HoldKey(st.orders[id]) in st.wallets)
    && (forall k :: k in st.wallets ==> Committed(st.orders, k) <= st.wallets[k].locked)
  }

  // ---- Sums of non-negative terms ----

  lemma {:induction false} SumNonneg<K>(ks: set<K>, f: K -> real)
    requires forall j :: j in ks ==> f(j) >= 0.0
    ensures SumOf(ks, f) >= 0.0
    decreases ks
  {
    if ks != {} {
      var j :| j in ks;
      SumRemove(ks, f, j);
      SumNonneg(ks - {j}, f);
    }
  }

  lemma SumAtLeastTerm<K>(ks: set<K>, f: K -> real, k: K)
    requires k in ks && forall j :: j in ks ==> f(j) >= 0.0
    ensures SumOf(ks, f) >= f(k)
  {
    SumRemove(ks, f, k);
    SumNonneg(ks - {k}, f);
  }

  // ---- How order updates move the commitments ----

  /** A pending order's commitment is part of its wallet's total commitment. */
  lemma CommittedAtLeast(orders: map<OrderId, Order>, k: WalletKey, id: OrderId)
    requires OrdersWellFormed(orders)
    requires id in orders && orders[id].status == Pending && HoldKey(orders[id]) == k
    ensures Committed(orders, k) >= HeldAmount(orders[id])
  {
    forall j | j in orders.Keys ensures HeldOn(orders, k)(j) >= 0.0 {
      assert orders[j].quantity * orders[j].price >= 0.0;
    }
    SumAtLeastTerm(orders.Keys, HeldOn(orders, k), id);
  }

  /** Replacing one order moves each wallet's commitment by that order's change there. */
  lemma CommittedAfterUpdate(orders: map<OrderId, Order>, id: OrderId, o: Order, k: WalletKey)
    requires id in orders
    ensures Committed(orders[id := o], k)
         == Committed(orders, k) + HeldOn(orders[id := o], k)(id) - HeldOn(orders, k)(id)
  {
    var orders' := orders[id := o];
    assert orders'.Keys == orders.Keys;
    SumPointChange(orders.Keys, HeldOn(orders, k), HeldOn(orders', k), id);
  }

  /** Adding one order moves each wallet's commitment by what the new order holds there. */
  lemma CommittedAfterAdd(orders: map<OrderId, Order>, id: OrderId, o: Order, k: WalletKey)
    requires id !in orders
    ensures Committed(orders[id := o], k) == Committed(orders, k) + HeldOn(orders[id := o], k)(id)
  {
    var orders' := orders[id := o];
    SumRemove(orders'.Keys, HeldOn(orders', k), id);
    assert orders'.Keys - {id} == orders.Keys;
    SumPointChange(orders.Keys, HeldOn(orders, k), HeldOn(orders', k), id);
  }

  /** Filling a pending order by `q` takes what `q` held off its wallet's commitment. */
  lemma CommittedAfterFill(orders: map<OrderId, Order>, id: OrderId, q: real, release: real, k: WalletKey)
    requires id in orders && orders[id].status == Pending && 0.0 <= q <= orders[id].quantity
    requires release == (if orders[id].side == Buy then q * orders[id].price else q)
    ensures Committed(orders[id := Fill(orders[id], q)], k)
         == Committed(orders, k) - (if HoldKey(orders[id]) == k then release else 0.0)
  {
    FillReleases(orders[id], q);
    CommittedAfterUpdate(orders, id, Fill(orders[id], q), k);
  }

  // ---- The operations keep the reserve ----

  /** Placing an order moves one wallet's commitment and its reserve by the same amount. */
  lemma CreateOrderCoveredAt(st: Ledger, id: OrderId, user: UserId, base: CurrencyId, quote: CurrencyId,
                             side: Side, quantity: real, price: real, now: nat, k: WalletKey)
    requires id !in st.orders && k in st.wallets
    requires Committed(st.orders, k) <= st.wallets[k].locked
    requires CreateOrder(st, id, user, base, quote, side, quantity, price, now).Ok?
    ensures var r := CreateOrder(st, id, user, base, quote, side, quantity, price, now).value;
      Committed(r.orders, k) <= r.wallets[k].locked
  {
    var o := NewOrder(user, base, quote, side, quantity, price, now);
    CommittedAfterAdd(st.orders, id, o, k);
  }

  /** Placing an order with positive quantity and price locks exactly what it commits. */
  lemma CreateOrderKeepsCovered(st: Ledger, id: OrderId, user: UserId, base: CurrencyId, quote: CurrencyId,
                                side: Side, quantity: real, price: real, now: nat)
    requires id !in st.orders
    requires Covered(st) && quantity > 0.0 && price > 0.0
    requires CreateOrder(st, id, user, base, quote, side, quantity, price, now).Ok?
    ensures Covered(CreateOrder(st, id, user, base, quote, side, quantity, price, now).value)
  {
    var o := NewOrder(user, base, quote, side, quantity, price, now);
    var r := CreateOrder(st, id, user, base, quote, side, quantity, price, now).value;
    assert HeldAmount(o) > 0.0;
    assert HoldKey(o) in st.wallets;
    forall k | k in r.wallets ensures Committed(r.orders, k) <= r.wallets[k].locked {
      CreateOrderCoveredAt(st, id, user, base, quote, side, quantity, price, now, k);
    }
  }

  /** Cancelling moves one wallet's commitment and its reserve by the same amount. */
  lemma CancelCoveredAt(st: Ledger, id: OrderId, requester: UserId, k: WalletKey)
    requires OrdersWellFormed(st.orders) && k in st.wallets
    requires Committed(st.orders, k) <= st.wallets[k].locked
    requires id in st.orders && HoldKey(st.orders[id]) in st.wallets
    requires CancelOrder(st, id, requester).Ok?
    ensures Committed(CancelOrder(st, id, requester).value.orders, k) <= CancelOrder(st, id, requester).value.wallets[k].locked
  {
    var o := st.orders[id];
    CommittedAtLeast(st.orders, HoldKey(o), id);
    CommittedAfterUpdate(st.orders, id, o.(status := Cancelled), k);
  }

  /** Cancelling releases exactly what the order committed. */
  lemma CancelKeepsCovered(st: Ledger, id: OrderId, requester: UserId)
    requires Covered(st) && OrdersWellFormed(st.orders)
    requires CancelOrder(st, id, requester).Ok?
    ensures Covered(CancelOrder(st, id, requester).value)
  {
    var r := CancelOrder(st, id, requester).value;
    forall k | k in r.wallets ensures Committed(r.orders, k) <= r.wallets[k].locked {
      CancelCoveredAt(st, id, requester, k);
    }
  }

  /** A step that keeps the orders and every locked balance keeps the reserve. */
  lemma LockedUnchangedCovered(st: Ledger, r: Ledger)
    requires Covered(st)
    requires r.orders == st.orders && r.wallets.Keys == st.wallets.Keys
    requires forall k :: k in st.wallets ==> r.wallets[k].locked == st.wallets[k].locked
    ensures Covered(r)
  {
  }

  /** Recording or confirming a deposit touches no locked balance and no order. */
  lemma DepositKeepsCovered(st: Ledger, id: DepositId, user: UserId, currency: CurrencyId, amount: real)
    requires Covered(st)
    ensures id !in st.deposits && CreateDeposit(st, id, user, currency, amount).Ok?
            ==> Covered(CreateDeposit(st, id, user, currency, amount).value)
    ensures ConfirmDeposit(st, id).Ok? ==> Covered(ConfirmDeposit(st, id).value)
  {
    if ConfirmDeposit(st, id).Ok? {
      LockedUnchangedCovered(st, ConfirmDeposit(st, id).value);
    }
  }

  /** A withdrawal debits the balance, never the locked part, and touches no order. */
  lemma WithdrawalKeepsCovered(st: Ledger, id: WithdrawalId, user: UserId, currency: CurrencyId, amount: real)
    requires Covered(st)
    ensures id !in st.withdrawals && CreateWithdrawal(st, id, user, currency, amount).Ok?
            ==> Covered(CreateWithdrawal(st, id, user, currency, amount).value)
    ensures CompleteWithdrawal(st, id).Ok? ==> Covered(CompleteWithdrawal(st, id).value)
  {
    if id !in st.withdrawals && CreateWithdrawal(st, id, user, currency, amount).Ok? {
      LockedUnchangedCovered(st, CreateWithdrawal(st, id, user, currency, amount).value);
    }
  }

  /** A transfer moves balances only, never a locked part, and touches no order. */
  lemma TransferKeepsCovered(st: Ledger, id: TransferId, from: UserId, to: UserId, currency: CurrencyId, amount: real)
    requires Covered(st)
    requires id !in st.transfers && CreateTransfer(st, id, from, to, currency, amount).Ok?
    ensures Covered(CreateTransfer(st, id, from, to, currency, amount).value)
  {
    var created := st.(transfers := st.transfers[id := Transfer(from, to, currency, amount, MovePending)]);
    assert CreateTransfer(st, id, from, to, currency, amount) == CompleteTransferEffect(created, id);
    LockedUnchangedCovered(st, CreateTransfer(st, id, from, to, currency, amount).value);
  }
}
