/**
 * The matching engine (controllers/OrderController.js `matchOrders`): pick
 * the best pending buy and sell of a pair, trade when they cross, settle
 * four wallet legs, and repeat while the last match left an order partly
 * filled. Placement followed by matching is `PlaceOrder`.
 */
module Matching {
  import opened Base
  import opened Wallets
  import opened Orders
  import opened LedgerState
  import opened Totals
  import opened OrderLifecycle
  import opened Reserves

  // ---- Settlement of one match ----

  /**
   * The four wallet legs of a trade of `q` base units at price `p`, applied
   * in the source's order: buyer base credit; buyer quote unlock then debit
   * of q*p; seller base unlock then debit of q; seller quote credit. A
   * missing wallet skips its leg; a failing debit fails the whole step.
   */
  function SettleWallets(ws: map<WalletKey, Wallet>, buyer: UserId, seller: UserId,
                         base: CurrencyId, quote: CurrencyId, q: real, p: real): (r: Result<map<WalletKey, Wallet>>)
    ensures r.Ok? ==> r.value.Keys == ws.Keys
    ensures r.Ok? ==> forall k :: (k in ws && k !in {WalletKey(buyer, base), WalletKey(buyer, quote),
                                                    WalletKey(seller, base), WalletKey(seller, quote)})
                                  ==> r.value[k] == ws[k]
  {
    var w1 := CreditWallet(ws, WalletKey(buyer, base), q);
    var w2 := UnlockWallet(w1, WalletKey(buyer, quote), q * p);
    var w3 :- DebitWallet(w2, WalletKey(buyer, quote), q * p);
    var w4 := UnlockWallet(w3, WalletKey(seller, base), q);
    var w5 :- DebitWallet(w4, WalletKey(seller, base), q);
    Ok(CreditWallet(w5, WalletKey(seller, quote), q * p))
  }

  /**
   * Settles one match of a pending buy against a pending sell: records the
   * trade at the sell price for the smaller remaining quantity, fills both
   * orders by that quantity, and moves the funds. Atomic: on a failing debit
   * nothing is applied.
   */
  function Settle(st: Ledger, base: CurrencyId, quote: CurrencyId, buyId: OrderId, sellId: OrderId): (r: Result<Ledger>)
    requires buyId in st.orders && sellId in st.orders
    requires st.orders[buyId].side == Buy && st.orders[sellId].side == Sell
    ensures r.Ok? ==> var b := st.orders[buyId]; var s := st.orders[sellId];
      var q := Min(b.quantity, s.quantity);
      && r.value.trades == st.trades + [Trade(buyId, sellId, b.user, s.user, base, quote, q, s.price)]
      && q <= b.quantity && q <= s.quantity && (q == b.quantity || q == s.quantity)
      && r.value.orders == st.orders[buyId := Fill(b, q)][sellId := Fill(s, q)]
    ensures r.Ok? ==> r.value.orders[buyId].status == Filled || r.value.orders[sellId].status == Filled
    ensures r.Ok? ==> r.value.wallets.Keys == st.wallets.Keys
    ensures r.Ok? ==> r.value == st.(trades := r.value.trades, orders := r.value.orders, wallets := r.value.wallets)
  {
    var b := st.orders[buyId];
    var s := st.orders[sellId];
    var p := s.price;
    var q := Min(b.quantity, s.quantity);
    var ws :- SettleWallets(st.wallets, b.user, s.user, base, quote, q, p);
    Ok(st.(trades := st.trades + [Trade(buyId, sellId, b.user, s.user, base, quote, q, p)],
           orders := st.orders[buyId := Fill(b, q)][sellId := Fill(s, q)],
           wallets := ws))
  }

  /** A round succeeds exactly when its wallet legs do, and its wallets are theirs. */
  lemma SettleUsesWallets(st: Ledger, base: CurrencyId, quote: CurrencyId, buyId: OrderId, sellId: OrderId, q: real)
    requires buyId in st.orders && sellId in st.orders
    requires st.orders[buyId].side == Buy && st.orders[sellId].side == Sell
    requires q == Min(st.orders[buyId].quantity, st.orders[sellId].quantity)
    ensures var ws := SettleWallets(st.wallets, st.orders[buyId].user, st.orders[sellId].user, base, quote, q, st.orders[sellId].price);
      && (Settle(st, base, quote, buyId, sellId).Ok? <==> ws.Ok?)
      && (ws.Ok? ==> Settle(st, base, quote, buyId, sellId).value.wallets == ws.value)
  {
  }

  /** A settled round fills both orders by the smaller remaining quantity `q`. */
  lemma SettleFillsBoth(st: Ledger, base: CurrencyId, quote: CurrencyId, buyId: OrderId, sellId: OrderId, q: real, r: Ledger)
    requires buyId in st.orders && sellId in st.orders
    requires st.orders[buyId].side == Buy && st.orders[sellId].side == Sell
    requires q == Min(st.orders[buyId].quantity, st.orders[sellId].quantity)
    requires Settle(st, base, quote, buyId, sellId) == Ok(r)
    ensures r.orders == st.orders[buyId := Fill(st.orders[buyId], q)][sellId := Fill(st.orders[sellId], q)]
  {
  }

  /** Unlocking then debiting the same amount keeps a wallet bounded, whatever the amount. */
  lemma UnlockDebitKeepsBounded(ws: map<WalletKey, Wallet>, k: WalletKey, a: real)
    requires WalletsBounded(ws)
    requires DebitWallet(UnlockWallet(ws, k, a), k, a).Ok?
    ensures WalletsBounded(DebitWallet(UnlockWallet(ws, k, a), k, a).value)
  {
    var r := DebitWallet(UnlockWallet(ws, k, a), k, a).value;
    forall j | j in r ensures Bounded(r[j]) {
      assert j in ws;
    }
  }

  /** A non-negative credit keeps every wallet bounded. */
  lemma CreditKeepsBounded(ws: map<WalletKey, Wallet>, k: WalletKey, a: real)
    requires WalletsBounded(ws) && a >= 0.0
    ensures WalletsBounded(CreditWallet(ws, k, a))
  {
    var r := CreditWallet(ws, k, a);
    forall j | j in r ensures Bounded(r[j]) {
      assert j in ws;
    }
  }

  /** Settling non-negative amounts keeps every wallet bounded. */
  lemma SettleWalletsKeepBounded(ws: map<WalletKey, Wallet>, buyer: UserId, seller: UserId,
                                 base: CurrencyId, quote: CurrencyId, q: real, p: real)
    requires WalletsBounded(ws) && q >= 0.0 && p >= 0.0
    requires SettleWallets(ws, buyer, seller, base, quote, q, p).Ok?
    ensures WalletsBounded(SettleWallets(ws, buyer, seller, base, quote, q, p).value)
  {
    var pay := q * p;
    assert pay >= 0.0;
    var w1 := CreditWallet(ws, WalletKey(buyer, base), q);
    CreditKeepsBounded(ws, WalletKey(buyer, base), q);
    UnlockDebitKeepsBounded(w1, WalletKey(buyer, quote), pay);
    var w3 := DebitWallet(UnlockWallet(w1, WalletKey(buyer, quote), pay), WalletKey(buyer, quote), pay).value;
    UnlockDebitKeepsBounded(w3, WalletKey(seller, base), q);
    var w5 := DebitWallet(UnlockWallet(w3, WalletKey(seller, base), q), WalletKey(seller, base), q).value;
    CreditKeepsBounded(w5, WalletKey(seller, quote), pay);
  }

  /**
   * Each settlement leg moves its currency's total by its amount, but only
   * when its wallet exists: a missing wallet silently drops that leg.
   */
  lemma SettleWalletsTotals(ws: map<WalletKey, Wallet>, buyer: UserId, seller: UserId,
                            base: CurrencyId, quote: CurrencyId, q: real, p: real, c: CurrencyId)
    requires SettleWallets(ws, buyer, seller, base, quote, q, p).Ok?
    ensures Total(SettleWallets(ws, buyer, seller, base, quote, q, p).value, c)
         == Total(ws, c)
            + (if WalletKey(buyer, base) in ws && base == c then q else 0.0)
            - (if WalletKey(buyer, quote) in ws && quote == c then q * p else 0.0)
            - (if WalletKey(seller, base) in ws && base == c then q else 0.0)
            + (if WalletKey(seller, quote) in ws && quote == c then q * p else 0.0)
  {
    var w1 := CreditWallet(ws, WalletKey(buyer, base), q);
    TotalAfterCredit(ws, WalletKey(buyer, base), q, c);
    var w2 := UnlockWallet(w1, WalletKey(buyer, quote), q * p);
    TotalAfterLockOrUnlock(w1, WalletKey(buyer, quote), q * p, c);
    var w3 := DebitWallet(w2, WalletKey(buyer, quote), q * p).value;
    TotalAfterDebit(w2, WalletKey(buyer, quote), q * p, c);
    var w4 := UnlockWallet(w3, WalletKey(seller, base), q);
    TotalAfterLockOrUnlock(w3, WalletKey(seller, base), q, c);
    var w5 := DebitWallet(w4, WalletKey(seller, base), q).value;
    TotalAfterDebit(w4, WalletKey(seller, base), q, c);
    TotalAfterCredit(w5, WalletKey(seller, quote), q * p, c);
  }

  /**
   * With all four wallets present, settlement conserves the total balance of
   * every currency: base and quote only change owner.
   */
  lemma SettleWalletsConserve(ws: map<WalletKey, Wallet>, buyer: UserId, seller: UserId,
                              base: CurrencyId, quote: CurrencyId, q: real, p: real, c: CurrencyId)
    requires WalletKey(buyer, base) in ws && WalletKey(buyer, quote) in ws
    requires WalletKey(seller, base) in ws && WalletKey(seller, quote) in ws
    requires SettleWallets(ws, buyer, seller, base, quote, q, p).Ok?
    ensures Total(SettleWallets(ws, buyer, seller, base, quote, q, p).value, c) == Total(ws, c)
  {
    SettleWalletsTotals(ws, buyer, seller, base, quote, q, p, c);
  }

  /**
   * The buyer and seller are distinct users with all four wallets: each leg
   * moves exactly its amount, base +q and quote -q*p for the buyer, base -q
   * and quote +q*p for the seller.
   */
  lemma SettleWalletsLegs(ws: map<WalletKey, Wallet>, buyer: UserId, seller: UserId,
                          base: CurrencyId, quote: CurrencyId, q: real, p: real)
    requires buyer != seller && base != quote
    requires WalletKey(buyer, base) in ws && WalletKey(buyer, quote) in ws
    requires WalletKey(seller, base) in ws && WalletKey(seller, quote) in ws
    requires SettleWallets(ws, buyer, seller, base, quote, q, p).Ok?
    ensures var r := SettleWallets(ws, buyer, seller, base, quote, q, p).value;
      && r[WalletKey(buyer, base)] == Add(ws[WalletKey(buyer, base)], q)
      && r[WalletKey(buyer, quote)].balance == ws[WalletKey(buyer, quote)].balance - q * p
      && r[WalletKey(buyer, quote)].locked == Max(0.0, ws[WalletKey(buyer, quote)].locked - q * p)
      && r[WalletKey(seller, base)].balance == ws[WalletKey(seller, base)].balance - q
      && r[WalletKey(seller, base)].locked == Max(0.0, ws[WalletKey(seller, base)].locked - q)
      && r[WalletKey(seller, quote)] == Add(ws[WalletKey(seller, quote)], q * p)
  {
  }

  /** The settlement fails only on a debit: a wallet that lacks the amount after its unlock. */
  lemma SettleWalletsFailure(ws: map<WalletKey, Wallet>, buyer: UserId, seller: UserId,
                             base: CurrencyId, quote: CurrencyId, q: real, p: real)
    requires WalletsBounded(ws) && q >= 0.0 && p >= 0.0
    requires buyer != seller && base != quote
    ensures SettleWallets(ws, buyer, seller, base, quote, q, p).Err? <==>
      || (WalletKey(buyer, quote) in ws && ws[WalletKey(buyer, quote)].balance < q * p)
      || (WalletKey(seller, base) in ws && ws[WalletKey(seller, base)].balance < q)
  {
  }

  /**
   * When the buyer's quote wallet locks at least q*p and the seller's base
   * wallet at least q, settlement cannot fail, and it releases exactly q*p
   * and q from those two reserves, every other locked balance unchanged.
   */
  lemma SettleWalletsFromReserves(ws: map<WalletKey, Wallet>, buyer: UserId, seller: UserId,
                                  base: CurrencyId, quote: CurrencyId, q: real, p: real, value: real, k: WalletKey)
    requires WalletsBounded(ws) && base != quote && q >= 0.0 && value == q * p
    requires WalletKey(buyer, quote) in ws && ws[WalletKey(buyer, quote)].locked >= value
    requires WalletKey(seller, base) in ws && ws[WalletKey(seller, base)].locked >= q
    ensures SettleWallets(ws, buyer, seller, base, quote, q, p).Ok?
    ensures k in ws ==> SettleWallets(ws, buyer, seller, base, quote, q, p).value[k].locked == ws[k].locked
                                             - (if k == WalletKey(buyer, quote) then value else 0.0)
                                             - (if k == WalletKey(seller, base) then q else 0.0)
  {
    var kq := WalletKey(buyer, quote);
    var ks := WalletKey(seller, base);
    var w1 := CreditWallet(ws, WalletKey(buyer, base), q);
    assert w1[kq] == ws[kq];
    assert w1[ks].balance >= ws[ks].balance && w1[ks].locked == ws[ks].locked;
    var w2 := UnlockWallet(w1, kq, q * p);
    assert w2[kq].balance >= q * p;
    var w3 := DebitWallet(w2, kq, q * p).value;
    assert w3[ks] == w1[ks];
    var w4 := UnlockWallet(w3, ks, q);
    assert w4[ks].balance >= q;
    var w5 := DebitWallet(w4, ks, q).value;
    assert SettleWallets(ws, buyer, seller, base, quote, q, p) == Ok(CreditWallet(w5, WalletKey(seller, quote), q * p));
  }

  // ---- The order book seen by the engine ----

  /** The best buy is a pending buy whose price no other pending buy exceeds. */
  predicate AtLeastAsGood(side: Side, a: Order, b: Order) {
    if side == Buy then b.price <= a.price else a.price <= b.price
  }

  /** No pending buy of the pair reaches any pending sell's price. */
  ghost predicate Uncrossed(orders: map<OrderId, Order>, base: CurrencyId, quote: CurrencyId) {
    forall b, s :: b in PendingOrders(orders, base, quote, Some(Buy))
                && s in PendingOrders(orders, base, quote, Some(Sell))
                ==> orders[b].price < orders[s].price
  }

  /** Every crossing pair of the book involves order `x`. */
  ghost predicate CrossingOnlyWith(orders: map<OrderId, Order>, base: CurrencyId, quote: CurrencyId, x: OrderId) {
    forall b, s :: b in PendingOrders(orders, base, quote, Some(Buy))
                && s in PendingOrders(orders, base, quote, Some(Sell))
                && orders[b].price >= orders[s].price
                ==> b == x || s == x
  }

  /** Every user with a pending order in the pair has wallets in both currencies. */
  ghost predicate PairWalletsExist(st: Ledger, base: CurrencyId, quote: CurrencyId) {
    forall id :: id in PendingOrders(st.orders, base, quote, None) ==>
      WalletKey(st.orders[id].user, base) in st.wallets && WalletKey(st.orders[id].user, quote) in st.wallets
  }

  /** A recorded trade is a match of a buy against a sell of the pair, at the sell price, crossing. */
  ghost predicate TradeOfPair(orders: map<OrderId, Order>, t: Trade, base: CurrencyId, quote: CurrencyId) {
    && t.buyOrder in orders && t.sellOrder in orders
    && orders[t.buyOrder].side == Buy && orders[t.sellOrder].side == Sell
    && InPair(orders[t.buyOrder], base, quote) && InPair(orders[t.sellOrder], base, quote)
    && t.base == base && t.quote == quote
    && t.buyer == orders[t.buyOrder].user && t.seller == orders[t.sellOrder].user
    && t.price == orders[t.sellOrder].price && t.price <= orders[t.buyOrder].price
  }

  /** Picks a best-priced order among `ids`: highest price for buys, lowest for sells. */
  method SelectBest(orders: map<OrderId, Order>, ids: set<OrderId>, side: Side) returns (best: OrderId)
    requires ids != {} && ids <= orders.Keys
    ensures best in ids
    ensures forall j :: j in ids ==> AtLeastAsGood(side, orders[best], orders[j])
  {
    best :| best in ids;
    var rest := ids - {best};
    while rest != {}
      invariant rest <= ids && best in ids
      invariant forall j :: j in ids - rest ==> AtLeastAsGood(side, orders[best], orders[j])
      decreases rest
    {
      var j :| j in rest;
      if !AtLeastAsGood(side, orders[best], orders[j]) {
        best := j;
      }
      rest := rest - {j};
    }
  }

  lemma {:induction false} SubsetCard<T>(a: set<T>, b: set<T>)
    requires a <= b
    ensures |a| <= |b|
    decreases b
  {
    if a != {} {
      var x :| x in a;
      SubsetCard(a - {x}, b - {x});
    }
  }

  // ---- One round and its effect on the invariants ----

  /** A round settles a crossing pair of pending orders of the pair. */
  ghost predicate RoundPre(st: Ledger, base: CurrencyId, quote: CurrencyId, bb: OrderId, bs: OrderId) {
    && bb in PendingOrders(st.orders, base, quote, Some(Buy))
    && bs in PendingOrders(st.orders, base, quote, Some(Sell))
    && st.orders[bb].price >= st.orders[bs].price
  }

  /** A settled round fills at least one pending order and adds no pending order. */
  lemma SettleShrinksPending(st: Ledger, base: CurrencyId, quote: CurrencyId, bb: OrderId, bs: OrderId)
    requires RoundPre(st, base, quote, bb, bs)
    requires Settle(st, base, quote, bb, bs).Ok?
    ensures var r := Settle(st, base, quote, bb, bs).value;
      && PendingIds(r.orders) <= PendingIds(st.orders)
      && |PendingIds(r.orders)| < |PendingIds(st.orders)|
      && PendingOrders(r.orders, base, quote, Some(Buy)) <= PendingOrders(st.orders, base, quote, Some(Buy))
      && PendingOrders(r.orders, base, quote, Some(Sell)) <= PendingOrders(st.orders, base, quote, Some(Sell))
      && PendingOrders(r.orders, base, quote, None) <= PendingOrders(st.orders, base, quote, None)
  {
    var r := Settle(st, base, quote, bb, bs).value;
    var filled := if r.orders[bb].status == Filled then bb else bs;
    assert PendingIds(r.orders) <= PendingIds(st.orders) - {filled};
    SubsetCard(PendingIds(r.orders), PendingIds(st.orders) - {filled});
  }

  /** Settling keeps the ledger invariant. */
  lemma SettleKeepsValid(st: Ledger, base: CurrencyId, quote: CurrencyId, bb: OrderId, bs: OrderId)
    requires RoundPre(st, base, quote, bb, bs)
    requires Valid(st)
    requires Settle(st, base, quote, bb, bs).Ok?
    ensures Valid(Settle(st, base, quote, bb, bs).value)
  {
    var b := st.orders[bb];
    var s := st.orders[bs];
    var q := Min(b.quantity, s.quantity);
    assert q > 0.0 && s.price > 0.0;
    SettleWalletsKeepBounded(st.wallets, b.user, s.user, base, quote, q, s.price);
  }

  /** With every pair participant's wallets present, a round conserves every currency's total. */
  lemma SettleConserves(st: Ledger, base: CurrencyId, quote: CurrencyId, bb: OrderId, bs: OrderId, c: CurrencyId)
    requires RoundPre(st, base, quote, bb, bs)
    requires PairWalletsExist(st, base, quote)
    requires Settle(st, base, quote, bb, bs).Ok?
    ensures Total(Settle(st, base, quote, bb, bs).value.wallets, c) == Total(st.wallets, c)
  {
    var b := st.orders[bb];
    var s := st.orders[bs];
    assert bb in PendingOrders(st.orders, base, quote, None);
    assert bs in PendingOrders(st.orders, base, quote, None);
    SettleWalletsConserve(st.wallets, b.user, s.user, base, quote, Min(b.quantity, s.quantity), s.price, c);
  }

  /** On a covered ledger a crossing round's settlement cannot fail. */
  lemma SettleNeverFails(st: Ledger, base: CurrencyId, quote: CurrencyId, bb: OrderId, bs: OrderId)
    requires RoundPre(st, base, quote, bb, bs)
    requires Valid(st) && Covered(st) && base != quote
    ensures Settle(st, base, quote, bb, bs).Ok?
  {
    var b := st.orders[bb];
    var s := st.orders[bs];
    var q, pay, commit := RoundReserves(st, base, quote, bb, bs);
    SettleWalletsFromReserves(st.wallets, b.user, s.user, base, quote, q, s.price, pay, WalletKey(b.user, quote));
  }

  /** The reserves a round draws on hold what it settles. */
  lemma RoundReserves(st: Ledger, base: CurrencyId, quote: CurrencyId, bb: OrderId, bs: OrderId)
      returns (q: real, pay: real, commit: real)
    requires RoundPre(st, base, quote, bb, bs)
    requires Valid(st) && Covered(st) && base != quote
    ensures q == Min(st.orders[bb].quantity, st.orders[bs].quantity) && q >= 0.0
    ensures pay == q * st.orders[bs].price && commit == q * st.orders[bb].price && pay <= commit
    ensures WalletKey(st.orders[bb].user, quote) in st.wallets
    ensures st.wallets[WalletKey(st.orders[bb].user, quote)].locked >= commit
    ensures WalletKey(st.orders[bs].user, base) in st.wallets
    ensures st.wallets[WalletKey(st.orders[bs].user, base)].locked >= q
  {
    var b := st.orders[bb];
    var s := st.orders[bs];
    q := Min(b.quantity, s.quantity);
    pay, commit := q * s.price, q * b.price;
    assert bb in PendingOrders(st.orders, base, quote, Some(Buy));
    assert bs in PendingOrders(st.orders, base, quote, Some(Sell));
    OrderReserve(st, bb);
    OrderReserve(st, bs);
    PriceBounds(q, b.quantity, s.price, b.price);
  }

  /** Under the reserve invariant, a pending order's wallet exists and holds at least what the order holds. */
  lemma OrderReserve(st: Ledger, id: OrderId)
    requires Covered(st) && OrdersWellFormed(st.orders)
    requires id in st.orders && st.orders[id].status == Pending
    ensures HoldKey(st.orders[id]) in st.wallets
    ensures st.wallets[HoldKey(st.orders[id])].locked >= HeldAmount(st.orders[id])
  {
    CommittedAtLeast(st.orders, HoldKey(st.orders[id]), id);
  }

  /** q*ps <= q*pb <= qty*pb for 0 <= q <= qty and 0 <= ps <= pb. */
  lemma PriceBounds(q: real, qty: real, ps: real, pb: real)
    requires 0.0 <= q <= qty && 0.0 <= ps <= pb
    ensures q * ps <= q * pb <= qty * pb
  {
  }

  /** What a round's two fills take off each wallet's commitment. */
  lemma SettleCommitted(st: Ledger, base: CurrencyId, quote: CurrencyId, bb: OrderId, bs: OrderId,
                        k: WalletKey, q: real, orders': map<OrderId, Order>, value: real)
    requires bb in st.orders && bs in st.orders && bb != bs
    requires st.orders[bb].status == Pending && st.orders[bs].status == Pending
    requires st.orders[bb].side == Buy && st.orders[bs].side == Sell
    requires st.orders[bb].quote == quote && st.orders[bs].base == base && base != quote
    requires 0.0 <= q <= st.orders[bb].quantity && q <= st.orders[bs].quantity
    requires q == Min(st.orders[bb].quantity, st.orders[bs].quantity)
    requires orders' == st.orders[bb := Fill(st.orders[bb], q)][bs := Fill(st.orders[bs], q)]
    requires value == q * st.orders[bb].price
    ensures k == WalletKey(st.orders[bb].user, quote) ==> Committed(orders', k) == Committed(st.orders, k) - value
    ensures k == WalletKey(st.orders[bs].user, base) ==> Committed(orders', k) == Committed(st.orders, k) - q
    ensures k != WalletKey(st.orders[bb].user, quote) && k != WalletKey(st.orders[bs].user, base)
            ==> Committed(orders', k) == Committed(st.orders, k)
  {
    var b := st.orders[bb];
    var s := st.orders[bs];
    var o1 := st.orders[bb := Fill(b, q)];
    CommittedAfterFill(st.orders, bb, q, value, k);
    assert o1[bs] == s;
    CommittedAfterFill(o1, bs, q, q, k);
  }

  /**
   * A wallet that covered its commitments before a round covers them after:
   * the round takes q*pb off the buyer's commitment but only q*ps off its
   * reserve, and q off both for the seller.
   */
  lemma SettleCoveredAt(st: Ledger, base: CurrencyId, quote: CurrencyId, bb: OrderId, bs: OrderId, k: WalletKey,
                        q: real, pay: real, commit: real, orders': map<OrderId, Order>)
    requires bb in st.orders && bs in st.orders && bb != bs
    requires st.orders[bb].status == Pending && st.orders[bs].status == Pending
    requires st.orders[bb].side == Buy && st.orders[bs].side == Sell
    requires st.orders[bb].quote == quote && st.orders[bs].base == base && base != quote
    requires WalletsBounded(st.wallets)
    requires q == Min(st.orders[bb].quantity, st.orders[bs].quantity) && q >= 0.0
    requires pay == q * st.orders[bs].price && commit == q * st.orders[bb].price && pay <= commit
    requires WalletKey(st.orders[bb].user, quote) in st.wallets && st.wallets[WalletKey(st.orders[bb].user, quote)].locked >= commit
    requires WalletKey(st.orders[bs].user, base) in st.wallets && st.wallets[WalletKey(st.orders[bs].user, base)].locked >= q
    requires k in st.wallets && Committed(st.orders, k) <= st.wallets[k].locked
    requires orders' == st.orders[bb := Fill(st.orders[bb], q)][bs := Fill(st.orders[bs], q)]
    ensures SettleWallets(st.wallets, st.orders[bb].user, st.orders[bs].user, base, quote, q, st.orders[bs].price).Ok?
    ensures Committed(orders', k)
         <= SettleWallets(st.wallets, st.orders[bb].user, st.orders[bs].user, base, quote, q, st.orders[bs].price).value[k].locked
  {
    var b := st.orders[bb];
    var s := st.orders[bs];
    SettleWalletsFromReserves(st.wallets, b.user, s.user, base, quote, q, s.price, pay, k);
    SettleCommitted(st, base, quote, bb, bs, k, q, orders', commit);
    assert WalletKey(b.user, quote) != WalletKey(s.user, base);
  }

  /** A settled round keeps every reserve covering its commitments. */
  lemma SettleKeepsCovered(st: Ledger, base: CurrencyId, quote: CurrencyId, bb: OrderId, bs: OrderId)
    requires RoundPre(st, base, quote, bb, bs)
    requires Valid(st) && Covered(st) && base != quote
    ensures Settle(st, base, quote, bb, bs).Ok?
    ensures Covered(Settle(st, base, quote, bb, bs).value)
  {
    SettleNeverFails(st, base, quote, bb, bs);
    var q, pay, commit := RoundReserves(st, base, quote, bb, bs);
    assert bb in PendingOrders(st.orders, base, quote, Some(Buy));
    assert bs in PendingOrders(st.orders, base, quote, Some(Sell));
    var r := Settle(st, base, quote, bb, bs).value;
    SettleUsesWallets(st, base, quote, bb, bs, q);
    SettleFillsBoth(st, base, quote, bb, bs, q, r);
    forall k | k in r.wallets ensures Committed(r.orders, k) <= r.wallets[k].locked {
      assert Committed(st.orders, k) <= st.wallets[k].locked;
      SettleCoveredAt(st, base, quote, bb, bs, k, q, pay, commit, r.orders);
    }
    forall id | id in r.orders && r.orders[id].status == Pending ensures HoldKey(r.orders[id]) in r.wallets {
      SettleKeepsHoldKeys(st, base, quote, bb, bs, id);
    }
  }

  /** An order pending after a round was pending before it, on the same wallet. */
  lemma SettleKeepsHoldKeys(st: Ledger, base: CurrencyId, quote: CurrencyId, bb: OrderId, bs: OrderId, id: OrderId)
    requires bb in st.orders && bs in st.orders
    requires st.orders[bb].side == Buy && st.orders[bs].side == Sell
    requires Settle(st, base, quote, bb, bs).Ok?
    requires id in Settle(st, base, quote, bb, bs).value.orders
    requires Settle(st, base, quote, bb, bs).value.orders[id].status == Pending
    ensures id in st.orders && st.orders[id].status == Pending
    ensures HoldKey(Settle(st, base, quote, bb, bs).value.orders[id]) == HoldKey(st.orders[id])
  {
    var b := st.orders[bb];
    var s := st.orders[bs];
    var q := Min(b.quantity, s.quantity);
    var orders' := Settle(st, base, quote, bb, bs).value.orders;
    assert orders' == st.orders[bb := Fill(b, q)][bs := Fill(s, q)];
    if id == bs {
      assert orders'[id] == Fill(s, q);
    } else if id == bb {
      assert orders'[id] == Fill(b, q);
    } else {
      assert orders'[id] == st.orders[id];
    }
  }

  /** Fields matching never touches, and orders outside the pair's pending set. */
  ghost predicate FrameKept(st: Ledger, r: Ledger, base: CurrencyId, quote: CurrencyId) {
    && r.users == st.users && r.currencies == st.currencies && r.deposits == st.deposits
    && r.withdrawals == st.withdrawals && r.transfers == st.transfers && r.history == st.history
    && r.wallets.Keys == st.wallets.Keys
    && r.orders.Keys == st.orders.Keys
    && (forall id :: id in st.orders ==> SameTerms(r.orders[id], st.orders[id]))
    && (forall id :: id in st.orders && id !in PendingOrders(st.orders, base, quote, None) ==> r.orders[id] == st.orders[id])
  }

  /** Orders only ever leave the pending state. */
  ghost predicate PendingShrunk(st: Ledger, r: Ledger, base: CurrencyId, quote: CurrencyId) {
    && PendingIds(r.orders) <= PendingIds(st.orders)
    && PendingOrders(r.orders, base, quote, Some(Buy)) <= PendingOrders(st.orders, base, quote, Some(Buy))
    && PendingOrders(r.orders, base, quote, Some(Sell)) <= PendingOrders(st.orders, base, quote, Some(Sell))
    && PendingOrders(r.orders, base, quote, None) <= PendingOrders(st.orders, base, quote, None)
  }

  /** Trades are appended, each a crossing match of the pair, and each filled an order. */
  ghost predicate TradesAppended(st: Ledger, r: Ledger, base: CurrencyId, quote: CurrencyId) {
    && |st.trades| <= |r.trades| && r.trades[..|st.trades|] == st.trades
    && |r.trades| - |st.trades| <= |PendingIds(st.orders)| - |PendingIds(r.orders)|
    && (forall i :: |st.trades| <= i < |r.trades| ==> TradeOfPair(st.orders, r.trades[i], base, quote))
  }

  /** Invariants carried from the starting ledger. */
  ghost predicate InvariantsKept(st: Ledger, r: Ledger, base: CurrencyId, quote: CurrencyId) {
    && (Valid(st) ==> Valid(r))
    && (PairWalletsExist(st, base, quote) ==> PairWalletsExist(r, base, quote))
    && (PairWalletsExist(st, base, quote) ==> forall c :: Total(r.wallets, c) == Total(st.wallets, c))
    && (forall x :: CrossingOnlyWith(st.orders, base, quote, x) ==> CrossingOnlyWith(r.orders, base, quote, x))
    && (Valid(st) && Covered(st) && base != quote ==> Covered(r))
  }

  /**
   * What the matching loop keeps between the ledger `st` it started from
   * and the current ledger `r`.
   */
  ghost predicate Evolved(st: Ledger, r: Ledger, base: CurrencyId, quote: CurrencyId) {
    && FrameKept(st, r, base, quote)
    && PendingShrunk(st, r, base, quote)
    && TradesAppended(st, r, base, quote)
    && InvariantsKept(st, r, base, quote)
  }

  lemma EvolvedRefl(st: Ledger, base: CurrencyId, quote: CurrencyId)
    ensures Evolved(st, st, base, quote)
  {
    assert st.trades[..|st.trades|] == st.trades;
  }

  lemma FrameStep(st: Ledger, r: Ledger, base: CurrencyId, quote: CurrencyId, bb: OrderId, bs: OrderId)
    requires FrameKept(st, r, base, quote) && PendingShrunk(st, r, base, quote)
    requires RoundPre(r, base, quote, bb, bs)
    requires Settle(r, base, quote, bb, bs).Ok?
    ensures FrameKept(st, Settle(r, base, quote, bb, bs).value, base, quote)
  {
    assert bb in PendingOrders(r.orders, base, quote, None);
    assert bs in PendingOrders(r.orders, base, quote, None);
    FrameAfterFills(st, r, Settle(r, base, quote, bb, bs).value, base, quote, bb, bs,
                    Min(r.orders[bb].quantity, r.orders[bs].quantity));
  }

  /** Filling two pending orders of the pair keeps the frame: only the pair's pending orders change. */
  lemma FrameAfterFills(st: Ledger, r: Ledger, r': Ledger, base: CurrencyId, quote: CurrencyId,
                        bb: OrderId, bs: OrderId, q: real)
    requires FrameKept(st, r, base, quote) && PendingShrunk(st, r, base, quote)
    requires bb in PendingOrders(r.orders, base, quote, None) && bs in PendingOrders(r.orders, base, quote, None)
    requires r'.orders == r.orders[bb := Fill(r.orders[bb], q)][bs := Fill(r.orders[bs], q)]
    requires r' == r.(trades := r'.trades, orders := r'.orders, wallets := r'.wallets)
    requires r'.wallets.Keys == r.wallets.Keys
    ensures FrameKept(st, r', base, quote)
  {
    assert bb in PendingOrders(st.orders, base, quote, None);
    assert bs in PendingOrders(st.orders, base, quote, None);
  }

  lemma PendingStep(st: Ledger, r: Ledger, base: CurrencyId, quote: CurrencyId, bb: OrderId, bs: OrderId)
    requires PendingShrunk(st, r, base, quote)
    requires RoundPre(r, base, quote, bb, bs)
    requires Settle(r, base, quote, bb, bs).Ok?
    ensures PendingShrunk(st, Settle(r, base, quote, bb, bs).value, base, quote)
    ensures |PendingIds(Settle(r, base, quote, bb, bs).value.orders)| < |PendingIds(r.orders)|
  {
    SettleShrinksPending(r, base, quote, bb, bs);
  }

  lemma TradesStep(st: Ledger, r: Ledger, base: CurrencyId, quote: CurrencyId, bb: OrderId, bs: OrderId)
    requires FrameKept(st, r, base, quote) && TradesAppended(st, r, base, quote)
    requires RoundPre(r, base, quote, bb, bs)
    requires Settle(r, base, quote, bb, bs).Ok?
    requires |PendingIds(Settle(r, base, quote, bb, bs).value.orders)| < |PendingIds(r.orders)|
    ensures TradesAppended(st, Settle(r, base, quote, bb, bs).value, base, quote)
  {
    var r' := Settle(r, base, quote, bb, bs).value;
    assert SameTerms(r.orders[bb], st.orders[bb]) && SameTerms(r.orders[bs], st.orders[bs]);
    assert TradeOfPair(st.orders, r'.trades[|r.trades|], base, quote);
    assert r'.trades[..|st.trades|] == r.trades[..|st.trades|];
    forall i | |st.trades| <= i < |r'.trades|
      ensures TradeOfPair(st.orders, r'.trades[i], base, quote)
    {
      if i < |r.trades| {
        assert r'.trades[i] == r.trades[i];
      }
    }
  }

  lemma WalletsExistStep(st: Ledger, r: Ledger, base: CurrencyId, quote: CurrencyId, bb: OrderId, bs: OrderId)
    requires FrameKept(st, r, base, quote) && PendingShrunk(st, r, base, quote)
    requires PairWalletsExist(r, base, quote)
    requires RoundPre(r, base, quote, bb, bs)
    requires Settle(r, base, quote, bb, bs).Ok?
    ensures PairWalletsExist(Settle(r, base, quote, bb, bs).value, base, quote)
  {
    WalletsAfterFills(r, Settle(r, base, quote, bb, bs).value, base, quote, bb, bs,
                      Min(r.orders[bb].quantity, r.orders[bs].quantity));
  }

  /** Filling two orders adds no pending order and removes no wallet. */
  lemma WalletsAfterFills(r: Ledger, r': Ledger, base: CurrencyId, quote: CurrencyId, bb: OrderId, bs: OrderId, q: real)
    requires PairWalletsExist(r, base, quote)
    requires bb in r.orders && bs in r.orders
    requires r'.orders == r.orders[bb := Fill(r.orders[bb], q)][bs := Fill(r.orders[bs], q)]
    requires r'.wallets.Keys == r.wallets.Keys
    ensures PairWalletsExist(r', base, quote)
  {
    forall id | id in PendingOrders(r'.orders, base, quote, None)
      ensures WalletKey(r'.orders[id].user, base) in r'.wallets && WalletKey(r'.orders[id].user, quote) in r'.wallets
    {
      assert id in PendingOrders(r.orders, base, quote, None);
    }
  }

  lemma TotalsStep(st: Ledger, r: Ledger, base: CurrencyId, quote: CurrencyId, bb: OrderId, bs: OrderId)
    requires PairWalletsExist(r, base, quote)
    requires forall c :: Total(r.wallets, c) == Total(st.wallets, c)
    requires RoundPre(r, base, quote, bb, bs)
    requires Settle(r, base, quote, bb, bs).Ok?
    ensures forall c :: Total(Settle(r, base, quote, bb, bs).value.wallets, c) == Total(st.wallets, c)
  {
    forall c ensures Total(Settle(r, base, quote, bb, bs).value.wallets, c) == Total(st.wallets, c) {
      SettleConserves(r, base, quote, bb, bs, c);
    }
  }

  lemma CrossingStep(st: Ledger, r: Ledger, base: CurrencyId, quote: CurrencyId, bb: OrderId, bs: OrderId, x: OrderId)
    requires CrossingOnlyWith(r.orders, base, quote, x)
    requires RoundPre(r, base, quote, bb, bs)
    requires Settle(r, base, quote, bb, bs).Ok?
    ensures CrossingOnlyWith(Settle(r, base, quote, bb, bs).value.orders, base, quote, x)
  {
    SettleShrinksPending(r, base, quote, bb, bs);
  }

  lemma InvariantsStep(st: Ledger, r: Ledger, base: CurrencyId, quote: CurrencyId, bb: OrderId, bs: OrderId)
    requires FrameKept(st, r, base, quote) && PendingShrunk(st, r, base, quote) && InvariantsKept(st, r, base, quote)
    requires RoundPre(r, base, quote, bb, bs)
    requires Settle(r, base, quote, bb, bs).Ok?
    ensures InvariantsKept(st, Settle(r, base, quote, bb, bs).value, base, quote)
  {
    if Valid(st) {
      SettleKeepsValid(r, base, quote, bb, bs);
    }
    if PairWalletsExist(st, base, quote) {
      WalletsExistStep(st, r, base, quote, bb, bs);
      TotalsStep(st, r, base, quote, bb, bs);
    }
    if Valid(st) && Covered(st) && base != quote {
      SettleKeepsCovered(r, base, quote, bb, bs);
    }
    forall x | CrossingOnlyWith(st.orders, base, quote, x)
      ensures CrossingOnlyWith(Settle(r, base, quote, bb, bs).value.orders, base, quote, x)
    {
      CrossingStep(st, r, base, quote, bb, bs, x);
    }
  }

  /** One settled round extends `Evolved` by a step and shrinks the pending set. */
  lemma EvolvedStep(st: Ledger, r: Ledger, base: CurrencyId, quote: CurrencyId, bb: OrderId, bs: OrderId)
    requires Evolved(st, r, base, quote)
    requires RoundPre(r, base, quote, bb, bs)
    requires Settle(r, base, quote, bb, bs).Ok?
    ensures Evolved(st, Settle(r, base, quote, bb, bs).value, base, quote)
    ensures |PendingIds(Settle(r, base, quote, bb, bs).value.orders)| < |PendingIds(r.orders)|
  {
    FrameStep(st, r, base, quote, bb, bs);
    PendingStep(st, r, base, quote, bb, bs);
    TradesStep(st, r, base, quote, bb, bs);
    InvariantsStep(st, r, base, quote, bb, bs);
  }

  /** The round filled both orders, so with `x` among them nothing crosses any more. */
  lemma BothFilledUncrossed(st: Ledger, r: Ledger, base: CurrencyId, quote: CurrencyId, bb: OrderId, bs: OrderId)
    requires Evolved(st, r, base, quote)
    requires RoundPre(r, base, quote, bb, bs)
    requires Settle(r, base, quote, bb, bs).Ok?
    requires Settle(r, base, quote, bb, bs).value.orders[bb].status == Filled
    requires Settle(r, base, quote, bb, bs).value.orders[bs].status == Filled
    ensures forall x :: CrossingOnlyWith(st.orders, base, quote, x)
                        ==> Uncrossed(Settle(r, base, quote, bb, bs).value.orders, base, quote)
  {
    var r' := Settle(r, base, quote, bb, bs).value;
    forall x | CrossingOnlyWith(st.orders, base, quote, x)
      ensures Uncrossed(r'.orders, base, quote)
    {
      assert CrossingOnlyWith(r.orders, base, quote, x);
      UncrossedAfterFills(r.orders, r'.orders, base, quote, bb, bs, Min(r.orders[bb].quantity, r.orders[bs].quantity), x);
    }
  }

  /**
   * When every crossing pair involves one of two orders and filling both
   * leaves neither pending, nothing is crossed any more.
   */
  lemma UncrossedAfterFills(orders: map<OrderId, Order>, orders': map<OrderId, Order>, base: CurrencyId, quote: CurrencyId,
                            bb: OrderId, bs: OrderId, q: real, x: OrderId)
    requires bb in orders && bs in orders
    requires orders' == orders[bb := Fill(orders[bb], q)][bs := Fill(orders[bs], q)]
    requires orders'[bb].status == Filled && orders'[bs].status == Filled
    requires CrossingOnlyWith(orders, base, quote, x) && (x == bb || x == bs)
    ensures Uncrossed(orders', base, quote)
  {
    forall b, s | b in PendingOrders(orders', base, quote, Some(Buy)) && s in PendingOrders(orders', base, quote, Some(Sell))
      ensures orders'[b].price < orders'[s].price
    {
      assert b in PendingOrders(orders, base, quote, Some(Buy));
      assert s in PendingOrders(orders, base, quote, Some(Sell));
    }
  }

  datatype Halt =
    | NoCounterparty    // a side of the pair has no pending order
    | NotCrossed        // best buy price below best sell price
    | BothFilled        // the last round filled both matched orders
    | SettlementFailed  // a debit failed; the round was not applied

  /** What the halt reason tells about the final book. */
  ghost predicate HaltPost(st: Ledger, r: Ledger, base: CurrencyId, quote: CurrencyId, halt: Halt) {
    && (halt == NoCounterparty ==>
         PendingOrders(r.orders, base, quote, Some(Buy)) == {} || PendingOrders(r.orders, base, quote, Some(Sell)) == {})
    && (halt == NoCounterparty || halt == NotCrossed ==> Uncrossed(r.orders, base, quote))
    && (halt != SettlementFailed ==> forall x :: CrossingOnlyWith(st.orders, base, quote, x)
                                                ==> Uncrossed(r.orders, base, quote))
    && (halt == SettlementFailed ==> !(Valid(st) && Covered(st) && base != quote) && FailedAtBest(r, base, quote))
  }

  /** Some best pending buy of the pair reaches a best pending sell, and settling that pair fails. */
  ghost predicate FailedAtBest(r: Ledger, base: CurrencyId, quote: CurrencyId) {
    exists bb, bs :: && RoundPre(r, base, quote, bb, bs)
                     && (forall j :: j in PendingOrders(r.orders, base, quote, Some(Buy)) ==> AtLeastAsGood(Buy, r.orders[bb], r.orders[j]))
                     && (forall j :: j in PendingOrders(r.orders, base, quote, Some(Sell)) ==> AtLeastAsGood(Sell, r.orders[bs], r.orders[j]))
                     && Settle(r, base, quote, bb, bs).Err?
  }

  /**
   * `b` is `a` after one settled round: its one new trade matched a best
   * pending buy of the pair against a best pending sell that it reaches.
   */
  ghost predicate SettledBest(a: Ledger, b: Ledger, base: CurrencyId, quote: CurrencyId) {
    && |b.trades| == |a.trades| + 1
    && var t := b.trades[|a.trades|];
       && RoundPre(a, base, quote, t.buyOrder, t.sellOrder)
       && (forall j :: j in PendingOrders(a.orders, base, quote, Some(Buy)) ==> a.orders[j].price <= a.orders[t.buyOrder].price)
       && (forall j :: j in PendingOrders(a.orders, base, quote, Some(Sell)) ==> a.orders[t.sellOrder].price <= a.orders[j].price)
       && Settle(a, base, quote, t.buyOrder, t.sellOrder) == Ok(b)
  }

  /** The last trade left its buy or its sell with quantity remaining, so the source matches again. */
  ghost predicate LastTradeLeftOpen(r: Ledger) {
    && |r.trades| > 0
    && var t := r.trades[|r.trades| - 1];
       && t.buyOrder in r.orders && t.sellOrder in r.orders
       && (r.orders[t.buyOrder].quantity > 0.0 || r.orders[t.sellOrder].quantity > 0.0)
  }

  /**
   * One pass of the loop body: select, cross test, settle. `going` says
   * whether the source would call itself again: exactly when the round
   * settled a trade that left one of its two orders partly open.
   */
  method MatchRound(st: Ledger, r: Ledger, base: CurrencyId, quote: CurrencyId) returns (next: Ledger, halt: Halt, going: bool)
    requires Evolved(st, r, base, quote)
    ensures Evolved(st, next, base, quote)
    ensures going || halt == BothFilled ==> SettledBest(r, next, base, quote) && (going <==> LastTradeLeftOpen(next))
    ensures halt == BothFilled ==> !going
    ensures going || halt == BothFilled ==> |PendingIds(next.orders)| < |PendingIds(r.orders)|
    ensures !going ==> HaltPost(st, next, base, quote, halt)
    ensures !going && halt != BothFilled ==> next == r
    ensures Uncrossed(r.orders, base, quote) ==> !going && next == r && halt != BothFilled
  {
    var stop, bb, bs := BestPair(r, base, quote);
    if stop.Some? {
      StoppedOutcome(st, r, base, quote, stop.value);
      return r, stop.value, false;
    }
    match Settle(r, base, quote, bb, bs)
    case Err(_) =>
      FailedRound(st, r, base, quote, bb, bs);
      next, halt, going := r, SettlementFailed, false;
    case Ok(s) =>
      next := s;
      going := s.orders[bb].quantity > 0.0 || s.orders[bs].quantity > 0.0;
      halt := if going then NotCrossed else BothFilled;
      SettledOutcome(st, r, base, quote, bb, bs, next, halt, going);
  }

  /**
   * Selects the best pending buy and the best pending sell of the pair. It
   * reports a stop when a side is empty or the two do not cross.
   */
  method BestPair(r: Ledger, base: CurrencyId, quote: CurrencyId) returns (stop: Option<Halt>, bb: OrderId, bs: OrderId)
    ensures stop == Some(NoCounterparty) <==>
      PendingOrders(r.orders, base, quote, Some(Buy)) == {} || PendingOrders(r.orders, base, quote, Some(Sell)) == {}
    ensures stop.Some? ==> stop.value == NoCounterparty || (stop.value == NotCrossed && Uncrossed(r.orders, base, quote))
    ensures stop.None? ==> RoundPre(r, base, quote, bb, bs)
    ensures stop.None? ==>
      && (forall j :: j in PendingOrders(r.orders, base, quote, Some(Buy)) ==> AtLeastAsGood(Buy, r.orders[bb], r.orders[j]))
      && (forall j :: j in PendingOrders(r.orders, base, quote, Some(Sell)) ==> AtLeastAsGood(Sell, r.orders[bs], r.orders[j]))
  {
    var buys := PendingOrders(r.orders, base, quote, Some(Buy));
    var sells := PendingOrders(r.orders, base, quote, Some(Sell));
    if buys == {} || sells == {} {
      return Some(NoCounterparty), 0, 0;
    }
    bb := SelectBest(r.orders, buys, Buy);
    bs := SelectBest(r.orders, sells, Sell);
    stop := if r.orders[bb].price < r.orders[bs].price then Some(NotCrossed) else None;
  }

  /** What `MatchRound` promises when it stops without settling, on an empty side or an uncrossed book. */
  lemma StoppedOutcome(st: Ledger, r: Ledger, base: CurrencyId, quote: CurrencyId, halt: Halt)
    requires Evolved(st, r, base, quote)
    requires halt == NoCounterparty || halt == NotCrossed
    requires halt == NoCounterparty ==>
      PendingOrders(r.orders, base, quote, Some(Buy)) == {} || PendingOrders(r.orders, base, quote, Some(Sell)) == {}
    requires halt == NotCrossed ==> Uncrossed(r.orders, base, quote)
    ensures Uncrossed(r.orders, base, quote)
    ensures HaltPost(st, r, base, quote, halt)
  {
  }

  /** What `MatchRound` promises after settling a best crossing pair. */
  lemma SettledOutcome(st: Ledger, r: Ledger, base: CurrencyId, quote: CurrencyId, bb: OrderId, bs: OrderId,
                       next: Ledger, halt: Halt, going: bool)
    requires Evolved(st, r, base, quote)
    requires RoundPre(r, base, quote, bb, bs)
    requires forall j :: j in PendingOrders(r.orders, base, quote, Some(Buy)) ==> AtLeastAsGood(Buy, r.orders[bb], r.orders[j])
    requires forall j :: j in PendingOrders(r.orders, base, quote, Some(Sell)) ==> AtLeastAsGood(Sell, r.orders[bs], r.orders[j])
    requires Settle(r, base, quote, bb, bs) == Ok(next)
    requires going == (next.orders[bb].quantity > 0.0 || next.orders[bs].quantity > 0.0)
    requires halt == if going then NotCrossed else BothFilled
    ensures Evolved(st, next, base, quote)
    ensures SettledBest(r, next, base, quote) && (going <==> LastTradeLeftOpen(next))
    ensures |PendingIds(next.orders)| < |PendingIds(r.orders)|
    ensures !going ==> HaltPost(st, next, base, quote, halt)
    ensures !Uncrossed(r.orders, base, quote)
  {
    SettledRound(st, r, base, quote, bb, bs);
    SettledBestRound(r, base, quote, bb, bs, next);
  }

  /**
   * A failed settlement of a best crossing pair is a `FailedAtBest` book, and it
   * happens only when the starting ledger was not valid, not covered, or had base = quote.
   */
  lemma FailedRound(st: Ledger, r: Ledger, base: CurrencyId, quote: CurrencyId, bb: OrderId, bs: OrderId)
    requires Evolved(st, r, base, quote)
    requires RoundPre(r, base, quote, bb, bs)
    requires forall j :: j in PendingOrders(r.orders, base, quote, Some(Buy)) ==> AtLeastAsGood(Buy, r.orders[bb], r.orders[j])
    requires forall j :: j in PendingOrders(r.orders, base, quote, Some(Sell)) ==> AtLeastAsGood(Sell, r.orders[bs], r.orders[j])
    requires Settle(r, base, quote, bb, bs).Err?
    ensures !(Valid(st) && Covered(st) && base != quote)
    ensures FailedAtBest(r, base, quote)
  {
    if Valid(st) && Covered(st) && base != quote {
      SettleNeverFails(r, base, quote, bb, bs);
    }
  }

  /** Settling a best crossing pair is a `SettledBest` round, left open when either order has quantity left. */
  lemma SettledBestRound(r: Ledger, base: CurrencyId, quote: CurrencyId, bb: OrderId, bs: OrderId, s: Ledger)
    requires RoundPre(r, base, quote, bb, bs)
    requires forall j :: j in PendingOrders(r.orders, base, quote, Some(Buy)) ==> AtLeastAsGood(Buy, r.orders[bb], r.orders[j])
    requires forall j :: j in PendingOrders(r.orders, base, quote, Some(Sell)) ==> AtLeastAsGood(Sell, r.orders[bs], r.orders[j])
    requires Settle(r, base, quote, bb, bs) == Ok(s)
    ensures SettledBest(r, s, base, quote)
    ensures LastTradeLeftOpen(s) <==> s.orders[bb].quantity > 0.0 || s.orders[bs].quantity > 0.0
  {
    var t := s.trades[|r.trades|];
    assert t == s.trades[|s.trades| - 1];
    assert t.buyOrder == bb && t.sellOrder == bs;
  }

  /** The rounds of a run: each settled a best crossing pair, and each but the last left an order open. */
  ghost predicate RoundChain(rounds: seq<Ledger>, base: CurrencyId, quote: CurrencyId) {
    && (forall i :: 0 <= i < |rounds| - 1 ==> SettledBest(rounds[i], rounds[i + 1], base, quote))
    && (forall i :: 0 < i < |rounds| - 1 ==> LastTradeLeftOpen(rounds[i]))
  }

  /** A run extends by a round that follows one left open. */
  lemma RoundChainExtend(rounds: seq<Ledger>, next: Ledger, base: CurrencyId, quote: CurrencyId)
    requires |rounds| >= 1 && RoundChain(rounds, base, quote)
    requires |rounds| > 1 ==> LastTradeLeftOpen(rounds[|rounds| - 1])
    requires SettledBest(rounds[|rounds| - 1], next, base, quote)
    ensures RoundChain(rounds + [next], base, quote)
  {
    var rs := rounds + [next];
    forall i | 0 <= i < |rs| - 1 ensures SettledBest(rs[i], rs[i + 1], base, quote) {
      if i < |rounds| - 1 {
        assert rs[i] == rounds[i] && rs[i + 1] == rounds[i + 1];
      } else {
        assert rs[i] == rounds[|rounds| - 1] && rs[i + 1] == next;
      }
    }
    forall i | 0 < i < |rs| - 1 ensures LastTradeLeftOpen(rs[i]) {
      assert rs[i] == rounds[i];
    }
  }

  /** The run after one more round: extended when the round settled a trade, unchanged otherwise. */
  lemma NextRounds(rounds: seq<Ledger>, next: Ledger, halt: Halt, going: bool, base: CurrencyId, quote: CurrencyId)
    returns (rounds': seq<Ledger>)
    requires |rounds| >= 1 && RoundChain(rounds, base, quote)
    requires |rounds| > 1 ==> LastTradeLeftOpen(rounds[|rounds| - 1])
    requires going || halt == BothFilled ==> SettledBest(rounds[|rounds| - 1], next, base, quote) && (going <==> LastTradeLeftOpen(next))
    requires halt == BothFilled ==> !going
    requires !going && halt != BothFilled ==> next == rounds[|rounds| - 1]
    ensures |rounds'| >= 1 && rounds'[0] == rounds[0] && rounds'[|rounds'| - 1] == next
    ensures RoundChain(rounds', base, quote)
    ensures going ==> |rounds'| > 1 && LastTradeLeftOpen(next)
    ensures !going ==> (halt == BothFilled <==> |rounds'| > 1 && !LastTradeLeftOpen(next))
  {
    if going || halt == BothFilled {
      RoundChainExtend(rounds, next, base, quote);
      rounds' := rounds + [next];
    } else {
      rounds' := rounds;
    }
  }

  /**
   * A settled round of a crossed book evolves the ledger, fills at least one
   * pending order, and when it fills both leaves nothing crossed.
   */
  lemma SettledRound(st: Ledger, r: Ledger, base: CurrencyId, quote: CurrencyId, bb: OrderId, bs: OrderId)
    requires Evolved(st, r, base, quote)
    requires RoundPre(r, base, quote, bb, bs)
    requires Settle(r, base, quote, bb, bs).Ok?
    ensures !Uncrossed(r.orders, base, quote)
    ensures var s := Settle(r, base, quote, bb, bs).value;
      && Evolved(st, s, base, quote)
      && |PendingIds(s.orders)| < |PendingIds(r.orders)|
      && (s.orders[bb].quantity <= 0.0 && s.orders[bs].quantity <= 0.0 ==> HaltPost(st, s, base, quote, BothFilled))
  {
    EvolvedStep(st, r, base, quote, bb, bs);
    var s := Settle(r, base, quote, bb, bs).value;
    if s.orders[bb].quantity <= 0.0 && s.orders[bs].quantity <= 0.0 {
      BothFilledUncrossed(st, r, base, quote, bb, bs);
    }
  }

  /**
   * Matches the pair, round after round. Each round fills at least one
   * pending order, so the loop ends. `rounds` lists the ledger before the
   * first round and after each settled one. A round is followed by another
   * exactly when its trade left one of its orders partly open; matching
   * stops with no further trade on an empty side or an uncrossed book, after
   * a round that fills both orders, or when a settlement fails.
   */
  method MatchOrders(st: Ledger, base: CurrencyId, quote: CurrencyId) returns (r: Ledger, halt: Halt, ghost rounds: seq<Ledger>)
    ensures Evolved(st, r, base, quote)
    ensures HaltPost(st, r, base, quote, halt)
    ensures Uncrossed(st.orders, base, quote) ==> r == st
    ensures Valid(st) && Covered(st) && base != quote ==> halt != SettlementFailed && Valid(r) && Covered(r)
    ensures |rounds| >= 1 && rounds[0] == st && rounds[|rounds| - 1] == r
    ensures RoundChain(rounds, base, quote)
    ensures halt == BothFilled <==> |rounds| > 1 && !LastTradeLeftOpen(r)
  {
    r := st;
    halt := NoCounterparty;
    rounds := [st];
    EvolvedRefl(st, base, quote);
    var going := true;
    while going
      invariant Evolved(st, r, base, quote)
      invariant !going ==> HaltPost(st, r, base, quote, halt)
      invariant Uncrossed(st.orders, base, quote) ==> r == st
      invariant |rounds| >= 1 && rounds[0] == st && rounds[|rounds| - 1] == r
      invariant RoundChain(rounds, base, quote)
      invariant going ==> |rounds| > 1 ==> LastTradeLeftOpen(r)
      invariant !going ==> (halt == BothFilled <==> |rounds| > 1 && !LastTradeLeftOpen(r))
      decreases |PendingIds(r.orders)|, if going then 1 else 0
    {
      var next, h, g := MatchRound(st, r, base, quote);
      rounds := NextRounds(rounds, next, h, g, base, quote);
      r, halt, going := next, h, g;
    }
  }

  // ---- Placement followed by matching ----

  /** Adding one order to an uncrossed book leaves only crossings with that order. */
  lemma AddOrderCrossingOnlyWith(orders: map<OrderId, Order>, base: CurrencyId, quote: CurrencyId, id: OrderId, o: Order)
    requires id !in orders
    requires Uncrossed(orders, base, quote)
    ensures CrossingOnlyWith(orders[id := o], base, quote, id)
  {
  }

  /**
   * Places an order and then matches its pair. Matching is a follow-on step:
   * its failure does not undo the placement. `rounds` is the run of the
   * matching, starting from the ledger with the new order placed.
   */
  method PlaceOrder(st: Ledger, id: OrderId, user: UserId, base: CurrencyId, quote: CurrencyId,
                    side: Side, quantity: real, price: real, now: nat)
    returns (r: Result<Ledger>, halt: Option<Halt>, ghost rounds: seq<Ledger>)
    requires id !in st.orders
    ensures var created := CreateOrder(st, id, user, base, quote, side, quantity, price, now);
      && (created.Err? ==> r == Err(created.error) && halt == None)
      && (created.Ok? ==> r.Ok? && halt.Some? && Evolved(created.value, r.value, base, quote))
    ensures r.Ok? ==> id in r.value.orders && SameTerms(r.value.orders[id], NewOrder(user, base, quote, side, quantity, price, now))
    ensures r.Ok? && Valid(st) && quantity > 0.0 && price > 0.0 ==> Valid(r.value)
    ensures r.Ok? && Uncrossed(st.orders, base, quote) && halt != Some(SettlementFailed)
            ==> Uncrossed(r.value.orders, base, quote)
    ensures r.Ok? && Valid(st) && Covered(st) && quantity > 0.0 && price > 0.0 && base != quote
            ==> Covered(r.value) && halt != Some(SettlementFailed)
    ensures r.Ok? && halt == Some(SettlementFailed) ==> FailedAtBest(r.value, base, quote)
    ensures var created := CreateOrder(st, id, user, base, quote, side, quantity, price, now);
      created.Ok? ==> && |rounds| >= 1 && rounds[0] == created.value && rounds[|rounds| - 1] == r.value
                      && RoundChain(rounds, base, quote)
                      && HaltPost(created.value, r.value, base, quote, halt.value)
                      && (halt.value == BothFilled <==> |rounds| > 1 && !LastTradeLeftOpen(r.value))
  {
    var created := CreateOrder(st, id, user, base, quote, side, quantity, price, now);
    match created
    case Err(e) =>
      r := Err(e);
      halt := None;
      rounds := [];
    case Ok(s1) =>
      PlacedFacts(st, id, user, base, quote, side, quantity, price, now, s1);
      var s2, h, rs := MatchOrders(s1, base, quote);
      rounds := rs;
      assert SameTerms(s2.orders[id], s1.orders[id]);
      r := Ok(s2);
      halt := Some(h);
  }

  /** What the placed order brings to the matching that follows it. */
  lemma PlacedFacts(st: Ledger, id: OrderId, user: UserId, base: CurrencyId, quote: CurrencyId,
                    side: Side, quantity: real, price: real, now: nat, s1: Ledger)
    requires id !in st.orders
    requires CreateOrder(st, id, user, base, quote, side, quantity, price, now) == Ok(s1)
    ensures id in s1.orders && s1.orders[id] == NewOrder(user, base, quote, side, quantity, price, now)
    ensures Valid(st) && quantity > 0.0 && price > 0.0 ==> Valid(s1)
    ensures Valid(st) && Covered(st) && quantity > 0.0 && price > 0.0 ==> Covered(s1)
    ensures Uncrossed(st.orders, base, quote) ==> CrossingOnlyWith(s1.orders, base, quote, id)
  {
    if Valid(st) && quantity > 0.0 && price > 0.0 {
      CreateOrderKeepsValid(st, id, user, base, quote, side, quantity, price, now);
      if Covered(st) {
        CreateOrderKeepsCovered(st, id, user, base, quote, side, quantity, price, now);
      }
    }
    if Uncrossed(st.orders, base, quote) {
      AddOrderCrossingOnlyWith(st.orders, base, quote, id, NewOrder(user, base, quote, side, quantity, price, now));
    }
  }

  /**
   * Placement plus matching conserves every currency's total balance when
   * all pair participants, the new order's owner included, hold both wallets.
   */
  lemma PlaceConservesTotals(st: Ledger, s1: Ledger, s2: Ledger, id: OrderId, user: UserId, base: CurrencyId, quote: CurrencyId,
                             side: Side, quantity: real, price: real, now: nat, c: CurrencyId)
    requires id !in st.orders
    requires CreateOrder(st, id, user, base, quote, side, quantity, price, now) == Ok(s1)
    requires Evolved(s1, s2, base, quote)
    requires PairWalletsExist(s1, base, quote)
    ensures Total(s2.wallets, c) == Total(st.wallets, c)
  {
    CreateOrderKeepsTotals(st, id, user, base, quote, side, quantity, price, now, c);
  }
}
