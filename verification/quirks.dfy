/**
 * Behaviours of the exchange core that are reproduced as written, each
 * stated as a general property: the residual buyer reserve after a
 * price-improved fill, order placement ignoring a currency's active flag,
 * and the settlement leg that is silently skipped for a missing wallet.
 */
module Quirks {
  import opened Base
  import opened Wallets
  import opened Orders
  import opened Users
  import opened LedgerState
  import opened Totals
  import opened OrderLifecycle
  import opened FundMoves
  import opened WalletController
  import opened Matching

  /**
   * A buy whose limit exceeds the sell price is fully filled, but only what
   * it pays (`paid`, its quantity times the sell price) leaves its owner's
   * quote reserve, not all it held (`held`, its quantity times its limit):
   * the reserve keeps the positive difference, and cancelling the filled order
   * cannot release it.
   */
  lemma ResidualBuyerLock(st: Ledger, base: CurrencyId, quote: CurrencyId, bb: OrderId, bs: OrderId,
                          r: Ledger, held: real, paid: real)
    requires bb in st.orders && bs in st.orders && base != quote
    requires st.orders[bb].side == Buy && st.orders[bs].side == Sell
    requires st.orders[bb].quantity > 0.0
    requires st.orders[bb].quantity <= st.orders[bs].quantity
    requires st.orders[bb].price > st.orders[bs].price
    requires held == HeldAmount(st.orders[bb]) && paid == st.orders[bb].quantity * st.orders[bs].price
    requires WalletKey(st.orders[bb].user, quote) in st.wallets
    requires st.wallets[WalletKey(st.orders[bb].user, quote)].locked >= held
    requires Settle(st, base, quote, bb, bs) == Ok(r)
    ensures r.orders[bb].status == Filled
    ensures Residual(st.wallets, r.wallets, WalletKey(st.orders[bb].user, quote), held) == held - paid
    ensures held - paid > 0.0
  {
    var b := st.orders[bb];
    var s := st.orders[bs];
    assert Min(b.quantity, s.quantity) == b.quantity;
    SettleUsesWallets(st, base, quote, bb, bs, b.quantity);
    FullBuyResidual(st, base, quote, bb, bs, r.wallets, held, paid);
  }

  /** The wallet side of a full buy fill at a price below its limit. */
  lemma FullBuyResidual(st: Ledger, base: CurrencyId, quote: CurrencyId, bb: OrderId, bs: OrderId,
                        ws: map<WalletKey, Wallet>, held: real, paid: real)
    requires bb in st.orders && bs in st.orders && base != quote
    requires st.orders[bb].side == Buy && st.orders[bb].quantity > 0.0
    requires st.orders[bb].price > st.orders[bs].price
    requires held == HeldAmount(st.orders[bb]) && paid == st.orders[bb].quantity * st.orders[bs].price
    requires WalletKey(st.orders[bb].user, quote) in st.wallets
    requires st.wallets[WalletKey(st.orders[bb].user, quote)].locked >= held
    requires SettleWallets(st.wallets, st.orders[bb].user, st.orders[bs].user, base, quote,
                           st.orders[bb].quantity, st.orders[bs].price) == Ok(ws)
    ensures Residual(st.wallets, ws, WalletKey(st.orders[bb].user, quote), held) == held - paid
    ensures held - paid > 0.0
  {
    var b := st.orders[bb];
    var s := st.orders[bs];
    PaysLessThanHeld(b, s.price);
    ReserveAfterPayment(st.wallets, b.user, s.user, base, quote, b.quantity, s.price, held, paid);
  }

  /** Paying a buy's quantity at a price below its limit costs less than the buy holds. */
  lemma PaysLessThanHeld(b: Order, ps: real)
    requires b.side == Buy && b.quantity > 0.0 && b.price > ps
    ensures b.quantity * ps < HeldAmount(b)
  {
    assert HeldAmount(b) == b.quantity * b.price;
  }

  /**
   * What stays locked on `k` after a step, beyond what `k` reserved before
   * the step for everything except `held`.
   */
  function Residual(before: map<WalletKey, Wallet>, after: map<WalletKey, Wallet>, k: WalletKey, held: real): real
    requires k in before && k in after
  {
    after[k].locked - (before[k].locked - held)
  }

  /**
   * Settling a buy that pays `pay` = q*p out of a reserve holding at least
   * `held` >= `pay` for it leaves exactly `held - pay` of that hold locked.
   */
  lemma ReserveAfterPayment(ws: map<WalletKey, Wallet>, buyer: UserId, seller: UserId,
                            base: CurrencyId, quote: CurrencyId, q: real, p: real, held: real, pay: real)
    requires base != quote && WalletKey(buyer, quote) in ws
    requires pay == q * p && pay <= held && ws[WalletKey(buyer, quote)].locked >= held
    requires SettleWallets(ws, buyer, seller, base, quote, q, p).Ok?
    ensures Residual(ws, SettleWallets(ws, buyer, seller, base, quote, q, p).value, WalletKey(buyer, quote), held)
         == held - pay
  {
    BuyerQuoteReserve(ws, buyer, seller, base, quote, q, p, pay);
  }

  /** Settlement takes exactly the payment `pay` = q*p off the buyer's quote reserve, clamped at zero. */
  lemma BuyerQuoteReserve(ws: map<WalletKey, Wallet>, buyer: UserId, seller: UserId,
                          base: CurrencyId, quote: CurrencyId, q: real, p: real, pay: real)
    requires base != quote && WalletKey(buyer, quote) in ws && pay == q * p
    requires SettleWallets(ws, buyer, seller, base, quote, q, p).Ok?
    ensures SettleWallets(ws, buyer, seller, base, quote, q, p).value[WalletKey(buyer, quote)].locked
         == Max(0.0, ws[WalletKey(buyer, quote)].locked - pay)
  {
    var k := WalletKey(buyer, quote);
    var w1 := CreditWallet(ws, WalletKey(buyer, base), q);
    var w2 := UnlockWallet(w1, k, pay);
    var w3 := DebitWallet(w2, k, pay).value;
    var w4 := UnlockWallet(w3, WalletKey(seller, base), q);
    var w5 := DebitWallet(w4, WalletKey(seller, base), q).value;
    assert w5[k].locked == w2[k].locked;
  }

  /**
   * Placement checks only that the two currencies exist: switching their
   * active flags on or off changes nothing about its outcome.
   */
  lemma OrdersIgnoreCurrencyActivity(st: Ledger, flags: map<CurrencyId, Currency>, id: OrderId, user: UserId,
                                     base: CurrencyId, quote: CurrencyId, side: Side, quantity: real, price: real, now: nat)
    requires id !in st.orders
    requires flags.Keys == st.currencies.Keys
    ensures var r := CreateOrder(st, id, user, base, quote, side, quantity, price, now);
      var r' := CreateOrder(st.(currencies := flags), id, user, base, quote, side, quantity, price, now);
      && (r.Ok? <==> r'.Ok?)
      && (r.Err? ==> r' == Err(r.error))
      && (r.Ok? ==> r'.value == r.value.(currencies := flags))
  {
  }

  /**
   * The same inactive currency that deposits reject is accepted by order
   * placement, given the funds.
   */
  lemma InactiveCurrencyAcceptedByOrders(st: Ledger, dId: DepositId, oId: OrderId, user: UserId,
                                         base: CurrencyId, quote: CurrencyId, side: Side, quantity: real, price: real, now: nat)
    requires dId !in st.deposits && oId !in st.orders
    requires user in st.users && CanTrade(st.users[user])
    requires base in st.currencies && quote in st.currencies && !st.currencies[base].isActive
    requires var o := NewOrder(user, base, quote, side, quantity, price, now);
      AvailableBalance(st, user, HoldKey(o).currency) >= HeldAmount(o)
    ensures CreateDeposit(st, dId, user, base, quantity) == Err(InvalidCurrency)
    ensures CreateOrder(st, oId, user, base, quote, side, quantity, price, now).Ok?
  {
  }

  /**
   * With the buyer's base wallet missing and the other three present, a
   * settled match debits the seller's base but credits nobody: the base
   * currency's total falls by the traded quantity while the quote total is
   * unchanged.
   */
  lemma MissingBuyerWalletDropsBase(st: Ledger, base: CurrencyId, quote: CurrencyId, bb: OrderId, bs: OrderId)
    requires RoundPre(st, base, quote, bb, bs) && OrdersWellFormed(st.orders)
    requires base != quote
    requires var b := st.orders[bb]; var s := st.orders[bs];
      && WalletKey(b.user, base) !in st.wallets
      && WalletKey(b.user, quote) in st.wallets
      && WalletKey(s.user, base) in st.wallets
      && WalletKey(s.user, quote) in st.wallets
    requires Settle(st, base, quote, bb, bs).Ok?
    ensures var r := Settle(st, base, quote, bb, bs).value;
      var q := r.trades[|r.trades| - 1].quantity;
      && q > 0.0
      && Total(r.wallets, base) == Total(st.wallets, base) - q
      && Total(r.wallets, quote) == Total(st.wallets, quote)
  {
    var b := st.orders[bb];
    var s := st.orders[bs];
    var q := Min(b.quantity, s.quantity);
    assert bb in PendingOrders(st.orders, base, quote, Some(Buy));
    assert bs in PendingOrders(st.orders, base, quote, Some(Sell));
    SettleWalletsTotals(st.wallets, b.user, s.user, base, quote, q, s.price, base);
    SettleWalletsTotals(st.wallets, b.user, s.user, base, quote, q, s.price, quote);
  }

  /**
   * A transfer to a recipient without a wallet in the currency completes
   * and debits the sender, and the amount leaves the ledger.
   */
  lemma TransferToMissingWalletLosesAmount(st: Ledger, id: TransferId, from: UserId, to: UserId,
                                           currency: CurrencyId, amount: real)
    requires id !in st.transfers
    requires WalletKey(from, currency) in st.wallets && WalletKey(to, currency) !in st.wallets
    requires CreateTransfer(st, id, from, to, currency, amount).Ok?
    ensures Total(CreateTransfer(st, id, from, to, currency, amount).value.wallets, currency)
         == Total(st.wallets, currency) - amount
  {
    var created := st.(transfers := st.transfers[id := Transfer(from, to, currency, amount, MovePending)]);
    TransferConservesTotals(created, id, currency);
  }

  /**
   * Trading eligibility gates order placement and withdrawals but not
   * transfers: a user who may not trade is refused with `Unauthorized` by
   * the first two, and nothing else makes them answer so, while a
   * transfer's outcome does not depend on the sender's eligibility at all.
   */
  lemma CanTradeGates(st: Ledger, oId: OrderId, wId: WithdrawalId, tId: TransferId, user: UserId, other: User,
                      to: UserId, base: CurrencyId, quote: CurrencyId, side: Side, quantity: real, price: real, now: nat,
                      currency: CurrencyId, amount: real)
    requires oId !in st.orders && wId !in st.withdrawals && tId !in st.transfers
    requires user in st.users
    ensures CreateOrder(st, oId, user, base, quote, side, quantity, price, now) == Err(Unauthorized)
            <==> !CanTrade(st.users[user])
    ensures CreateWithdrawal(st, wId, user, currency, amount) == Err(Unauthorized) <==> !CanTrade(st.users[user])
    ensures var r := CreateTransfer(st, tId, user, to, currency, amount);
      var r' := CreateTransfer(st.(users := st.users[user := other]), tId, user, to, currency, amount);
      && (r.Ok? <==> r'.Ok?)
      && (r.Err? ==> r' == Err(r.error))
  {
  }
}
