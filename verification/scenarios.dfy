/**
 * Concrete runs of the core on a two-user, two-currency ledger: user 1 and
 * user 2, currency 1 standing for BTC (base) and currency 2 for USDT (quote).
 */
module Scenarios {
  import opened Base
  import opened Wallets
  import opened Orders
  import opened Users
  import opened LedgerState
  import opened OrderLifecycle
  import opened WalletController
  import opened Matching

  const Alice: UserId := 1
  const Bob: UserId := 2
  const Btc: CurrencyId := 1
  const Usdt: CurrencyId := 2

  /** Alice holds 1 BTC; Bob holds 20000 USDT (100 when `lean`); both may trade. */
  function Start(btcActive: bool, lean: bool): Ledger {
    Ledger(
      map[Alice := User("verified", true), Bob := User("verified", true)],
      map[Btc := Currency(btcActive), Usdt := Currency(true)],
      map[WalletKey(Alice, Btc) := Wallet(1.0, 0.0), WalletKey(Alice, Usdt) := Wallet(0.0, 0.0),
          WalletKey(Bob, Btc) := Wallet(0.0, 0.0), WalletKey(Bob, Usdt) := Wallet(if lean then 100.0 else 20000.0, 0.0)],
      map[], [], map[], map[], map[], [])
  }

  /** The ledger after Alice's sell of 0.5 BTC at 25000. */
  function AfterSell(): Ledger {
    var st := Start(true, false);
    st.(orders := map[1 := Order(Alice, Btc, Usdt, Sell, Pending, 0.5, 25000.0, 0)],
        wallets := st.wallets[WalletKey(Alice, Btc) := Wallet(1.0, 0.5)])
  }

  /** The ledger after Bob's buy of 0.5 BTC at 25000. */
  function AfterBuy(): Ledger {
    var st := AfterSell();
    st.(orders := st.orders[2 := Order(Bob, Btc, Usdt, Buy, Pending, 0.5, 25000.0, 1)],
        wallets := st.wallets[WalletKey(Bob, Usdt) := Wallet(20000.0, 12500.0)])
  }

  /** Alice sells 0.5 BTC at 25000: half her BTC is locked, half stays available. */
  lemma AliceSells()
    ensures CreateOrder(Start(true, false), 1, Alice, Btc, Usdt, Sell, 0.5, 25000.0, 0) == Ok(AfterSell())
    ensures AfterSell().wallets[WalletKey(Alice, Btc)] == Wallet(1.0, 0.5)
    ensures AvailableBalance(AfterSell(), Alice, Btc) == 0.5
  {
  }

  /** Bob buys 0.5 BTC at 25000: 12500 of his 20000 USDT is locked. */
  lemma BobBuys()
    ensures CreateOrder(AfterSell(), 2, Bob, Btc, Usdt, Buy, 0.5, 25000.0, 1) == Ok(AfterBuy())
  {
    assert HeldAmount(NewOrder(Bob, Btc, Usdt, Buy, 0.5, 25000.0, 1)) == 12500.0;
    assert AvailableBalance(AfterSell(), Bob, Usdt) == 20000.0;
    assert LockWallet(AfterSell().wallets, WalletKey(Bob, Usdt), 12500.0) == AfterBuy().wallets;
    assert AfterSell().orders[2 := NewOrder(Bob, Btc, Usdt, Buy, 0.5, 25000.0, 1)] == AfterBuy().orders;
  }

  /** Bob's buy and Alice's sell are both pending on the pair, and they cross. */
  lemma BuyCrossesSell()
    ensures 2 in PendingOrders(AfterBuy().orders, Btc, Usdt, Some(Buy))
    ensures 1 in PendingOrders(AfterBuy().orders, Btc, Usdt, Some(Sell))
    ensures AfterBuy().orders[2].price >= AfterBuy().orders[1].price
  {
  }

  /**
   * The four legs of a 0.5 BTC trade at 25000 between Bob (buyer) and Alice
   * (seller): Alice ends with 0.5 BTC and 12500 USDT, Bob with 0.5 BTC and
   * 7500 USDT, and nothing stays locked.
   */
  lemma CrossingPairWallets()
    ensures var r := SettleWallets(AfterBuy().wallets, Bob, Alice, Btc, Usdt, 0.5, 25000.0);
      && r.Ok?
      && r.value[WalletKey(Alice, Btc)] == Wallet(0.5, 0.0)
      && r.value[WalletKey(Alice, Usdt)] == Wallet(12500.0, 0.0)
      && r.value[WalletKey(Bob, Btc)] == Wallet(0.5, 0.0)
      && r.value[WalletKey(Bob, Usdt)] == Wallet(7500.0, 0.0)
  {
    var ws := AfterBuy().wallets;
    assert ws[WalletKey(Alice, Btc)] == Wallet(1.0, 0.5);
    assert ws[WalletKey(Alice, Usdt)] == Wallet(0.0, 0.0);
    assert ws[WalletKey(Bob, Btc)] == Wallet(0.0, 0.0);
    assert ws[WalletKey(Bob, Usdt)] == Wallet(20000.0, 12500.0);
    assert 0.5 * 25000.0 == 12500.0;
    SettleWalletsFailure(ws, Bob, Alice, Btc, Usdt, 0.5, 25000.0);
    SettleWalletsLegs(ws, Bob, Alice, Btc, Usdt, 0.5, 25000.0);
  }

  /**
   * Settling the crossing pair records one trade of 0.5 at 25000, fills both
   * orders and moves the funds as above.
   */
  lemma CrossingPairSettles()
    ensures var r := Settle(AfterBuy(), Btc, Usdt, 2, 1);
      && r.Ok?
      && r.value.trades == [Trade(2, 1, Bob, Alice, Btc, Usdt, 0.5, 25000.0)]
      && r.value.orders[1].status == Filled && r.value.orders[2].status == Filled
      && r.value.wallets == SettleWallets(AfterBuy().wallets, Bob, Alice, Btc, Usdt, 0.5, 25000.0).value
  {
    var st := AfterBuy();
    var b := st.orders[2];
    var s := st.orders[1];
    assert b.user == Bob && b.quantity == 0.5 && s.user == Alice && s.quantity == 0.5 && s.price == 25000.0;
    assert Min(b.quantity, s.quantity) == 0.5;
    var t := Trade(2, 1, Bob, Alice, Btc, Usdt, 0.5, 25000.0);
    assert st.trades + [t] == [t];
    CrossingPairWallets();
  }

  /** Once Alice's sell is filled, cancelling it is refused. */
  lemma FilledSellCannotBeCancelled()
    ensures var r := Settle(AfterBuy(), Btc, Usdt, 2, 1);
      r.Ok? && CancelOrder(r.value, 1, Alice) == Err(InvalidState)
  {
    CrossingPairSettles();
  }

  /** A transfer of 150 USDT from a user with 100 available is rejected, changing nothing. */
  lemma TransferBeyondAvailable()
    ensures CreateTransfer(Start(true, true), 1, Bob, Alice, Usdt, 150.0) == Err(InsufficientBalance)
    ensures CreateTransfer(Start(true, true), 1, Bob, Alice, Usdt, 100.0).Ok?
  {
  }

  /** Bob's buy of 0.5 BTC at 26000, placed on a fresh ledger. */
  function ImprovedBuyOnly(): Ledger {
    var st := Start(true, false);
    st.(orders := map[1 := Order(Bob, Btc, Usdt, Buy, Pending, 0.5, 26000.0, 0)],
        wallets := st.wallets[WalletKey(Bob, Usdt) := Wallet(20000.0, 13000.0)])
  }

  /** Placing the buy at 26000 holds 13000 USDT. */
  lemma ImprovedBuyPlaced()
    ensures CreateOrder(Start(true, false), 1, Bob, Btc, Usdt, Buy, 0.5, 26000.0, 0) == Ok(ImprovedBuyOnly())
  {
    assert HeldAmount(NewOrder(Bob, Btc, Usdt, Buy, 0.5, 26000.0, 0)) == 13000.0;
    assert AvailableBalance(Start(true, false), Bob, Usdt) == 20000.0;
    assert LockWallet(Start(true, false).wallets, WalletKey(Bob, Usdt), 13000.0) == ImprovedBuyOnly().wallets;
    assert Start(true, false).orders[1 := NewOrder(Bob, Btc, Usdt, Buy, 0.5, 26000.0, 0)] == ImprovedBuyOnly().orders;
  }

  /** Bob's buy at 26000 followed by Alice's sell of 0.5 BTC at 25000. */
  function ImprovedBook(): Ledger {
    var st := ImprovedBuyOnly();
    st.(orders := st.orders[2 := Order(Alice, Btc, Usdt, Sell, Pending, 0.5, 25000.0, 1)],
        wallets := st.wallets[WalletKey(Alice, Btc) := Wallet(1.0, 0.5)])
  }

  /** Placing the sell at 25000 next holds 0.5 BTC. */
  lemma ImprovedSellPlaced()
    ensures CreateOrder(ImprovedBuyOnly(), 2, Alice, Btc, Usdt, Sell, 0.5, 25000.0, 1) == Ok(ImprovedBook())
  {
    assert HeldAmount(NewOrder(Alice, Btc, Usdt, Sell, 0.5, 25000.0, 1)) == 0.5;
    assert AvailableBalance(ImprovedBuyOnly(), Alice, Btc) == 1.0;
    assert LockWallet(ImprovedBuyOnly().wallets, WalletKey(Alice, Btc), 0.5) == ImprovedBook().wallets;
    assert ImprovedBuyOnly().orders[2 := NewOrder(Alice, Btc, Usdt, Sell, 0.5, 25000.0, 1)] == ImprovedBook().orders;
  }

  /**
   * The trade goes off at the sell price 25000, so only 12500 of the 13000
   * USDT Bob's buy held is released: 500 stays locked.
   */
  lemma ImprovedTradeWallets()
    ensures var r := SettleWallets(ImprovedBook().wallets, Bob, Alice, Btc, Usdt, 0.5, 25000.0);
      r.Ok? && r.value[WalletKey(Bob, Usdt)] == Wallet(7500.0, 500.0)
  {
    var ws := ImprovedBook().wallets;
    var w1 := CreditWallet(ws, WalletKey(Bob, Btc), 0.5);
    var w2 := UnlockWallet(w1, WalletKey(Bob, Usdt), 0.5 * 25000.0);
    assert w2[WalletKey(Bob, Usdt)] == Wallet(20000.0, 500.0);
    var w3 := DebitWallet(w2, WalletKey(Bob, Usdt), 0.5 * 25000.0).value;
    assert w3[WalletKey(Bob, Usdt)] == Wallet(7500.0, 500.0);
    var w4 := UnlockWallet(w3, WalletKey(Alice, Btc), 0.5);
    var w5 := DebitWallet(w4, WalletKey(Alice, Btc), 0.5).value;
    assert w5[WalletKey(Bob, Usdt)] == Wallet(7500.0, 500.0);
  }

  /**
   * Settling fills Bob's buy, yet 500 USDT stays locked in his wallet, and
   * cancelling the filled order cannot release it.
   */
  lemma PriceImprovedBuyKeepsResidualLock()
    ensures var r := Settle(ImprovedBook(), Btc, Usdt, 1, 2);
      && r.Ok?
      && r.value.orders[1].status == Filled
      && r.value.wallets[WalletKey(Bob, Usdt)] == Wallet(7500.0, 500.0)
      && CancelOrder(r.value, 1, Bob) == Err(InvalidState)
  {
    ImprovedTradeWallets();
  }

  /** With BTC deactivated, a BTC deposit is refused but a BTC sell order is placed. */
  lemma InactiveBaseStillTrades()
    ensures CreateDeposit(Start(false, false), 1, Alice, Btc, 1.0) == Err(InvalidCurrency)
    ensures CreateWithdrawal(Start(false, false), 1, Alice, Btc, 0.5) == Err(InvalidCurrency)
    ensures CreateOrder(Start(false, false), 1, Alice, Btc, Usdt, Sell, 0.5, 25000.0, 0).Ok?
  {
  }
}
