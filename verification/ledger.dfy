/**
 * The exchange's persistent state as one immutable value: users, currencies,
 * wallets keyed by (user, currency), orders, trades, deposits, withdrawals,
 * transfers and the append-only transaction history.
 */
module LedgerState {
  import opened Base
  import opened Wallets
  import opened Orders
  import opened Users

  /** Reference data; only the active flag matters to the ledger. */
  datatype Currency = Currency(isActive: bool)

  /** The immutable record of one match. */
  datatype Trade = Trade(
    buyOrder: OrderId,
    sellOrder: OrderId,
    buyer: UserId,
    seller: UserId,
    base: CurrencyId,
    quote: CurrencyId,
    quantity: real,
    price: real)

  /** Deposits go pending to confirmed; withdrawals and transfers pending to completed. */
  datatype MoveStatus = MovePending | MoveConfirmed | MoveCompleted

  datatype Deposit = Deposit(user: UserId, currency: CurrencyId, amount: real, status: MoveStatus)

  datatype Withdrawal = Withdrawal(user: UserId, currency: CurrencyId, amount: real, status: MoveStatus)

  datatype Transfer = Transfer(from: UserId, to: UserId, currency: CurrencyId, amount: real, status: MoveStatus)

  datatype TxKind = DepositTx | WithdrawalTx

  /** One transaction-history entry; every entry the core writes is stored as completed. */
  datatype TxRecord = TxRecord(user: UserId, currency: CurrencyId, kind: TxKind, amount: real, completed: bool)

  datatype Ledger = Ledger(
    users: map<UserId, User>,
    currencies: map<CurrencyId, Currency>,
    wallets: map<WalletKey, Wallet>,
    orders: map<OrderId, Order>,
    trades: seq<Trade>,
    deposits: map<DepositId, Deposit>,
    withdrawals: map<WithdrawalId, Withdrawal>,
    transfers: map<TransferId, Transfer>,
    history: seq<TxRecord>)

  /** The user's wallet in `currency`, if it exists. */
  function WalletOf(st: Ledger, user: UserId, currency: CurrencyId): Option<Wallet> {
    var k := WalletKey(user, currency);
    if k in st.wallets then Some(st.wallets[k]) else None
  }

  /** Available balance of a user in a currency; zero without a wallet. */
  function AvailableBalance(st: Ledger, user: UserId, currency: CurrencyId): real {
    match WalletOf(st, user, currency)
    case None => 0.0
    case Some(w) => Available(w)
  }

  /**
   * A user's available balance is zero without a wallet in the currency and
   * never negative on bounded wallets.
   */
  lemma AvailableBalanceBounds(st: Ledger, user: UserId, currency: CurrencyId)
    ensures WalletKey(user, currency) !in st.wallets ==> AvailableBalance(st, user, currency) == 0.0
    ensures WalletKey(user, currency) in st.wallets && WalletsBounded(st.wallets)
            ==> 0.0 <= AvailableBalance(st, user, currency) <= st.wallets[WalletKey(user, currency)].balance
  {
  }

  /** The wallet map seen as one user's list of rows (in any order). */
  ghost predicate RowsOf(st: Ledger, user: UserId, rows: seq<WalletRow>) {
    && (forall i, j :: 0 <= i < j < |rows| ==> rows[i].currency != rows[j].currency)
    && (forall i :: 0 <= i < |rows| ==>
          (WalletKey(user, rows[i].currency) in st.wallets
           && st.wallets[WalletKey(user, rows[i].currency)] == rows[i].wallet))
    && (forall c :: WalletKey(user, c) in st.wallets ==> exists i :: 0 <= i < |rows| && rows[i].currency == c)
  }

  /** The keyed lookup agrees with the first-match search over the user's rows. */
  lemma AvailableBalanceMatchesRows(st: Ledger, user: UserId, rows: seq<WalletRow>, currency: CurrencyId)
    requires RowsOf(st, user, rows)
    ensures AvailableBalance(st, user, currency) == AvailableIn(rows, currency)
    ensures WalletOf(st, user, currency).None? <==> FindWallet(rows, currency).None?
  {
    if WalletKey(user, currency) in st.wallets {
      var i :| 0 <= i < |rows| && rows[i].currency == currency;
      FindWalletUnique(rows, currency, i);
    }
  }

  // ---- Wallet-store updates. A leg on a missing wallet is skipped. ----

  function CreditWallet(ws: map<WalletKey, Wallet>, k: WalletKey, a: real): (r: map<WalletKey, Wallet>)
    ensures r.Keys == ws.Keys
    ensures k in ws ==> r[k] == Add(ws[k], a)
    ensures forall j :: j in ws && j != k ==> r[j] == ws[j]
  {
    if k in ws then ws[k := Add(ws[k], a)] else ws
  }

  function LockWallet(ws: map<WalletKey, Wallet>, k: WalletKey, a: real): (r: map<WalletKey, Wallet>)
    ensures r.Keys == ws.Keys
    ensures k in ws ==> r[k] == Lock(ws[k], a)
    ensures forall j :: j in ws && j != k ==> r[j] == ws[j]
  {
    if k in ws then ws[k := Lock(ws[k], a)] else ws
  }

  function UnlockWallet(ws: map<WalletKey, Wallet>, k: WalletKey, a: real): (r: map<WalletKey, Wallet>)
    ensures r.Keys == ws.Keys
    ensures k in ws ==> r[k] == Unlock(ws[k], a)
    ensures forall j :: j in ws && j != k ==> r[j] == ws[j]
  {
    if k in ws then ws[k := Unlock(ws[k], a)] else ws
  }

  /** A debit fails only when the wallet exists and holds less than `a`. */
  function DebitWallet(ws: map<WalletKey, Wallet>, k: WalletKey, a: real): (r: Result<map<WalletKey, Wallet>>)
    ensures r.Err? <==> k in ws && ws[k].balance < a
    ensures r.Err? ==> r.error == InsufficientBalance
    ensures r.Ok? ==> r.value.Keys == ws.Keys
    ensures r.Ok? && k in ws ==> r.value[k] == Subtract(ws[k], a).value
    ensures r.Ok? ==> forall j :: j in ws && j != k ==> r.value[j] == ws[j]
  {
    if k !in ws then Ok(ws)
    else match Subtract(ws[k], a)
      case Err(e) => Err(e)
      case Ok(w) => Ok(ws[k := w])
  }

  // ---- Invariants ----

  /** Every wallet satisfies 0 <= locked <= balance. */
  predicate WalletsBounded(ws: map<WalletKey, Wallet>) {
    forall k :: k in ws ==> Bounded(ws[k])
  }

  /**
   * Orders placed with positive quantity and price: prices stay positive,
   * quantities never go negative, and a pending order has something left.
   */
  predicate OrdersWellFormed(orders: map<OrderId, Order>) {
    forall id :: id in orders ==>
      && orders[id].price > 0.0
      && orders[id].quantity >= 0.0
      && (orders[id].status == Pending ==> orders[id].quantity > 0.0)
  }

  /** Recorded deposit amounts are positive, so confirming one cannot break a wallet. */
  predicate DepositsPositive(deposits: map<DepositId, Deposit>) {
    forall id :: id in deposits ==> deposits[id].amount > 0.0
  }

  predicate Valid(st: Ledger) {
    WalletsBounded(st.wallets) && OrdersWellFormed(st.orders) && DepositsPositive(st.deposits)
  }
}
