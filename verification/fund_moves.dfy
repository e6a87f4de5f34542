/**
 * The model-level effects of deposits, withdrawals and transfers
 * (models/Deposit.js `confirm`, models/Withdrawal.js `complete`,
 * models/Transfer.js `complete`). None of these checks the status; the
 * wallet controller does that before calling them.
 */
module FundMoves {
  import opened Base
  import opened Wallets
  import opened LedgerState
  import opened Totals

  /**
   * Marks the deposit confirmed, credits the depositor's wallet in that
   * currency if it exists, and appends one completed deposit record.
   */
  function ConfirmDepositEffect(st: Ledger, id: DepositId): (r: Ledger)
    requires id in st.deposits
    ensures var d := st.deposits[id];
      && r.deposits == st.deposits[id := d.(status := MoveConfirmed)]
      && r.history == st.history + [TxRecord(d.user, d.currency, DepositTx, d.amount, true)]
    ensures var k := WalletKey(st.deposits[id].user, st.deposits[id].currency);
      && r.wallets.Keys == st.wallets.Keys
      && (k in st.wallets ==> r.wallets[k].balance == st.wallets[k].balance + st.deposits[id].amount
                              && r.wallets[k].locked == st.wallets[k].locked)
      && (forall j :: j in st.wallets && j != k ==> r.wallets[j] == st.wallets[j])
    ensures r.users == st.users && r.currencies == st.currencies && r.orders == st.orders
         && r.trades == st.trades && r.withdrawals == st.withdrawals && r.transfers == st.transfers
  {
    var d := st.deposits[id];
    st.(deposits := st.deposits[id := d.(status := MoveConfirmed)],
        wallets := CreditWallet(st.wallets, WalletKey(d.user, d.currency), d.amount),
        history := st.history + [TxRecord(d.user, d.currency, DepositTx, d.amount, true)])
  }

  /**
   * Marks the withdrawal completed and appends one completed withdrawal
   * record. The funds already left the wallet when it was requested.
   */
  function CompleteWithdrawalEffect(st: Ledger, id: WithdrawalId): (r: Ledger)
    requires id in st.withdrawals
    ensures id in r.withdrawals
    ensures var w := st.withdrawals[id];
      && r.withdrawals[id] == w.(status := MoveCompleted)
      && r.history == st.history + [TxRecord(w.user, w.currency, WithdrawalTx, w.amount, true)]
    ensures forall j :: j in st.withdrawals && j != id ==> j in r.withdrawals && r.withdrawals[j] == st.withdrawals[j]
    ensures r.withdrawals.Keys == st.withdrawals.Keys
    ensures r.wallets == st.wallets
    ensures r.users == st.users && r.currencies == st.currencies && r.orders == st.orders
         && r.trades == st.trades && r.deposits == st.deposits && r.transfers == st.transfers
  {
    var w := st.withdrawals[id];
    st.(withdrawals := st.withdrawals[id := w.(status := MoveCompleted)],
        history := st.history + [TxRecord(w.user, w.currency, WithdrawalTx, w.amount, true)])
  }

  /**
   * Completes a transfer as one atomic step: status completed, the sender's
   * wallet debited and the receiver's credited. A missing wallet skips its
   * leg; a sender balance below the amount fails the whole step.
   */
  function CompleteTransferEffect(st: Ledger, id: TransferId): (r: Result<Ledger>)
    requires id in st.transfers
    ensures var t := st.transfers[id];
      r.Err? <==> (WalletKey(t.from, t.currency) in st.wallets && st.wallets[WalletKey(t.from, t.currency)].balance < t.amount)
    ensures r.Err? ==> r.error == InsufficientBalance
    ensures r.Ok? ==> r.value.transfers == st.transfers[id := st.transfers[id].(status := MoveCompleted)]
    ensures r.Ok? ==> r.value.wallets.Keys == st.wallets.Keys
    ensures r.Ok? ==> forall k :: k in st.wallets ==> r.value.wallets[k].locked == st.wallets[k].locked
    ensures r.Ok? ==> r.value == st.(transfers := r.value.transfers, wallets := r.value.wallets)
  {
    var t := st.transfers[id];
    var ws :- DebitWallet(st.wallets, WalletKey(t.from, t.currency), t.amount);
    Ok(st.(transfers := st.transfers[id := t.(status := MoveCompleted)],
           wallets := CreditWallet(ws, WalletKey(t.to, t.currency), t.amount)))
  }

  /** Between two existing wallets a transfer moves the amount from one balance to the other. */
  lemma TransferMovesAmount(st: Ledger, id: TransferId)
    requires id in st.transfers
    requires CompleteTransferEffect(st, id).Ok?
    requires var t := st.transfers[id]; t.from != t.to
    ensures var t := st.transfers[id];
      var from := WalletKey(t.from, t.currency);
      var to := WalletKey(t.to, t.currency);
      var ws := CompleteTransferEffect(st, id).value.wallets;
      && (from in st.wallets ==> ws[from].balance == st.wallets[from].balance - t.amount)
      && (to in st.wallets ==> ws[to].balance == st.wallets[to].balance + t.amount)
      && (forall k :: k in st.wallets && k != from && k != to ==> ws[k] == st.wallets[k])
  {
  }

  /**
   * With both wallets present a completed transfer conserves every
   * currency's total; with only one present the total moves by that leg.
   */
  lemma TransferConservesTotals(st: Ledger, id: TransferId, c: CurrencyId)
    requires id in st.transfers
    requires CompleteTransferEffect(st, id).Ok?
    ensures var t := st.transfers[id];
      var from := WalletKey(t.from, t.currency);
      var to := WalletKey(t.to, t.currency);
      Total(CompleteTransferEffect(st, id).value.wallets, c)
        == Total(st.wallets, c)
           - (if from in st.wallets && t.currency == c then t.amount else 0.0)
           + (if to in st.wallets && t.currency == c then t.amount else 0.0)
  {
    var t := st.transfers[id];
    var from := WalletKey(t.from, t.currency);
    var to := WalletKey(t.to, t.currency);
    var ws := DebitWallet(st.wallets, from, t.amount).value;
    TotalAfterDebit(st.wallets, from, t.amount, c);
    TotalAfterCredit(ws, to, t.amount, c);
  }
}
