/**
 * Deposit, withdrawal and transfer requests and their confirmation
 * (controllers/WalletController.js). Each request validates in the
 * controller's order and either returns the new ledger or an error with
 * nothing changed.
 */
module WalletController {
  import opened Base
  import opened Wallets
  import opened Users
  import opened LedgerState
  import opened Totals
  import opened FundMoves

  predicate ActiveCurrency(st: Ledger, c: CurrencyId) {
    c in st.currencies && st.currencies[c].isActive
  }

  /** Records a pending deposit; no wallet changes until it is confirmed. */
  function CreateDeposit(st: Ledger, id: DepositId, user: UserId, currency: CurrencyId, amount: real): (r: Result<Ledger>)
    requires id !in st.deposits
    ensures user !in st.users ==> r == Err(NotFound)
    ensures user in st.users && !ActiveCurrency(st, currency) ==> r == Err(InvalidCurrency)
    ensures r.Ok? <==> user in st.users && ActiveCurrency(st, currency)
    ensures r.Ok? ==> r.value == st.(deposits := st.deposits[id := Deposit(user, currency, amount, MovePending)])
  {
    if user !in st.users then Err(NotFound)
    else if !ActiveCurrency(st, currency) then Err(InvalidCurrency)
    else Ok(st.(deposits := st.deposits[id := Deposit(user, currency, amount, MovePending)]))
  }

  /**
   * Records a pending withdrawal and debits the balance (not the reserve)
   * straight away. Rejections, in order: unknown user, user not allowed to
   * trade, missing or inactive currency, available balance below the amount.
   */
  function CreateWithdrawal(st: Ledger, id: WithdrawalId, user: UserId, currency: CurrencyId, amount: real): (r: Result<Ledger>)
    requires id !in st.withdrawals
    ensures user !in st.users ==> r == Err(NotFound)
    ensures user in st.users && !CanTrade(st.users[user]) ==> r == Err(Unauthorized)
    ensures user in st.users && CanTrade(st.users[user]) && !ActiveCurrency(st, currency) ==> r == Err(InvalidCurrency)
    ensures (user in st.users && CanTrade(st.users[user]) && ActiveCurrency(st, currency)
             && AvailableBalance(st, user, currency) < amount) ==> r == Err(InsufficientBalance)
    ensures r.Ok? ==> user in st.users && CanTrade(st.users[user]) && ActiveCurrency(st, currency)
                      && AvailableBalance(st, user, currency) >= amount
    ensures r.Ok? ==> r.value.withdrawals == st.withdrawals[id := Withdrawal(user, currency, amount, MovePending)]
    ensures r.Ok? ==> var k := WalletKey(user, currency);
      && r.value.wallets.Keys == st.wallets.Keys
      && (k in st.wallets ==> r.value.wallets[k] == Wallet(st.wallets[k].balance - amount, st.wallets[k].locked))
      && (forall j :: j in st.wallets && j != k ==> r.value.wallets[j] == st.wallets[j])
    ensures r.Ok? ==> r.value == st.(withdrawals := r.value.withdrawals, wallets := r.value.wallets)
  {
    if user !in st.users then Err(NotFound)
    else if !CanTrade(st.users[user]) then Err(Unauthorized)
    else if !ActiveCurrency(st, currency) then Err(InvalidCurrency)
    else if AvailableBalance(st, user, currency) < amount then Err(InsufficientBalance)
    else
      var ws :- DebitWallet(st.wallets, WalletKey(user, currency), amount);
      Ok(st.(withdrawals := st.withdrawals[id := Withdrawal(user, currency, amount, MovePending)], wallets := ws))
  }

  /**
   * Creates a transfer and completes it at once. Rejections, in order:
   * unknown sender, unknown recipient, transfer to self, missing or inactive
   * currency, sender's available balance below the amount. Trading
   * eligibility is not checked.
   */
  function CreateTransfer(st: Ledger, id: TransferId, from: UserId, to: UserId, currency: CurrencyId, amount: real): (r: Result<Ledger>)
    requires id !in st.transfers
    ensures from !in st.users || to !in st.users ==> r == Err(NotFound)
    ensures from in st.users && to in st.users && from == to ==> r == Err(SelfTransfer)
    ensures from in st.users && to in st.users && from != to && !ActiveCurrency(st, currency) ==> r == Err(InvalidCurrency)
    ensures (from in st.users && to in st.users && from != to && ActiveCurrency(st, currency)
             && AvailableBalance(st, from, currency) < amount) ==> r == Err(InsufficientBalance)
    ensures r.Ok? ==> from in st.users && to in st.users && from != to && ActiveCurrency(st, currency)
                      && AvailableBalance(st, from, currency) >= amount
    ensures r.Ok? ==> id in r.value.transfers && r.value.transfers[id] == Transfer(from, to, currency, amount, MoveCompleted)
    ensures r.Ok? ==> r.value.transfers == st.transfers[id := Transfer(from, to, currency, amount, MoveCompleted)]
    ensures r.Ok? ==> var ks := WalletKey(from, currency); var kr := WalletKey(to, currency);
      && r.value.wallets.Keys == st.wallets.Keys
      && (ks in st.wallets ==> r.value.wallets[ks] == Wallet(st.wallets[ks].balance - amount, st.wallets[ks].locked))
      && (kr in st.wallets ==> r.value.wallets[kr] == Wallet(st.wallets[kr].balance + amount, st.wallets[kr].locked))
      && (forall k :: k in st.wallets && k != ks && k != kr ==> r.value.wallets[k] == st.wallets[k])
    ensures r.Ok? ==> r.value == st.(transfers := r.value.transfers, wallets := r.value.wallets)
  {
    if from !in st.users || to !in st.users then Err(NotFound)
    else if from == to then Err(SelfTransfer)
    else if !ActiveCurrency(st, currency) then Err(InvalidCurrency)
    else if AvailableBalance(st, from, currency) < amount then Err(InsufficientBalance)
    else
      var created := st.(transfers := st.transfers[id := Transfer(from, to, currency, amount, MovePending)]);
      var done := CompleteTransferEffect(created, id);
      if done.Ok? then TransferMovesAmount(created, id); done else done
  }

  /** Confirms a pending deposit; anything else is rejected with no change. */
  function ConfirmDeposit(st: Ledger, id: DepositId): (r: Result<Ledger>)
    ensures id !in st.deposits ==> r == Err(NotFound)
    ensures id in st.deposits && st.deposits[id].status != MovePending ==> r == Err(InvalidState)
    ensures r.Ok? <==> id in st.deposits && st.deposits[id].status == MovePending
    ensures r.Ok? ==> id in r.value.deposits && r.value.deposits[id].status == MoveConfirmed
  {
    if id !in st.deposits then Err(NotFound)
    else if st.deposits[id].status != MovePending then Err(InvalidState)
    else Ok(ConfirmDepositEffect(st, id))
  }

  /** Completes a pending withdrawal; anything else is rejected with no change. */
  function CompleteWithdrawal(st: Ledger, id: WithdrawalId): (r: Result<Ledger>)
    ensures id !in st.withdrawals ==> r == Err(NotFound)
    ensures id in st.withdrawals && st.withdrawals[id].status != MovePending ==> r == Err(InvalidState)
    ensures r.Ok? <==> id in st.withdrawals && st.withdrawals[id].status == MovePending
    ensures r.Ok? ==> id in r.value.withdrawals && r.value.withdrawals[id].status == MoveCompleted
  {
    if id !in st.withdrawals then Err(NotFound)
    else if st.withdrawals[id].status != MovePending then Err(InvalidState)
    else Ok(CompleteWithdrawalEffect(st, id))
  }

  // ---- Properties ----

  /** Confirming twice: the second call is rejected, so the wallet is credited once. */
  lemma ConfirmDepositOneShot(st: Ledger, id: DepositId)
    requires ConfirmDeposit(st, id).Ok?
    ensures ConfirmDeposit(ConfirmDeposit(st, id).value, id) == Err(InvalidState)
  {
  }

  /** Completing twice: the second call is rejected and appends nothing. */
  lemma CompleteWithdrawalOneShot(st: Ledger, id: WithdrawalId)
    requires CompleteWithdrawal(st, id).Ok?
    ensures CompleteWithdrawal(CompleteWithdrawal(st, id).value, id) == Err(InvalidState)
  {
  }

  /** A deposit request followed by its confirmation credits the wallet by the amount and logs it. */
  lemma DepositRoundTrip(st: Ledger, id: DepositId, user: UserId, currency: CurrencyId, amount: real)
    requires id !in st.deposits
    requires CreateDeposit(st, id, user, currency, amount).Ok?
    ensures var s1 := CreateDeposit(st, id, user, currency, amount).value;
      var r := ConfirmDeposit(s1, id);
      var k := WalletKey(user, currency);
      && r.Ok?
      && r.value.deposits[id] == Deposit(user, currency, amount, MoveConfirmed)
      && r.value.history == st.history + [TxRecord(user, currency, DepositTx, amount, true)]
      && (k in st.wallets ==> r.value.wallets[k] == Add(st.wallets[k], amount))
      && (k !in st.wallets ==> r.value.wallets == st.wallets)
  {
  }

  /**
   * A withdrawal request followed by its completion lowers the balance by
   * the amount exactly once and logs one record.
   */
  lemma WithdrawalRoundTrip(st: Ledger, id: WithdrawalId, user: UserId, currency: CurrencyId, amount: real)
    requires id !in st.withdrawals
    requires CreateWithdrawal(st, id, user, currency, amount).Ok?
    ensures var s1 := CreateWithdrawal(st, id, user, currency, amount).value;
      var r := CompleteWithdrawal(s1, id);
      var k := WalletKey(user, currency);
      && r.Ok?
      && r.value.withdrawals[id] == Withdrawal(user, currency, amount, MoveCompleted)
      && r.value.history == st.history + [TxRecord(user, currency, WithdrawalTx, amount, true)]
      && r.value.wallets == s1.wallets
      && (k in st.wallets ==> r.value.wallets[k].balance == st.wallets[k].balance - amount)
  {
  }

  /**
   * On bounded wallets the withdrawal debit cannot fail: the request is
   * accepted exactly when the controller's checks pass, and the wallet
   * invariant still holds afterwards.
   */
  lemma WithdrawalKeepsBounded(st: Ledger, id: WithdrawalId, user: UserId, currency: CurrencyId, amount: real)
    requires id !in st.withdrawals
    requires WalletsBounded(st.wallets)
    ensures var r := CreateWithdrawal(st, id, user, currency, amount);
      && (r.Ok? <==> user in st.users && CanTrade(st.users[user]) && ActiveCurrency(st, currency)
                     && AvailableBalance(st, user, currency) >= amount)
      && (r.Ok? ==> WalletsBounded(r.value.wallets))
  {
    var k := WalletKey(user, currency);
    if k in st.wallets && user in st.users && CanTrade(st.users[user]) && ActiveCurrency(st, currency)
       && AvailableBalance(st, user, currency) >= amount {
      SubtractKeepsBounded(st.wallets[k], amount);
    }
  }

  /**
   * On bounded wallets a positive transfer is accepted exactly when the
   * controller's checks pass, and it keeps every wallet bounded.
   */
  lemma TransferKeepsBounded(st: Ledger, id: TransferId, from: UserId, to: UserId, currency: CurrencyId, amount: real)
    requires id !in st.transfers
    requires WalletsBounded(st.wallets) && amount > 0.0
    ensures var r := CreateTransfer(st, id, from, to, currency, amount);
      && (r.Ok? <==> from in st.users && to in st.users && from != to && ActiveCurrency(st, currency)
                     && AvailableBalance(st, from, currency) >= amount)
      && (r.Ok? ==> WalletsBounded(r.value.wallets))
  {
    var ks := WalletKey(from, currency);
    var kr := WalletKey(to, currency);
    var r := CreateTransfer(st, id, from, to, currency, amount);
    if from in st.users && to in st.users && from != to && ActiveCurrency(st, currency)
       && AvailableBalance(st, from, currency) >= amount {
      var created := st.(transfers := st.transfers[id := Transfer(from, to, currency, amount, MovePending)]);
      if ks in st.wallets {
        SubtractKeepsBounded(st.wallets[ks], amount);
      }
      assert r.Ok?;
      TransferMovesAmount(created, id);
      forall k | k in r.value.wallets
        ensures Bounded(r.value.wallets[k])
      {
        assert k in st.wallets;
      }
    }
  }

  /** A transfer between two existing wallets leaves every currency's total unchanged. */
  lemma TransferConserves(st: Ledger, id: TransferId, from: UserId, to: UserId, currency: CurrencyId, amount: real, c: CurrencyId)
    requires id !in st.transfers
    requires CreateTransfer(st, id, from, to, currency, amount).Ok?
    requires WalletKey(from, currency) in st.wallets && WalletKey(to, currency) in st.wallets
    ensures Total(CreateTransfer(st, id, from, to, currency, amount).value.wallets, c) == Total(st.wallets, c)
  {
    var created := st.(transfers := st.transfers[id := Transfer(from, to, currency, amount, MovePending)]);
    TransferConservesTotals(created, id, c);
  }

  /** Every accepted wallet operation preserves the ledger invariant (positive amounts assumed). */
  lemma WalletOperationsKeepValid(st: Ledger, dId: DepositId, wId: WithdrawalId, tId: TransferId,
                                  user: UserId, to: UserId, currency: CurrencyId, amount: real)
    requires Valid(st) && amount > 0.0
    requires dId !in st.deposits && wId !in st.withdrawals && tId !in st.transfers
    ensures var r := CreateDeposit(st, dId, user, currency, amount); r.Ok? ==> Valid(r.value)
    ensures var r := CreateWithdrawal(st, wId, user, currency, amount); r.Ok? ==> Valid(r.value)
    ensures var r := CreateTransfer(st, tId, user, to, currency, amount); r.Ok? ==> Valid(r.value)
    ensures forall id :: var r := ConfirmDeposit(st, id); r.Ok? ==> Valid(r.value)
    ensures forall id :: var r := CompleteWithdrawal(st, id); r.Ok? ==> Valid(r.value)
  {
    WithdrawalKeepsBounded(st, wId, user, currency, amount);
    TransferKeepsValid(st, tId, user, to, currency, amount);
    forall id | ConfirmDeposit(st, id).Ok?
      ensures Valid(ConfirmDeposit(st, id).value)
    {
      ConfirmKeepsValid(st, id);
    }
  }

  /** An accepted transfer keeps the ledger invariant. */
  lemma TransferKeepsValid(st: Ledger, tId: TransferId, user: UserId, to: UserId, currency: CurrencyId, amount: real)
    requires Valid(st) && amount > 0.0 && tId !in st.transfers
    ensures var r := CreateTransfer(st, tId, user, to, currency, amount); r.Ok? ==> Valid(r.value)
  {
    TransferKeepsBounded(st, tId, user, to, currency, amount);
    var r := CreateTransfer(st, tId, user, to, currency, amount);
    if r.Ok? {
      var created := st.(transfers := st.transfers[tId := Transfer(user, to, currency, amount, MovePending)]);
      assert r == CompleteTransferEffect(created, tId);
    }
  }

  /** Confirming a deposit keeps the ledger invariant. */
  lemma ConfirmKeepsValid(st: Ledger, id: DepositId)
    requires Valid(st) && ConfirmDeposit(st, id).Ok?
    ensures Valid(ConfirmDeposit(st, id).value)
  {
    var s := ConfirmDeposit(st, id).value;
    forall j | j in s.wallets ensures Bounded(s.wallets[j]) {
      assert j in st.wallets;
    }
  }
}
