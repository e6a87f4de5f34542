/** Per-currency total balance over all wallets, and how single-wallet updates move it. */
module Totals {
  import opened Base
  import opened Wallets
  import opened LedgerState

  /** Sum of `f` over a finite set, peeling off an arbitrary element. */
  ghost function SumOf<K>(ks: set<K>, f: K -> real): real
    decreases ks
  {
    if ks == {} then 0.0 else var k :| k in ks; f(k) + SumOf(ks - {k}, f)
  }

  /** Any element can be peeled off first. */
  lemma {:induction false} SumRemove<K>(ks: set<K>, f: K -> real, k: K)
    requires k in ks
    ensures SumOf(ks, f) == f(k) + SumOf(ks - {k}, f)
    decreases ks
  {
    var j :| j in ks && SumOf(ks, f) == f(j) + SumOf(ks - {j}, f);
    if j != k {
      SumRemove(ks - {j}, f, k);
      SumRemove(ks - {k}, f, j);
      assert ks - {j} - {k} == ks - {k} - {j};
    }
  }

  /** Changing `f` at one point of the set moves the sum by exactly that change. */
  lemma {:induction false} SumPointChange<K>(ks: set<K>, f: K -> real, g: K -> real, k: K)
    requires forall j :: j in ks && j != k ==> f(j) == g(j)
    ensures SumOf(ks, g) == SumOf(ks, f) + (if k in ks then g(k) - f(k) else 0.0)
    decreases ks
  {
    if ks != {} {
      var j :| j in ks;
      SumRemove(ks, f, j);
      SumRemove(ks, g, j);
      SumPointChange(ks - {j}, f, g, k);
    }
  }

  /** Balance of one wallet counted towards currency `c`. */
  ghost function BalanceIn(ws: map<WalletKey, Wallet>, c: CurrencyId): WalletKey -> real {
    k => if k in ws && k.currency == c then ws[k].balance else 0.0
  }

  /** Total balance held in currency `c` over every wallet. */
  ghost function Total(ws: map<WalletKey, Wallet>, c: CurrencyId): real {
    SumOf(ws.Keys, BalanceIn(ws, c))
  }

  /** Replacing one existing wallet moves each total by that wallet's balance change. */
  lemma TotalAfterSet(ws: map<WalletKey, Wallet>, k: WalletKey, w: Wallet, c: CurrencyId)
    requires k in ws
    ensures Total(ws[k := w], c)
         == Total(ws, c) + (if k.currency == c then w.balance - ws[k].balance else 0.0)
  {
    var ws' := ws[k := w];
    assert ws'.Keys == ws.Keys;
    SumPointChange(ws.Keys, BalanceIn(ws, c), BalanceIn(ws', c), k);
  }

  /** Two wallet maps with the same keys and balances have the same totals. */
  lemma TotalSameBalances(ws: map<WalletKey, Wallet>, ws': map<WalletKey, Wallet>, c: CurrencyId)
    requires ws'.Keys == ws.Keys
    requires forall k :: k in ws ==> ws'[k].balance == ws[k].balance
    ensures Total(ws', c) == Total(ws, c)
  {
    var k :| true;
    SumPointChange(ws.Keys, BalanceIn(ws, c), BalanceIn(ws', c), k);
  }

  /** A credit moves the total of its currency up by the amount, when the wallet exists. */
  lemma TotalAfterCredit(ws: map<WalletKey, Wallet>, k: WalletKey, a: real, c: CurrencyId)
    ensures Total(CreditWallet(ws, k, a), c)
         == Total(ws, c) + (if k in ws && k.currency == c then a else 0.0)
  {
    if k in ws {
      TotalAfterSet(ws, k, Add(ws[k], a), c);
    }
  }

  /** A successful debit moves the total of its currency down by the amount, when the wallet exists. */
  lemma TotalAfterDebit(ws: map<WalletKey, Wallet>, k: WalletKey, a: real, c: CurrencyId)
    requires DebitWallet(ws, k, a).Ok?
    ensures Total(DebitWallet(ws, k, a).value, c)
         == Total(ws, c) - (if k in ws && k.currency == c then a else 0.0)
  {
    if k in ws {
      TotalAfterSet(ws, k, Subtract(ws[k], a).value, c);
    }
  }

  /** Locking and unlocking never change a total. */
  lemma TotalAfterLockOrUnlock(ws: map<WalletKey, Wallet>, k: WalletKey, a: real, c: CurrencyId)
    ensures Total(LockWallet(ws, k, a), c) == Total(ws, c)
    ensures Total(UnlockWallet(ws, k, a), c) == Total(ws, c)
  {
    TotalSameBalances(ws, LockWallet(ws, k, a), c);
    TotalSameBalances(ws, UnlockWallet(ws, k, a), c);
  }
}
