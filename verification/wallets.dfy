/** The balance primitives of one wallet row (models/Wallet.js, class Wallet). */
module Wallets {
  import opened Base

  /** `balance` is what the user owns; `locked` is the part held for open orders. */
  datatype Wallet = Wallet(balance: real, locked: real)

  /** The wallet invariant: 0 <= locked <= balance. */
  predicate Bounded(w: Wallet) {
    0.0 <= w.locked <= w.balance
  }

  /** What the user may newly commit. */
  function Available(w: Wallet): real {
    w.balance - w.locked
  }

  /** On a bounded wallet the available part lies between nothing and the whole balance. */
  lemma AvailableWithinBalance(w: Wallet)
    ensures Bounded(w) <==> 0.0 <= Available(w) <= w.balance && w.locked >= 0.0
  {
  }

  /** Reserves `a`; no bound check, the caller is trusted. */
  function Lock(w: Wallet, a: real): (r: Wallet)
    ensures r.balance == w.balance
    ensures Available(r) == Available(w) - a
  {
    w.(locked := w.locked + a)
  }

  /** Releases `a`, clamping the reserve at zero rather than going negative. */
  function Unlock(w: Wallet, a: real): (r: Wallet)
    ensures r.balance == w.balance
    ensures r.locked >= 0.0
    ensures r.locked == w.locked - a || (r.locked == 0.0 && w.locked - a < 0.0)
    ensures Bounded(w) && a >= 0.0 ==> Bounded(r)
  {
    w.(locked := Max(0.0, w.locked - a))
  }

  /** Credits `a`; always succeeds and leaves the reserve alone. */
  function Add(w: Wallet, a: real): (r: Wallet)
    ensures r.locked == w.locked
    ensures Available(r) == Available(w) + a
  {
    w.(balance := w.balance + a)
  }

  /** Debits `a` from the total balance, failing when the balance is smaller. */
  function Subtract(w: Wallet, a: real): (r: Result<Wallet>)
    ensures r.Err? <==> w.balance < a
    ensures r.Err? ==> r.error == InsufficientBalance
    ensures r.Ok? ==> r.value.locked == w.locked && r.value.balance + a == w.balance
  {
    if w.balance < a then Err(InsufficientBalance) else Ok(w.(balance := w.balance - a))
  }

  /** Unlocking what was just locked restores a wallet whose reserve is not negative. */
  lemma LockUnlockRoundTrip(w: Wallet, a: real)
    requires w.locked >= 0.0
    ensures Unlock(Lock(w, a), a) == w
  {
  }

  /** Debiting what was just credited restores a wallet whose balance is not negative. */
  lemma AddSubtractRoundTrip(w: Wallet, a: real)
    requires w.balance >= 0.0
    ensures Subtract(Add(w, a), a) == Ok(w)
  {
  }

  /** A non-negative lock keeps the invariant exactly when the amount is available. */
  lemma LockKeepsBounded(w: Wallet, a: real)
    requires Bounded(w) && a >= 0.0
    ensures Bounded(Lock(w, a)) <==> a <= Available(w)
  {
  }

  /** A debit of at most the available amount keeps the invariant. */
  lemma SubtractKeepsBounded(w: Wallet, a: real)
    requires Bounded(w) && a <= Available(w)
    ensures Subtract(w, a).Ok? && Bounded(Subtract(w, a).value)
  {
  }
}
