/** Trading eligibility and the per-user wallet lookup (models/User.js). */
module Users {
  import opened Base
  import opened Wallets

  datatype User = User(kycStatus: string, isActive: bool)

  /** A user may trade only with verified KYC and an active account. */
  predicate CanTrade(u: User) {
    u.kycStatus == "verified" && u.isActive
  }

  /** One row of a user's wallet list, as the wallets relation returns it. */
  datatype WalletRow = WalletRow(currency: CurrencyId, wallet: Wallet)

  /** Index of the first wallet row in `currency`, if there is one. */
  function FindWallet(rows: seq<WalletRow>, currency: CurrencyId): (r: Option<nat>)
    ensures r.Some? ==> r.value < |rows| && rows[r.value].currency == currency
    ensures r.Some? ==> forall j :: 0 <= j < r.value ==> rows[j].currency != currency
    ensures r.None? <==> forall j :: 0 <= j < |rows| ==> rows[j].currency != currency
    decreases |rows|
  {
    if |rows| == 0 then None
    else if rows[0].currency == currency then Some(0)
    else match FindWallet(rows[1..], currency)
      case None => None
      case Some(i) => Some(i + 1)
  }

  /** When no currency repeats, the first match is the one wallet in that currency. */
  lemma FindWalletUnique(rows: seq<WalletRow>, currency: CurrencyId, k: nat)
    requires forall i, j :: 0 <= i < j < |rows| ==> rows[i].currency != rows[j].currency
    requires k < |rows| && rows[k].currency == currency
    ensures FindWallet(rows, currency) == Some(k)
  {
  }

  /** Available balance in `currency`: zero without a wallet, else balance minus locked. */
  function AvailableIn(rows: seq<WalletRow>, currency: CurrencyId): (r: real)
    ensures FindWallet(rows, currency).None? ==> r == 0.0
    ensures FindWallet(rows, currency).Some? ==> r == Available(rows[FindWallet(rows, currency).value].wallet)
  {
    match FindWallet(rows, currency)
    case None => 0.0
    case Some(i) => Available(rows[i].wallet)
  }
}
