# Balance ledger and order matching of the crypto-trade exchange backend

This project models, in Dafny, the core of the crypto-trade backend: its
wallet ledger and its limit-order matching engine. The whole exchange state
is one immutable `Ledger` value:

- users, with their KYC status and active flag;
- currencies, with their active flag;
- wallets, keyed by (user, currency), each a `balance` and a `locked` reserve;
- limit orders, trades, deposits, withdrawals and transfers;
- the append-only transaction history.

Every controller operation except matching is a pure function from a ledger
to `Result<Ledger>`. It returns `Ok` with the new ledger, or `Err` with the
rejection kind and no change. The rejections are checked in the controller's
own order. Matching is a loop, so `Matching.MatchOrders` is a method. It
returns the final ledger and a `Halt` reason, which says why the loop
stopped. `Matching.PlaceOrder` is a method too: placement followed by
matching. It returns the placement's `Result<Ledger>` and, when the order
was placed, the reason matching stopped.

The modules follow the source files:

| module | file | what it holds |
|---|---|---|
| `Base` | — | ids, `Option`, `Result`, error kinds |
| `Wallets` | `models/Wallet.js` | one wallet row: available balance, lock, unlock, add, subtract |
| `Orders` | `models/Wallet.js` | the `Order` record, its held amount, the pending filter, a fill |
| `Users` | `models/User.js` | trading eligibility; the first-match wallet lookup over a user's wallet rows |
| `LedgerState` | — | the ledger, the keyed wallet updates (a missing wallet skips the update), the invariant `Valid` |
| `Totals` | — | the per-currency total balance over all wallets |
| `OrderLifecycle` | `controllers/OrderController.js` | `createOrder` and `cancelOrder` |
| `FundMoves` | `models/Deposit.js`, `models/Withdrawal.js`, `models/Transfer.js` | deposit confirmation, withdrawal completion and transfer completion |
| `WalletController` | `controllers/WalletController.js` | the deposit, withdrawal and transfer requests and their confirmation |
| `Reserves` | — | the reserve invariant `Covered` and its preservation by every operation |
| `Matching` | `controllers/OrderController.js` | one settlement, the matching loop, and placement followed by matching |
| `OrderBook` | `controllers/OrderController.js` | the order-book listing of `getOrderBook` |
| `Quirks` | — | the behaviours of the code that are kept as written |
| `Scenarios` | — | concrete two-user runs |

Amounts are exact `real`s. The source never checks that a quantity, price or
amount is positive, so no operation requires it. The preservation lemmas
take positivity as an explicit precondition.

The matching loop is the method `Matching.MatchOrders`. Each round does four
things:

1. It selects a best-priced pending buy and sell. Ties are resolved
   arbitrarily, because the source's order among equal prices depends on
   database row order.
2. It stops if either side is empty or the two do not cross. It also stops
   if settling the pair fails.
3. It settles one trade at the sell price for the smaller remaining
   quantity.
4. It repeats only if one of the two orders is still partly open, as the
   source's recursive call does.

The loop's `decreases` is the number of pending orders, which every round
lowers.

The main theorems:

- **Wallet invariant.** `0 <= locked <= balance` holds for every wallet
  (`LedgerState.Valid`). Every accepted operation and every settlement keeps
  it.
- **Reserve invariant.** `Reserves.Covered` says that each wallet's locked
  balance is at least what the pending orders on it hold. Every operation
  keeps it. Under it, a settlement can never fail
  (`Matching.SettleNeverFails`). So `MatchOrders` never stops with
  `SettlementFailed` on a valid, covered ledger.
- **Conservation.** Trades and transfers conserve each currency's total
  balance when all wallets involved exist. When a wallet is missing, the
  total moves by exactly the skipped leg.
- **One-shot transitions.** Confirming a deposit, completing a withdrawal
  and cancelling an order are each accepted at most once.
- **What matching leaves behind.** It changes only the pair's pending
  orders, appends only trades of that pair at the sell price, and never
  makes an order pending again. When it stops on an empty side or an
  uncrossed book, no buy of the pair reaches a sell.

## Behaviours kept as written

- Order placement checks only that both currencies exist
  (`controllers/OrderController.js:75-83`). The wallet operations also check
  the active flag (`controllers/WalletController.js:21-27`, `69-75`, `138-144`).
  `Quirks.OrdersIgnoreCurrencyActivity` states this.
- After a round that fills both matched orders, the code does not recurse,
  even if other orders of the pair still cross
  (`controllers/OrderController.js:309-314`). `Matching.MatchRound` and
  `Matching.MatchOrders` state this repeat rule: a round is followed by
  another exactly when its trade left one of its two orders with quantity
  remaining. A run that stops for any reason other than a failed settlement
  leaves nothing crossed if every crossing at the start involved one order,
  as after placing an order into an uncrossed book. Crossings between other
  orders can remain after a both-filled stop.
- After a buy fills below its limit, the code unlocks only the traded value,
  q times the sell price, so the rest of the buy's reserve stays locked
  (`controllers/OrderController.js:286-289`, `Quirks.ResidualBuyerLock`).
  This is why the reserve invariant says "at least" and not "equal".
- A missing wallet silently skips its leg of a trade or transfer, so the
  amount leaves the ledger or appears from nowhere
  (`Quirks.MissingBuyerWalletDropsBase`, `Quirks.TransferToMissingWalletLosesAmount`).

## Model

| member | source | states |
|---|---|---|
| Wallets.Lock | models/Wallet.js:25-30 | locking `a` leaves the balance alone and lowers the available balance by exactly `a`, with no bound check |
| Wallets.Unlock | models/Wallet.js:32-37 | unlocking leaves the balance alone; the reserve drops by `a`, or to 0 if it would go negative; it is never negative, and a non-negative unlock keeps `0 <= locked <= balance` |
| Wallets.Add | models/Wallet.js:39-44 | a credit leaves the reserve alone and raises the available balance by `a` |
| Wallets.Subtract | models/Wallet.js:46-54 | a debit fails with insufficient balance exactly when the balance is below `a`; otherwise the balance drops by `a` and the reserve is unchanged |
| Wallets.LockUnlockRoundTrip | models/Wallet.js:25-37 | unlocking what was just locked gives back the wallet |
| Wallets.AddSubtractRoundTrip | models/Wallet.js:39-54 | subtracting what was just added gives back the wallet |
| Wallets.LockKeepsBounded | models/Wallet.js:21-30 | a non-negative lock keeps `locked <= balance` if and only if it is at most the available balance |
| Wallets.SubtractKeepsBounded | models/Wallet.js:46-54 | a debit of at most the available balance succeeds and keeps the wallet invariant |
| Orders.HeldAmountSign | controllers/OrderController.js:85-88 | the order's total value and the amount a placement requires are never negative for a non-negative quantity and price; with a positive price, each is positive exactly while some quantity remains |
| Orders.FillReleases | controllers/OrderController.js:258-273 | filling a pending order by `q` keeps its hold wallet and lowers what it holds by exactly `q` times its price for a buy, or `q` for a sell |
| Orders.FillKeepsActive | models/Wallet.js:102-104 | an order is still active after a fill by `q` exactly when it was active and `q` is below its remaining quantity |
| Orders.PendingOrdersInPendingIds | models/Wallet.js:106-118 | the pending orders of any pair and side are among all pending orders, which the matching loop counts down |
| Orders.PendingOrdersBySide | models/Wallet.js:106-118 | without a side filter, the pending orders are exactly the pending buys plus the pending sells |
| Orders.Fill | controllers/OrderController.js:258-273 | when nothing remains, the order becomes filled with quantity 0; otherwise it keeps its status with the quantity lowered by `q`; its terms never change |
| Users.FindWallet | models/User.js:78-81 | returns the first of the user's wallet rows in the currency; returns none exactly when no row matches |
| Users.FindWalletUnique | models/User.js:78-81 | when no currency repeats, the first match is the one wallet in that currency |
| Quirks.CanTradeGates | models/User.js:89-91 | a known user who may not trade is refused with `Unauthorized` by order placement and by withdrawal, and a user who may trade never is; a transfer's outcome does not depend on the sender's eligibility |
| Wallets.AvailableWithinBalance | models/Wallet.js:21-23 | a wallet is bounded exactly when its reserve is not negative and its available balance lies between 0 and its balance |
| LedgerState.AvailableBalanceBounds | models/User.js:83-87 | the available balance is 0 without a wallet in the currency; on bounded wallets it lies between 0 and that wallet's balance |
| LedgerState.AvailableBalanceMatchesRows | models/User.js:83-87 | the keyed wallet lookup gives the same available balance as the first-match search over the user's rows, and finds a wallet exactly when the search does |
| LedgerState.CreditWallet | models/Wallet.js:39-44 | credits the keyed wallet if it exists; every other wallet and the key set are unchanged |
| LedgerState.LockWallet | models/Wallet.js:25-30 | locks on the keyed wallet if it exists; every other wallet and the key set are unchanged |
| LedgerState.UnlockWallet | models/Wallet.js:32-37 | unlocks on the keyed wallet if it exists; every other wallet and the key set are unchanged |
| LedgerState.DebitWallet | models/Wallet.js:46-54 | fails exactly when the wallet exists and its balance is below the amount; otherwise debits it and changes nothing else |
| Totals.TotalAfterCredit | models/Wallet.js:39-44 | a credit raises the total of the wallet's currency by the amount when the wallet exists, and changes no other total |
| Totals.TotalAfterDebit | models/Wallet.js:46-54 | a debit lowers the total of the wallet's currency by the amount when the wallet exists, and changes no other total |
| Totals.TotalAfterLockOrUnlock | models/Wallet.js:25-37 | locking and unlocking change no currency total |
| OrderLifecycle.CreateOrder | controllers/OrderController.js:60-117 | rejects, in this order, an unknown user, a user who may not trade, a missing currency, and an available balance below the held amount in the held currency; it succeeds exactly otherwise; on success it adds exactly one pending order and raises the hold wallet's reserve by the held amount, with its balance and every other wallet unchanged |
| OrderLifecycle.OrderCancel | models/Wallet.js:120-137 | fails with an invalid-state error exactly when the order is not pending; otherwise it marks the order cancelled and unlocks the held amount on its hold wallet, changing nothing else |
| OrderLifecycle.CancelOrder | controllers/OrderController.js:187-202 | rejects an unknown order, then another user's order, then a non-pending order; it succeeds exactly for the owner's pending order, which ends cancelled |
| OrderLifecycle.PlaceThenCancelRestoresWallets | models/Wallet.js:120-137 | placing an order and cancelling it before any match gives back every wallet, and the order is kept as cancelled |
| OrderLifecycle.CancelOneShot | models/Wallet.js:120-123 | a cancelled order cannot be cancelled again |
| OrderLifecycle.CreateOrderKeepsTotals | controllers/OrderController.js:111-114 | placement only locks funds, so no currency total changes |
| OrderLifecycle.CreateOrderKeepsValid | controllers/OrderController.js:85-117 | a placement with positive quantity and price keeps the ledger invariant, because the lock is covered by the checked available balance |
| OrderLifecycle.CancelKeepsValid | models/Wallet.js:127-136 | cancellation keeps the ledger invariant |
| FundMoves.ConfirmDepositEffect | models/Deposit.js:21-37 | marks the deposit confirmed; credits the depositor's wallet in that currency by the amount if the wallet exists, with its reserve unchanged; appends one completed deposit record; touches nothing else |
| FundMoves.CompleteWithdrawalEffect | models/Withdrawal.js:22-32 | marks the withdrawal completed with its user, currency and amount kept; appends one completed withdrawal record; changes no wallet |
| FundMoves.CompleteTransferEffect | models/Transfer.js:26-47 | fails with nothing applied exactly when the sender's wallet exists and its balance is below the amount; on success the transfer is completed, and no reserve and no other part of the ledger changes |
| FundMoves.TransferMovesAmount | models/Transfer.js:33-45 | the sender's balance drops by the amount and the receiver's rises by it, each only if that wallet exists; every other wallet is unchanged |
| FundMoves.TransferConservesTotals | models/Transfer.js:34-45 | a completed transfer moves the currency's total by exactly the legs that were skipped; with both wallets present, the total is unchanged |
| WalletController.CreateDeposit | controllers/WalletController.js:13-34 | rejects an unknown user, then a missing or inactive currency; on success it records one pending deposit and changes no wallet |
| WalletController.CreateWithdrawal | controllers/WalletController.js:54-95 | rejects, in this order, an unknown user, a user who may not trade, a missing or inactive currency, and an available balance below the amount; on success it records one pending withdrawal and lowers the balance, not the reserve, by the amount |
| WalletController.CreateTransfer | controllers/WalletController.js:115-162 | rejects, in this order, an unknown sender or recipient, a transfer to oneself, a missing or inactive currency, and a sender's available balance below the amount; on success the transfer is stored as completed, the sender's balance drops by the amount and the recipient's rises by it, each only if that wallet exists, every reserve and every other wallet is unchanged, and nothing else in the ledger changes |
| WalletController.ConfirmDeposit | controllers/WalletController.js:310-325 | rejects an unknown deposit and one that is not pending; it succeeds exactly for a pending deposit, which ends confirmed |
| WalletController.CompleteWithdrawal | controllers/WalletController.js:344-359 | rejects an unknown withdrawal and one that is not pending; it succeeds exactly for a pending withdrawal, which ends completed |
| WalletController.ConfirmDepositOneShot | controllers/WalletController.js:318-325 | a second confirmation of the same deposit is rejected, so the wallet is credited once |
| WalletController.CompleteWithdrawalOneShot | controllers/WalletController.js:352-359 | a second completion of the same withdrawal is rejected, so one record is appended |
| WalletController.DepositRoundTrip | models/Deposit.js:21-37 | a deposit request and its confirmation credit the wallet by the amount, if it exists, and log exactly one record |
| WalletController.WithdrawalRoundTrip | controllers/WalletController.js:85-95 | a withdrawal request and its completion lower the balance by the amount exactly once and log exactly one record |
| WalletController.WithdrawalKeepsBounded | controllers/WalletController.js:77-95 | on bounded wallets the debit cannot fail: the request succeeds exactly when the controller's checks pass, and the invariant still holds |
| WalletController.TransferKeepsBounded | controllers/WalletController.js:146-162 | on bounded wallets a positive transfer succeeds exactly when the controller's checks pass, and it keeps every wallet bounded |
| WalletController.TransferConserves | controllers/WalletController.js:154-162 | a transfer between two existing wallets leaves every currency's total unchanged |
| WalletController.TransferKeepsValid | controllers/WalletController.js:146-162 | an accepted positive transfer keeps the ledger invariant |
| WalletController.ConfirmKeepsValid | models/Deposit.js:24-28 | confirming a deposit keeps the ledger invariant |
| WalletController.WalletOperationsKeepValid | controllers/WalletController.js:29-95 | every accepted deposit, withdrawal, transfer, confirmation and completion with a positive amount keeps the ledger invariant |
| Reserves.CreateOrderKeepsCovered | controllers/OrderController.js:100-117 | a placement with positive quantity and price keeps every reserve at least what its pending orders hold |
| Reserves.CancelKeepsCovered | models/Wallet.js:120-137 | cancellation keeps every reserve at least what its pending orders hold |
| Reserves.DepositKeepsCovered | models/Deposit.js:21-37 | recording or confirming a deposit keeps the reserve invariant |
| Reserves.WithdrawalKeepsCovered | controllers/WalletController.js:85-95 | requesting or completing a withdrawal keeps the reserve invariant |
| Reserves.TransferKeepsCovered | models/Transfer.js:26-47 | a transfer keeps the reserve invariant |
| Matching.SettleWallets | controllers/OrderController.js:275-306 | the four settlement legs keep the wallet key set and touch no wallet outside the buyer's and seller's base and quote wallets |
| Matching.Settle | controllers/OrderController.js:240-306 | records one trade of both orders and both users at the sell price for the smaller remaining quantity; fills both orders by that quantity, at least one completely; keeps every other part of the ledger |
| Matching.SettleWalletsKeepBounded | controllers/OrderController.js:285-306 | settling non-negative amounts keeps every wallet bounded |
| Matching.SettleWalletsTotals | controllers/OrderController.js:285-306 | each currency's total moves by exactly the legs whose wallets exist: base +q and −q, quote −q·p and +q·p |
| Matching.SettleWalletsConserve | controllers/OrderController.js:285-306 | with all four wallets present, settlement conserves every currency's total |
| Matching.SettleWalletsLegs | controllers/OrderController.js:285-306 | for two distinct users: buyer base +q; buyer quote −q·p on the balance and on the reserve, clamped at 0; seller base −q on both; seller quote +q·p |
| Matching.SettleWalletsFailure | controllers/OrderController.js:286-302 | on bounded wallets, for distinct buyer and seller and distinct currencies, settlement fails exactly when the buyer's quote balance is below q·p or the seller's base balance is below q |
| Matching.SettleWalletsFromReserves | controllers/OrderController.js:286-302 | when the two reserves hold q·p and q, settlement succeeds and takes exactly those amounts off them, every other reserve unchanged |
| Matching.SelectBest | controllers/OrderController.js:219-235 | returns a candidate whose price no other candidate beats: the highest for buys, the lowest for sells |
| Matching.SettleShrinksPending | controllers/OrderController.js:258-273 | a settled round makes no order pending and fills at least one, so the pending count strictly drops |
| Matching.SettleKeepsValid | controllers/OrderController.js:258-306 | a settled round keeps the ledger invariant |
| Matching.SettleConserves | controllers/OrderController.js:285-306 | when every participant of the pair has both wallets, a round conserves every currency's total |
| Matching.SettleNeverFails | controllers/OrderController.js:286-302 | on a valid, covered ledger, settlement of a crossing pair cannot fail |
| Matching.SettleKeepsCovered | controllers/OrderController.js:258-302 | a round keeps the reserve invariant: it takes q times the buy price off the buyer's commitment but only q times the sell price off the buyer's reserve |
| Matching.BothFilledUncrossed | controllers/OrderController.js:309-314 | when a round fills both orders and every crossing involved one of them, nothing crosses afterwards |
| Matching.SettledRound | controllers/OrderController.js:258-314 | a settled round of a crossed book keeps what the loop promises and lowers the pending count |
| Matching.BestPair | controllers/OrderController.js:219-239 | reports an empty side exactly when the pair has no pending buy or no pending sell; reports no crossing only on an uncrossed book; otherwise returns a best pending buy and a best pending sell that cross |
| Matching.MatchRound | controllers/OrderController.js:219-314 | one pass: when it settles, its one new trade matched a best pending buy against a best pending sell that it reaches, and the loop goes on exactly when that trade left one of the two orders with quantity remaining; a round that settles and goes on is never reported as both-filled; without a settlement it stops with no change, and an uncrossed book always gives such a stop; it reports a failed settlement only when settling a best crossing pair of the book failed |
| Matching.MatchOrders | controllers/OrderController.js:217-319 | terminates; touches only the pair's pending orders, wallet contents and trades; appends only crossing trades of the pair at the sell price; keeps validity, the pair's wallet totals and the reserve; an empty-side or uncrossed stop leaves an uncrossed book; on a valid, covered ledger it never stops on a failed settlement, and any failed-settlement stop leaves a book where settling a best crossing pair fails; the ledgers it passes through form a chain of rounds, each settling a best crossing pair, and every round but the last left an order partly open; it stops as both-filled exactly when the last round left neither order open |
| Matching.AddOrderCrossingOnlyWith | controllers/OrderController.js:100-119 | adding one order to an uncrossed book makes every crossing involve the new order |
| Matching.PlaceOrder | controllers/OrderController.js:100-119 | a rejected placement returns its error with no change; an accepted one is followed by matching, whose failure does not undo it; the new order is stored with its terms; validity and the reserve invariant carry through; from an uncrossed book, matching ends uncrossed unless a settlement failed; a reported failure comes with a final book where settling a best crossing pair fails; the matching's run of rounds and its halt guarantees are passed on, starting from the ledger with the order placed |
| Matching.PlaceConservesTotals | controllers/OrderController.js:100-119 | placement plus matching conserves every currency's total when all of the pair's participants hold both wallets |
| OrderBook.Insert | controllers/OrderController.js:139-165 | inserting into a book-ordered listing keeps it book-ordered, adds exactly the one id, and keeps it free of repeats |
| OrderBook.ListIds | controllers/OrderController.js:139-165 | lists exactly the given ids, each once, in book order |
| OrderBook.GetOrderBook | controllers/OrderController.js:135-181 | lists exactly the pair's pending buys, highest price first, and pending sells, lowest price first, earlier first at equal price, each once |
| OrderBook.HeadIsBest | controllers/OrderController.js:224-235 | the head of a listing has the best price of its side, as the matching engine selects it |
| Quirks.ResidualBuyerLock | controllers/OrderController.js:286-289 | a buy fully filled below its limit ends filled, yet its held amount minus what it paid, a positive sum, stays locked in the buyer's quote wallet |
| Quirks.FullBuyResidual | controllers/OrderController.js:286-289 | the wallet side of that fill: the residual left on the buyer's reserve is the held amount minus the payment, and it is positive |
| Quirks.ReserveAfterPayment | controllers/OrderController.js:286-289 | settlement releases only the payment from a reserve that held more |
| Quirks.BuyerQuoteReserve | controllers/OrderController.js:286-289 | settlement takes exactly q·p, clamped at 0, off the buyer's quote reserve |
| Quirks.OrdersIgnoreCurrencyActivity | controllers/OrderController.js:75-83 | changing the currencies' active flags changes nothing in a placement's outcome |
| Quirks.InactiveCurrencyAcceptedByOrders | controllers/WalletController.js:21-27 | the inactive currency that a deposit rejects is accepted by order placement |
| Quirks.MissingBuyerWalletDropsBase | controllers/OrderController.js:285-302 | without the buyer's base wallet, a settled match debits the seller's base and credits nobody: the base total falls by the traded quantity, and the quote total is unchanged |
| Quirks.TransferToMissingWalletLosesAmount | models/Transfer.js:40-45 | a transfer to a user without a wallet in the currency debits the sender, and the amount leaves the ledger |
| Scenarios.AliceSells | controllers/OrderController.js:85-117 | a sell of 0.5 BTC out of 1 locks 0.5 and leaves 0.5 available |
| Scenarios.BobBuys | controllers/OrderController.js:85-117 | a buy of 0.5 BTC at 25000 locks 12500 of 20000 USDT |
| Scenarios.BuyCrossesSell | controllers/OrderController.js:219-239 | both orders are pending in the pair, and the buy price reaches the sell price |
| Scenarios.CrossingPairWallets | controllers/OrderController.js:285-306 | the trade leaves the seller with 0.5 BTC and 12500 USDT and the buyer with 0.5 BTC and 7500 USDT, with nothing locked |
| Scenarios.CrossingPairSettles | controllers/OrderController.js:240-306 | settlement records one trade of 0.5 at 25000 and fills both orders |
| Scenarios.FilledSellCannotBeCancelled | models/Wallet.js:120-123 | after the trade, cancelling the filled sell is rejected |
| Scenarios.TransferBeyondAvailable | controllers/WalletController.js:146-152 | a transfer of 150 from an available 100 is rejected; one of 100 is accepted |
| Scenarios.ImprovedBuyPlaced | controllers/OrderController.js:85-117 | a buy of 0.5 at 26000 locks 13000 |
| Scenarios.ImprovedSellPlaced | controllers/OrderController.js:85-117 | the following sell of 0.5 at 25000 locks 0.5 BTC |
| Scenarios.ImprovedTradeWallets | controllers/OrderController.js:286-289 | trading at 25000 releases only 12500 of the 13000 held, so 500 USDT stays locked |
| Scenarios.PriceImprovedBuyKeepsResidualLock | controllers/OrderController.js:286-289 | the buy ends filled with 500 USDT still locked, and cancelling it is rejected, so cancelling the filled order cannot release the 500 |
| Scenarios.InactiveBaseStillTrades | controllers/OrderController.js:75-83 | with BTC inactive, deposits and withdrawals of BTC are rejected, but a BTC sell order is placed |

## Left out

- HTTP plumbing is not modelled: request parsing, status codes and JSON bodies. Each rejection is an error kind.
- The controllers return two separate not-found responses in `createTransfer`, one for the sender and one for the recipient. The model merges them into one `NotFound`.
- The recipient of a transfer is looked up by email in the source. The model takes the recipient's user id.
- Floating-point arithmetic is not modelled. `parseFloat` values are exact reals here, so no rounding is modelled.
- Concurrency and isolation are not modelled. Each operation, each settlement and each transfer completion is one atomic step, and a failing debit applies nothing.
- Two faults can only occur on a wallet whose reserve is negative: the debit in `createWithdrawal` and the one inside `createTransfer`. Both run after the available-balance check, so they fail only when balance − locked ≥ amount > balance. When they fail, the source has already stored the pending withdrawal row, or the transfer row, which `Transfer.complete` marks completed before its debit (`models/Transfer.js:31-37`). The model drops that row with the rest of the step. On bounded wallets these debits cannot fail (`WalletController.WithdrawalKeepsBounded`, `WalletController.TransferKeepsBounded`).
- The stale wallet objects the source loads when base equals quote are not modelled. Settlement applies its legs one after another. The settlement theorems `Matching.SettleWalletsLegs`, `Matching.SettleWalletsFailure`, `Matching.SettleWalletsFromReserves`, `Matching.SettleNeverFails` and `Matching.SettleKeepsCovered` require distinct base and quote, as do the never-fails clause of `Matching.MatchOrders` and the reserve clause of `Matching.PlaceOrder`. The `Reserves` lemmas do not.
- Order sides other than buy and sell are left out. The source takes `type` from the request unchecked (`controllers/OrderController.js:57-58`) and treats every value other than "buy" as a sell when it locks (`controllers/OrderController.js:86-88`, `110-113`) and when it cancels (`models/Wallet.js:129-135`). Such an order is stored pending with its quantity locked on the base wallet, but the buy and sell queries of matching and of the order book never return it (`models/Wallet.js:106-118`), so it is never listed or matched and only a cancel releases it. `Side` has only `Buy` and `Sell`, so the model has no such order.
- Order types other than limit orders are left out, as are the order and trade listing reads (`getRecentTrades`, `getDeposits`, `getWithdrawals`, `getTransfers`). Those only read and sort.
- The SQL join with user names in `getOrderBook` is left out. The listing returns order ids.
- Ties among equal best prices in `matchOrders` are left open: `Matching.SelectBest` may return any best-priced order. The source's choice depends on database row order.
- Crashes on missing rows are not modelled, for example a null buyer in settlement. Settlement does not look users up; in the source, the schema's foreign keys make a missing buyer impossible.
- The transaction history is an append-only sequence of records. The `Transaction` model it writes to is not part of this model. `models/Deposit.js:30` and `models/Withdrawal.js:25` use `Transaction` without importing it, so in the source `confirm` and `complete` throw after the status change (and, for a deposit, the credit) and before the record is written. The model treats both as succeeding and appends the record.
- `UserController`, `BaseModel`, the seed scripts, authentication and `Currency` are not part of this model. Of `Currency`, only its active flag is kept.
- Each user has at most one wallet per currency, because wallets are keyed by (user, currency). `LedgerState.AvailableBalanceMatchesRows` shows this agrees with the source's first-match lookup when no currency repeats.
- Record creation time is a parameter (`now`), and fresh row ids are parameters with a freshness precondition.
- `createTransfer` does not check that the sender may trade. This is kept as written.
- Reserves.Covered: only `locked >= committed` is proved, not equality. Equality is false in the source after a price-improved buy (`Quirks.ResidualBuyerLock`).
- OrderLifecycle.CreateOrderKeepsValid: requires positive quantity and price, which the source never checks.
- Reserves.CreateOrderKeepsCovered: requires positive quantity and price, which the source never checks.
- WalletController.WalletOperationsKeepValid: requires a positive amount, which the source never checks.
- WalletController.TransferKeepsBounded: requires a positive amount, which the source never checks.
- WalletController.TransferKeepsValid: requires a positive amount, which the source never checks.
- Quirks.ResidualBuyerLock: stated for a buy that fills completely against a larger sell. Partial fills leave the same per-unit residual, but it is not stated here.
- Matching.SettleWalletsFailure: stated for distinct buyer and seller and distinct currencies. The source does let a user's buy match their own sell; then the credit of the base leg can cover the later base debit, so the failure condition differs and is not spelled out.
- Matching.SettleWalletsLegs: stated for distinct buyer and seller and distinct currencies. A self-trade's legs are applied in sequence on the same wallets and are not spelled out.
- Matching.MatchOrders: a stop after a round that filled both orders promises an uncrossed book only when every crossing at the start involved one order. Crossings between other orders can remain, as in the source.
