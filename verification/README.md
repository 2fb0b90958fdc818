# The settlement engine, modelled and verified in Dafny

CorpoPay settles captured payments into a double-entry, multi-currency ledger and moves the money on:
splits among beneficiaries, payouts, refunds, disputes, stored-value wallets and the sweep of foreign
balances. This project models one tenant's database and every transaction that moves money in it, and
proves what holds in every state those transactions can reach. Beside the engine it models the smaller
machines around it: the capture/void lock, loan instalments, reconciliation, statements, the velocity
store and the instalment chain.

`dafny verify dfyconfig.toml` checks everything.

## How it is laid out

| file | what it holds |
|---|---|
| `Prelude`, `Money` | results and errors; currencies, the one rounding rule, basis points |
| `Ledger` | postings, the append-only entry table, every sum read off it, the ledger invariant |
| `LedgerViews` | the in-memory balance views and the incremental fold, against the table |
| `Fees`, `WalletMath`, `Shares`, `FxSettlement`, `Reversals` | the arithmetic the transactions use |
| `Books` | the database as a value, and each transaction as a function that commits a state or aborts |
| `PayoutLedger`, `WalletLedger`, `SplitLedger`, `DisputeLedger` | each sub-ledger's invariant and what its transactions do to it |
| `CaptureLedger`, `RefundLedger` | captures and refunds: their effect, their replays, how far one undoes the other |
| `Movements`, `Acceptance` | what every other transaction moves, account by account; when each goes through and with which error it is refused |
| `Transactions`, `Runs` | every transaction keeps every invariant; whole runs from the empty database |
| `Rows`, `Idempotency`, `Journal` | over whole runs: what a row may change, what is created once, which accounts and rows a posting is for |
| `Counterexamples` | runs of those transactions in which a promise fails |
| `TenantBooks` | the database as a class whose methods run the transactions step by step, each proved equal to its function in `Books` |
| `IntentLock`, `Adapters`, `Billing`, `Reconciliation`, `ReconciliationRuns`, `ReconciledLedger`, `Velocity`, `Instalments`, `InstalmentJobs`, `Agreements`, `Statements` | the smaller machines |

The sums over the entry table are one function, `Ledger.Total`, over a small vocabulary of queries, so
that one lemma (`PostEffect`) says what a posting does to each of them. Amounts are integer minor
units, basis points integers, FX rates integers of eight decimals, and amortisation exact reals.
`Math.round` is floor(x + 1/2).

## What turned out not to hold

Each is stated as a lemma with a concrete input, beside the exact condition under which the code does
meet the property. Those about refunds, payouts and reconciliation start from the empty database and
run the transactions.

- Audit snapshots: a credit entry's `balanceAfter` is off by the amount when both legs share the
  account (`SamePairSnapshotIsOff`, `SnapshotRightExactlyWhen`).
- `applyPosting` adds up currencies (`FoldMixesCurrencies`, `FoldIsNetPlusForeign`).
- A refund is not always the full unwind `refund-db.ts` calls it. Without a split it leaves tax and a
  negative net behind; with one it takes the fee, tax and reserve from the platform a second time, and
  the beneficiaries keep their shares (`TaxedRefundLeavesTheTax`, `SplitRefundTakesTheFeeTwice`,
  `ExactInverseExactlyWhen`, `BeneficiariesKeepTheirShares`).
- The refund's over-draw guard sees one AVAILABLE credit of several and no other account, so a refund
  can overdraw AVAILABLE after a split, and RESERVE (`RefundCanOverdraw`, `RefundMoves`,
  `RefundCanOverdrawReserve`, `RefundOverdrawsExactlyWhen`).
- Once a loss under ALLOW_NEGATIVE has overdrawn AVAILABLE, no further dispute can be lost under any
  policy (`NegativeLossBlocksTheNext`, `LossCommitsExactlyWhen`).
- A loss can overdraw AVAILABLE under a policy that never does, because its funding is decided before
  the transaction (`LateLossOverdraws`, `LateLossOverdrawsExactlyWhen`).
- A payout is not always offered the net eligible balance: a debit that left a credit partly paid is
  subtracted again from every later payout (`GrantIsSubtractedTwice`, `AllIsPayableExactlyWhen`,
  `NetPayable`).
- A payout can be cancelled or failed after it has been paid, because the status is checked before the
  transaction (`LateCancelOffersThePaid`, `LateDropKeepsExactlyWhen`).
- The reconciliation takes a capture for at least twice its gross, because its debits include those
  of COLLECTED (`CaptureIsReconciledTwice`, `CaptureLineIsTwiceTheGross`, `GrossNeverMatches`).
- Zero-interest instalments are rounded to nearest, where `billing.ts` promises rounding up and an
  adjusted last one, and can collect less than the principal (`ZeroAprCanFallShort`, `ZeroAprCollects`).
- The velocity store undercounts when the time of its calls runs backwards (`BackwardsUndercounts`,
  `CountsAgreeExactlyWhen`).
- The capture/void lock is exclusive only as long as no adapter reports AUTHORIZED on success and no
  rejected call is carried out; VPS answers in flight, and a void answered VOIDED or CANCELLED, are taken
  for rejections (`CaptureThenVoid`, `RejectedCaptureThenVoid`, `ExclusiveExactlyWhen`,
  `SettlementInFlightIsVoided`, `VoidedIsCaptured`, `DeployedAreExclusiveExactlyWhen`).
- A cancelled instalment agreement can still end COMPLETED or DEFAULTED or become ACTIVE, and a
  completed one CANCELLED (`CancellationCanBeLost`, `BookingOutlivesCancellation`,
  `CancellationIsLostExactlyWhen`, `CompletionCanBeLost`, `EndIsFinalExactlyWhen`).
- Two activations of one agreement at once can collect an instalment too many
  (`OverlappingActivationsOvercharge`, `PaidCountIsRightExactlyWhen`).

The model follows the code. `fees.ts` and `tax.ts` describe their rounding as half away from zero where
`Math.round` rounds half up; the two agree on every amount the code accepts, since negative amounts and
rates are refused.

## Model

| member | source | states |
|---|---|---|
| `Money.RoundDiv` | src/lib/fees.ts:58-61 | the one rounding rule: the nearest integer to a fraction, a tie going up |
| `Money.ApplyBps` | src/lib/fees.ts:58-61 | a basis-point charge is refused exactly for a negative rate and is otherwise non-negative on a non-negative amount |
| `Money.RoundDivAtMostDouble` | src/lib/fees.ts:58-61 | rounding at most doubles a non-negative amount |
| `Ledger.MakePosting` | src/lib/ledger.ts:133-158 | accepts exactly the balanced postings: opposite legs of one non-negative amount in one currency, on different accounts or parties; each refusal has its reason, in the order of the checks |
| `Ledger.PostEffect` | src/lib/ledger-db.ts:104-183 | a posting appends two rows and changes every balance, net and count read off the table by exactly its two legs |
| `Ledger.PostAllEffect` | src/lib/ledger-db.ts:104-183 | the same for any batch of postings, whatever the table held before |
| `Ledger.PostAllExtends` | src/lib/ledger-db.ts:104-183 | postings only append: earlier rows stay as they are |
| `Ledger.PostKeepsLedger` | src/lib/ledger-db.ts:104-183 | a posting keeps the table a sequence of valid debit/credit pairs with right snapshots and every currency at net zero |
| `Ledger.SnapshotRightExactlyWhen` | src/lib/ledger-db.ts:119-124 | an audit snapshot equals the running balance exactly unless it is a non-zero credit of a posting within one account |
| `Ledger.SnapshotsRightExactlyWhen` | src/lib/ledger-db.ts:119-124 | the same for the whole table |
| `Ledger.SamePairSnapshotIsOff` | src/lib/ledger-db.ts:119-124 | a five-centime party share within AVAILABLE leaves a credit snapshot of 5 on a balance of 0 |
| `Ledger.BalanceDecomposes` | src/lib/ledger-db.ts:73-92 | credits summed apart less debits summed apart is the signed balance |
| `TenantBooks.TenantBooks.AccountBalance` | src/lib/ledger-db.ts:73-92 | the loop computes the account's signed sum over the whole table |
| `TenantBooks.TenantBooks.PostEntry` | src/lib/ledger-db.ts:104-183 | fails without a trace exactly for an invalid posting, and otherwise appends the two rows with both snapshots read first |
| `LedgerViews.ComputeBalances` | src/lib/ledger.ts:187-198 | every account's entry is the signed sum of its legs in the one currency |
| `LedgerViews.ComputeBalancesByCurrency` | src/lib/ledger.ts:176-184 | every currency's and account's entry is the signed sum of its legs |
| `LedgerViews.BalanceOfAccount` | src/lib/ledger.ts:201-211 | one account's signed sum in one currency |
| `LedgerViews.IsBalanced` | src/lib/ledger.ts:214-221 | true exactly when every currency nets to zero, although the map holds only the currencies seen |
| `LedgerViews.ViewsAgreeWithTable` | src/lib/ledger-db.ts:194-227 | the batch views over a table's legs and the sums read off the table are the same numbers |
| `LedgerViews.FoldIsNetPlusForeign` | src/lib/ledger.ts:224-232 | folding applyPosting gives an account's balance in any chosen currency plus everything the other currencies put on it |
| `LedgerViews.FoldAgreesWithViews` | src/lib/ledger.ts:224-232 | on postings of one currency the incremental fold, the batch views and the posted table agree |
| `LedgerViews.FoldMixesCurrencies` | src/lib/ledger.ts:224-232 | with two currencies in the list the fold is neither currency's balance |
| `Fees.TierFor` | src/lib/fees.ts:76-107 | the chosen tier is one of the table and covers the amount whenever any does |
| `Fees.ComputeFee` | src/lib/fees.ts:76-107 | a fee that is computed is non-negative, and only for a non-negative amount |
| `Fees.ComputeTax` | src/lib/tax.ts:47-51 | no tax on a non-negative fee is negative |
| `Fees.ComputeReserve` | src/lib/settlement-policy.ts:60-72 | defined exactly for a non-negative gross, and never negative |
| `Fees.PlanCapture` | src/lib/settlement.ts:47-63 | fee, tax and reserve are non-negative and with the net add up to the gross |
| `Fees.NetNeverNegative` | src/lib/settlement.ts:47-63 | with percentage fee f, tax t on it and rolling reserve r, net >= 0 for every gross whenever 2f + 4ft + 2r <= 1 |
| `Fees.NetCanBeNegative` | src/lib/settlement.ts:47-63 | at f = r = 50 % a capture of one centime nets minus one |
| `Fees.TierIsFirst` | src/lib/fees.ts:76-107 | the tier charged by is the first whose bound covers the amount, or the last |
| `Fees.FeeMeaning` | src/lib/fees.ts:76-107 | a flat fee, a method's flat, or the integer nearest to the amount's share at the percentage or at that tier's; zero where nothing is configured |
| `Fees.FeeIsPricedExactlyWhen` | src/lib/fees.ts:58-107 | a fee can be computed if and only if the amount and the one number it is charged by are not negative |
| `Fees.PlanMeaning` | src/lib/settlement.ts:47-63 | fee and reserve are priced on the gross, tax on the fee, each the nearest integer; the net is what is left |
| `Fees.PlanIsPricedExactlyWhen` | src/lib/settlement.ts:47-63 | a capture is priced if and only if its fee is and the tax rate is not negative |
| `Shares.ComputeShares` | src/lib/splits.ts:98-122 | defined exactly for valid shares of a non-negative total, one amount per share, adding up to the total exactly |
| `Shares.ComputeSharesByLoop` | src/lib/splits.ts:98-122 | the sort and the in-place bonus loop compute that allocation |
| `Shares.HandOut` | src/lib/splits.ts:112-119 | the bonus loop gives one unit to each of the first `leftover` of the order, and to nobody twice |
| `Shares.OrderIsSortedPermutation` | src/lib/splits.ts:113 | the order lists every share once, by falling remainder and then rising party id |
| `Shares.LeftoverBounds` | src/lib/splits.ts:105-119 | there are fewer leftover units than shares, so the loop ends without wrapping around |
| `Shares.ChosenHaveLargestRemainders` | src/lib/splits.ts:106-119 | a share that gets a bonus unit has a larger remainder than every share that does not, or an equal one and no larger party id |
| `Shares.ChosenHaveRemainder` | src/lib/splits.ts:106-119 | a share whose ideal is a whole number never gets a bonus unit |
| `Shares.SharesNonNegative` | src/lib/splits.ts:98-122 | no share is negative |
| `Shares.WithinOneUnit` | src/lib/splits.ts:98-122 | every share is within strictly less than one centime of its ideal |
| `Shares.CloseDeviationsAreBest` | src/lib/splits.ts:98-122 | any allocation that no move of one centime between two shares improves is least squares among all of its total |
| `Shares.LeastSquares` | src/lib/splits.ts:98-122 | no other integer allocation of the same total has a smaller squared deviation from the ideals |
| `Shares.Split` | src/lib/splits.ts:136-143 | defined exactly for valid shares of a non-negative source; shares and platform add up to the source and the platform's part is non-negative |
| `Shares.BeneficiaryBounds` | src/lib/splits.ts:125-143 | the beneficiaries' rounded total lies between zero and the source |
| `Shares.BeneficiariesGetTheNearest` | src/lib/splits.ts:125-143 | the beneficiaries together get the integer nearest to their basis points of the source |
| `Shares.WithinThreeHalves` | src/lib/splits.ts:136-143 | through both roundings every share is within 3/2 centime of source * bps / 10000 |
| `Shares.LargerShareNeverLess` | src/lib/splits.ts:98-143 | a party with strictly larger bps never receives less |
| `Shares.EqualShareOfSmallerId` | src/lib/splits.ts:98-143 | of two equal shares the one of the smaller party id never receives less |
| `PayoutLedger.NetPayable` | src/lib/payout-db.ts:67-95 | the net payable amount is the AVAILABLE balance less every open payout less what earlier partial allocations stranded, and that remainder is never negative |
| `PayoutLedger.AllIsPayableExactlyWhen` | src/lib/payout-db.ts:67-109 | all that AVAILABLE holds beyond the open payouts is offered if and only if no live payout has taken only part of a credit |
| `Counterexamples.GrantIsSubtractedTwice` | src/lib/payout-db.ts:67-109 | a run of six transactions: 40 of a capture of 100 go to a wallet, 60 are paid out, 30 more come in; AVAILABLE is 30, no payout is open and a new one is refused for lack of funds |
| `PayoutLedger.SnapshotIsCovered` | src/lib/payout-db.ts:67-122 | a new snapshot is positive, exactly that amount, and leaves all open payouts of the currency covered by AVAILABLE |
| `PayoutLedger.SnapshotCommitsExactlyWhen` | src/lib/payout-db.ts:67-98 | a first snapshot under a key succeeds exactly when something is left beyond open payouts and stranded remainders once the foreign balances are in |
| `PayoutLedger.PayableAtMostUnpaid` | src/lib/payout-db.ts:67-95 | the payable amount never exceeds the unpaid credits the FIFO loop can draw on |
| `PayoutLedger.AllocationUpTo` | src/lib/payout-db.ts:100-109 | the items of a FIFO allocation add up to the payable amount as far as the unpaid credits reach, and other payouts' items are untouched |
| `PayoutLedger.FirstInFirstOut` | src/lib/payout-db.ts:98-108 | when a credit is reserved every older unpaid one is too, whole, and nothing is reserved at zero but a credit of zero |
| `PayoutLedger.SnapshotKeepsPayouts` | src/lib/payout-db.ts:100-122 | the new items make up the payout exactly, each within its own credit, and disturb no other payout |
| `PayoutLedger.DroppingKeepsPayouts` | src/lib/payout-db.ts:138-160 | cancelling or failing a payout that is not paid gives back exactly its items and keeps every payout equation |
| `PayoutLedger.DroppingUndoesSnapshot` | src/lib/payout-db.ts:67-160 | cancelling or failing a fresh payout restores the items table exactly and offers the next snapshot the same amount |
| `PayoutLedger.LateDropKeepsExactlyWhen` | src/lib/payout-db.ts:138-160 | the transaction of a cancellation or failure whose status check is out of date keeps the payout equations if and only if the payout has not been paid since |
| `Counterexamples.LateCancelOffersThePaid` | src/lib/payout-db.ts:138-147 | a payout of 100 paid between the check and the transaction of its cancellation ends CANCELLED with 100 in PAID_OUT, and the next payout is offered 100 with AVAILABLE at 0 |
| `PayoutLedger.ReleasedReserve` | src/lib/payout-db.ts:138-160 | releasing gives back exactly the payout's items, in its own currency only |
| `PayoutLedger.SettlementKeepsPayouts` | src/lib/payout-db.ts:168-210 | paying keeps every payout equation: PAID_OUT and PAYOUT debits are the paid payouts, each settled once |
| `PayoutLedger.PaymentIsFunded` | src/lib/payout-db.ts:168-210 | a payment leaves AVAILABLE non-negative and raises PAID_OUT by exactly its amount |
| `Movements.PaymentMoves` | src/lib/payout-db.ts:168-210 | paid exactly when open and covered by AVAILABLE; the amount moves from AVAILABLE to PAID_OUT, the payout is PAID, and nothing else changes |
| `Movements.CreatePayoutMoves` | src/lib/payout-db.ts:40-123 | a new payout moves on every account exactly what its sweep does; an existing or refused one moves nothing |
| `Idempotency.AlwaysIdentified` | src/lib/payout-db.ts:40-48 | in every reachable state no two payouts share a key, no two wallets an owner and no two disputes a provider id |
| `Idempotency.PayoutIsCreatedOnce` | src/lib/payout-db.ts:40-124 | a payout is stored under the key, in the currency asked for, as a draft of a positive amount; after any run its terms are the same and the same key returns it and changes nothing, whatever the currency and rates of the replay |
| `Idempotency.WalletIsCreatedOnce` | src/lib/wallet-db.ts:74-93 | the same for a wallet under its owner: empty, active, in the currency asked for |
| `Idempotency.DisputeIsCreatedOnce` | src/lib/reversals-db.ts:41-69 | the same for a dispute under its provider id: open, with the amount and currency of its first report |
| `Rows.RunKeepsRows` | src/lib/payout.ts:33-61 | over any run from any state no payout, wallet, split row or dispute changes its terms; a paid, failed or cancelled payout, a settled split and a resolved dispute never change again; transactions and receivables are only added |
| `Acceptance.CancelCommitsExactlyWhen` | src/lib/payout-db.ts:138-147 | a payout can be cancelled if and only if it is a draft, scheduled or pending; it then lets go of exactly its items |
| `Acceptance.FailCommitsExactlyWhen` | src/lib/payout-db.ts:149-160 | it can fail if and only if it is open; it then lets go of exactly its items |
| `Acceptance.AdvanceCommitsExactlyWhen` | src/lib/payout.ts:33-61 | it advances one state at a time, from draft to scheduled, pending and processing, and in no other way |
| `TenantBooks.AllocateFifo` | src/lib/payout-db.ts:98-109 | the loop with its running remainder is the FIFO allocation, and what it cannot cover is the shortfall of the unpaid credits |
| `TenantBooks.TenantBooks.DraftPayout` | src/lib/payout-db.ts:98-122 | the loop ends with nothing remaining and the payout is written with its key and its items |
| `TenantBooks.TenantBooks.CreatePayout` | src/lib/payout-db.ts:40-123 | sweep, snapshot and allocation as one transaction: the replay, the abort without a trace and the committed rows; keeps the database invariant |
| `TenantBooks.TenantBooks.CancelPayout` | src/lib/payout-db.ts:138-147 | the cancellation with both refusals; keeps the invariant |
| `TenantBooks.TenantBooks.MarkPayoutFailed` | src/lib/payout-db.ts:149-160 | the failure with both refusals; keeps the invariant |
| `TenantBooks.TenantBooks.MarkPayoutPaid` | src/lib/payout-db.ts:168-210 | the payment with its three refusals; keeps the invariant |
| `TenantBooks.TenantBooks.AdvancePayout` | src/lib/payout.ts:33-61 | a legal move between open states; keeps the invariant |
| `WalletLedger.MovementKeepsWallets` | src/lib/wallet-db.ts:128-155 | recording a movement keeps the sub-ledger equal to its control account when its postings put its signed amount on WALLET |
| `WalletLedger.TopUpKeepsWallets` | src/lib/wallet-db.ts:157-220 | a top-up on either commission basis keeps wallet rows, transactions and the WALLET account in step |
| `WalletLedger.DebitKeepsWallets` | src/lib/wallet-db.ts:222-288 | so does a debit on either basis |
| `WalletLedger.RefundKeepsWallets` | src/lib/wallet-db.ts:290-312 | so does a refund |
| `WalletLedger.AdjustKeepsWallets` | src/lib/wallet-db.ts:314-358 | so does an adjustment of either sign, zero included |
| `WalletLedger.CreateKeepsWallets` | src/lib/wallet-db.ts:74-93 | so does creating a wallet, or finding the owner's existing one |
| `Movements.TopUpMoves` | src/lib/wallet-db.ts:157-220 | CASH gives the gross, the wallet gains it less the load commission, FEES gain the commission; one transaction with the new balance is recorded and nothing else changes |
| `Movements.TopUpCommitsExactlyWhen` | src/lib/wallet.ts:79-150 | a top-up succeeds exactly when the wallet is active, the amount positive and, on the load basis, priced at less than itself |
| `Movements.DebitMoves` | src/lib/wallet-db.ts:222-288 | the wallet gives the amount, AVAILABLE gains it less the usage commission, FEES gain the commission; one transaction with the new balance is recorded and nothing else changes |
| `Movements.DebitCommitsExactlyWhen` | src/lib/wallet.ts:92-128 | a debit succeeds exactly when the wallet is active, holds the positive amount and, on the usage basis, the fee can be priced |
| `Movements.WalletRefundMoves` | src/lib/wallet-db.ts:290-312 | succeeds exactly for an active wallet and a positive amount; the amount moves from AVAILABLE to the wallet, one transaction is recorded and nothing else changes |
| `Movements.RefundUndoesDebit` | src/lib/wallet-db.ts:222-312 | a refund of a debited amount always succeeds and restores every wallet row; what stays moved is the commission, from AVAILABLE to FEES |
| `Movements.AdjustmentMoves` | src/lib/wallet-db.ts:314-358 | succeeds exactly when the wallet is active and stays non-negative; the signed amount moves between AVAILABLE and WALLET only |
| `TenantBooks.TenantBooks.CreateWallet` | src/lib/wallet-db.ts:74-93 | idempotent per owner; keeps the invariant |
| `TenantBooks.TenantBooks.LoadActiveWallet` | src/lib/wallet-db.ts:114-126 | the row, or which of the two refusals applies |
| `TenantBooks.TenantBooks.TopUpWallet` | src/lib/wallet-db.ts:157-220 | the transaction as a whole, with every refusal; keeps the invariant |
| `TenantBooks.TenantBooks.DebitWallet` | src/lib/wallet-db.ts:222-288 | the transaction as a whole, with every refusal; keeps the invariant |
| `TenantBooks.TenantBooks.RefundWallet` | src/lib/wallet-db.ts:290-312 | the transaction as a whole, with every refusal; keeps the invariant |
| `TenantBooks.TenantBooks.AdjustWallet` | src/lib/wallet-db.ts:314-358 | the transaction as a whole, with every refusal; keeps the invariant |
| `SplitLedger.MovesMatchRows` | src/lib/splits-db.ts:187-223 | what the share postings put on a party's account is what the rows written with them add up to |
| `SplitLedger.ExecuteKeepsSplits` | src/lib/splits-db.ts:167-223 | executing a split keeps each party's tagged RESERVE and AVAILABLE equal to its held and settled rows |
| `SplitLedger.ReleaseKeepsSplits` | src/lib/splits-db.ts:244-267 | so does releasing one |
| `SplitLedger.ReleasedAtMostOnce` | src/lib/splits-db.ts:244-267 | a split can be released if and only if it is held, so a second release always fails |
| `Movements.SplitMoves` | src/lib/splits-db.ts:167-223 | at capture the whole amount leaves COLLECTED, the platform's part for AVAILABLE; otherwise only the beneficiaries' part leaves AVAILABLE; the beneficiaries' part arrives on the held or the available account |
| `Movements.ReleaseMoves` | src/lib/splits-db.ts:244-267 | the row's amount moves from the party's RESERVE to its AVAILABLE, and the party's balances move by what the accounts move |
| `Acceptance.SplitCommitsExactlyWhen` | src/lib/splits.ts:80-95 | a split goes through if and only if the source is not negative and there are shares, of 1 to 10000 basis points each and at most 10000 together |
| `TenantBooks.TenantBooks.PostShares` | src/lib/splits-db.ts:187-206 | the loop posts one move and writes one row per beneficiary, in order |
| `TenantBooks.TenantBooks.ExecuteSplitInTx` | src/lib/splits-db.ts:167-223 | the loop and the platform's remainder together |
| `TenantBooks.TenantBooks.ExecuteSplit` | src/lib/splits-db.ts:141-147 | the transaction as a whole; keeps the invariant |
| `TenantBooks.TenantBooks.ReleaseSplit` | src/lib/splits-db.ts:244-267 | the transaction as a whole, with both refusals; keeps the invariant |
| `CaptureLedger.CaptureMeaning` | src/lib/settlement-db.ts:27-169 | every balance's change: CASH -gross; without a split COLLECTED min(net, 0) and AVAILABLE max(net, 0); with one COLLECTED 0 and AVAILABLE gross - fee - tax - reserve; fee, tax and reserve to their accounts; nothing else |
| `CaptureLedger.BeneficiariesUntouchedByFees` | src/lib/settlement-db.ts:66-105 | each party's AVAILABLE gains exactly its recorded shares of the gross |
| `CaptureLedger.CaptureLeavesItsMark` | src/lib/settlement-db.ts:34-48 | a settled capture always leaves the credit a replay looks for |
| `CaptureLedger.ReplayChangesNothing` | src/lib/settlement-db.ts:34-48 | once settled, settling the intent again changes nothing, however the ledger has grown and whatever the replay's amount or configuration |
| `CaptureLedger.SplitIsChargedOnTheRest` | src/lib/settlement-db.ts:76-147 | a split capture puts on FEES, TAX_PAYABLE and RESERVE the fee, tax and reserve of the gross less the rows it wrote for the beneficiaries |
| `CaptureLedger.SplitIsChargedLikeAPlainCapture` | src/lib/settlement-db.ts:76-147 | it charges those accounts exactly what a plain capture of that rest does under the same configuration |
| `Acceptance.CaptureSettlesExactlyWhen` | src/lib/settlement-db.ts:27-84 | it settles if and only if the amount is positive, the intent not settled and the charges can be priced; with nothing to do it changes nothing, and without a price it fails |
| `RefundLedger.RefundAcceptedExactlyWhen` | src/lib/refund-db.ts:39-80 | a first refund of any capture goes through exactly when something was credited and AVAILABLE still holds the first AVAILABLE credit: the net, or with a split the first beneficiary's share alone |
| `RefundLedger.RefundUndoesCapture` | src/lib/refund-db.ts:39-98 | any capture, anything from other sources, refund: every balance is what the others made it, except TAX_PAYABLE tax and, without a split, CASH -tax - min(net, 0) and COLLECTED min(net, 0) or, with one, CASH fee + reserve and AVAILABLE -(fee + tax + reserve) |
| `RefundLedger.RefundTakesBack` | src/lib/refund-db.ts:54-95 | the refund itself: each account gives what the capture credited it, CASH gets all of it |
| `RefundLedger.RefundLeavesPartiesAlone` | src/lib/refund-db.ts:81-95 | no refund moves a party-tagged balance |
| `RefundLedger.BeneficiariesKeepTheirShares` | src/lib/refund-db.ts:54-95 | after the refund of a split capture each beneficiary's AVAILABLE still holds its recorded shares |
| `RefundLedger.ExactInverseExactlyWhen` | src/lib/refund-db.ts:22-98 | the refund restores every balance exactly if and only if, without a split, no tax was charged and the net was not negative and, with one, there was no fee, tax or reserve |
| `RefundLedger.RefundMoves` | src/lib/refund-db.ts:54-95 | a refund of any capture, split ones included, takes from each account exactly what the intent's settlement credited to it and gives all of it to CASH; it overdraws AVAILABLE if and only if those AVAILABLE credits together exceed the balance |
| `RefundLedger.RefundOverdrawsExactlyWhen` | src/lib/refund-db.ts:67-95 | so it overdraws RESERVE, or any account but CASH, if and only if the intent's credits to it exceed what it still holds |
| `Counterexamples.RefundCanOverdrawReserve` | src/lib/refund-db.ts:67-95 | a capture of 100 with 40 in reserve, a dispute of 40 lost under DEBIT_RESERVE, the refund: it passes its guard and leaves RESERVE at -40 |
| `Counterexamples.TaxedRefundLeavesTheTax` | src/lib/refund-db.ts:22-98 | a capture of 100.00 with a fee of 1.00 and 20 % tax, refunded: TAX_PAYABLE keeps 0.20 and CASH is 0.20 short |
| `Counterexamples.SplitRefundTakesTheFeeTwice` | src/lib/settlement-db.ts:85-169 | a split capture of 1.00 with a fee of 0.10, refunded: AVAILABLE is at -0.10 and CASH at 0.10 |
| `Counterexamples.RefundCanOverdraw` | src/lib/refund-db.ts:67-80 | a run of five transactions: a split capture of 100 paid out, a capture of 60, and the refund of the first passes its guard of 50 and leaves AVAILABLE at -40 |
| `RefundLedger.SecondRefundIsNoOp` | src/lib/refund-db.ts:46-52 | a second call with the same refund id leaves the state alone |
| `TenantBooks.TenantBooks.SettleCapture` | src/lib/settlement-db.ts:27-169 | the transaction as a whole, split or not, with the replay check and the pricing errors; keeps the invariant |
| `TenantBooks.TenantBooks.PostCapture` | src/lib/settlement-db.ts:76-169 | gross, split, fee, tax, reserve and net in the order posted |
| `TenantBooks.TenantBooks.SettleRefund` | src/lib/refund-db.ts:39-98 | the transaction as a whole, with the replay check and the over-draw refusal; keeps the invariant |
| `TenantBooks.TenantBooks.ReverseCredits` | src/lib/refund-db.ts:82-95 | the loop over the settlement credits posts one reversal for each that is not empty |
| `Reversals.FundReversal` | src/lib/reversals.ts:70-116 | defined exactly for non-negative inputs; the three parts are non-negative and add up to the gross, RESERVE is never overdrawn, AVAILABLE exactly under ALLOW_NEGATIVE when the gross exceeds it, and a remainder means an invoice or drained accounts |
| `DisputeLedger.ResolvedAtMostOnce` | src/lib/reversals-db.ts:92-180 | after any committed resolve every further one fails |
| `DisputeLedger.ClawbackKeepsDisputes` | src/lib/reversals-db.ts:132-180 | a clawback keeps the equation: chargebacks plus receivable are the amount of a lost dispute, nothing of any other |
| `DisputeLedger.LossFunding` | src/lib/reversals-db.ts:92-180 | a loss leaves RESERVE non-negative, AVAILABLE negative exactly under ALLOW_NEGATIVE with a larger dispute, and CASH up by what was clawed |
| `DisputeLedger.LossCommitsExactlyWhen` | src/lib/reversals-db.ts:92-130 | a dispute can be lost if and only if it is open, of a non-negative amount, and neither AVAILABLE nor RESERVE is overdrawn, whatever the policy |
| `DisputeLedger.LossByPolicy` | src/lib/reversals.ts:70-116 | the two balances a loss leaves, policy by policy: NET_FROM_AVAILABLE takes what AVAILABLE has and leaves RESERVE, DEBIT_RESERVE empties RESERVE before it touches AVAILABLE, INVOICE_TENANT moves nothing, ALLOW_NEGATIVE takes all from AVAILABLE |
| `DisputeLedger.LossLeavesTheReceivable` | src/lib/reversals-db.ts:132-180 | what the two balances have not given is one receivable of the dispute, in its currency; nothing is added when they gave it all |
| `DisputeLedger.WinCommitsExactlyWhen` | src/lib/reversals-db.ts:92-118 | a dispute is won if and only if it is open, and that changes its status and nothing else |
| `Counterexamples.NegativeLossBlocksTheNext` | src/lib/reversals-db.ts:92-180 | AVAILABLE of 60, a dispute of 100 lost under ALLOW_NEGATIVE: AVAILABLE is at -40 and a dispute of 1 cannot be lost under any policy |
| `DisputeLedger.LateLossOverdrawsExactlyWhen` | src/lib/reversals-db.ts:112-180 | a clawback decided on balances that have changed since keeps the dispute equations, and overdraws AVAILABLE or RESERVE if and only if it was decided on more than is there |
| `Counterexamples.LateLossOverdraws` | src/lib/reversals-db.ts:112-180 | a dispute of 60 funded from an AVAILABLE of 100 that is paid out before the clawback: AVAILABLE is at -60 under NET_FROM_AVAILABLE |
| `Movements.LossMoves` | src/lib/reversals-db.ts:92-180 | exactly the funded parts leave AVAILABLE and RESERVE, and CASH gains the disputed amount less what is invoiced |
| `TenantBooks.TenantBooks.CreateDispute` | src/lib/reversals-db.ts:41-69 | idempotent per provider id; keeps the invariant |
| `TenantBooks.TenantBooks.ResolveWon` | src/lib/reversals-db.ts:92-118 | the transaction with both refusals; keeps the invariant |
| `TenantBooks.TenantBooks.ResolveLost` | src/lib/reversals-db.ts:92-180 | the transaction with every refusal; keeps the invariant |
| `FxSettlement.PlanFxConversion` | src/lib/fx-settlement.ts:65-124 | refused exactly for one currency twice or a negative amount or rate; the postings it plans are valid |
| `FxSettlement.PlanMeaning` | src/lib/fx-settlement.ts:65-124 | every currency nets to zero; the tenant gets exactly the locked conversion, the pool of `to` moves by minus the reference conversion, FEES book the difference, nothing else moves |
| `FxSettlement.PlanConverts` | src/lib/fx-settlement.ts:65-124 | the tenant is credited the integer nearest to amount * locked / 10^8, a tie going up, and the pool of the target currency gives up the integer nearest to amount * reference / 10^8 |
| `FxSettlement.SweepMeaning` | src/lib/fx-settlement-db.ts:37-75 | every account in every currency after a sweep: each positive foreign AVAILABLE is exactly zero and its currency's CASH has it, the settlement AVAILABLE has gained the conversions and its CASH given them, and nothing else has moved |
| `FxSettlement.SweepConverts` | src/lib/fx-settlement-db.ts:37-75 | every positive foreign balance is converted once, whole, to the integer nearest to its worth at its own rate, and the settlement balance gains their sum |
| `FxSettlement.BalanceAtItsTurn` | src/lib/fx-settlement-db.ts:37-75 | no conversion changes a balance a later turn of the loop will read |
| `FxSettlement.SweepStep` | src/lib/fx-settlement-db.ts:45-72 | one turn of the loop on the balance it reads is one step of the planned sweep |
| `FxSettlement.SecondSweepPostsNothing` | src/lib/fx-settlement-db.ts:37-75 | a second sweep posts nothing, whatever the rates have become |
| `TenantBooks.TenantBooks.ConvertForeignBalances` | src/lib/fx-settlement-db.ts:37-75 | the loop reading each balance when its turn comes is the sweep planned on the balances before it, with one summary line per conversion |
| `Transactions.CreatePayoutKeepsInv` | src/lib/payout-db.ts:40-123 | creating a payout keeps every sub-ledger in step with the ledger |
| `Transactions.PaidKeepsInv` | src/lib/payout-db.ts:168-210 | so does paying one |
| `Transactions.TopUpKeepsInv` | src/lib/wallet-db.ts:157-220 | so does a wallet top-up |
| `Transactions.DebitKeepsInv` | src/lib/wallet-db.ts:222-288 | so does a wallet debit |
| `Transactions.ExecuteSplitKeepsInv` | src/lib/splits-db.ts:167-223 | so does a split |
| `Transactions.ReleaseKeepsInv` | src/lib/splits-db.ts:244-267 | so does a release |
| `Transactions.CaptureKeepsInv` | src/lib/settlement-db.ts:27-169 | so does a capture, split or not |
| `Transactions.RefundKeepsInv` | src/lib/refund-db.ts:39-98 | so does a refund |
| `Transactions.LostKeepsInv` | src/lib/reversals-db.ts:92-180 | so does a lost dispute |
| `Runs.RunKeepsInv` | src/lib/ledger-db.ts:104-183 | every state reachable by any run of the seventeen transactions, in any order with any arguments, satisfies the database invariant |
| `Runs.LedgerAlwaysBalances` | src/lib/ledger-db.ts:94-183 | in every reachable state every currency nets to zero and every snapshot is right except the same-account credits |
| `Runs.PaidOutIsThePaidPayouts` | src/lib/payout-db.ts:168-210 | in every reachable state PAID_OUT is the sum of the paid payouts, each settled by exactly one posting and no other payout by any, and no item exceeds its credit |
| `Runs.SnapshotsAreCovered` | src/lib/payout-db.ts:67-122 | in every reachable state a new snapshot is AVAILABLE less open payouts less stranded remainders, and with it all open payouts stay covered |
| `Runs.WalletsMatchControlAccount` | src/lib/wallet-db.ts:128-358 | in every reachable state the wallets of a currency add up to its WALLET account, each balance is the non-negative sum of its transactions, and each transaction snapshot is the running sum, even if the commission basis changes |
| `Runs.PartiesMatchSplits` | src/lib/splits-db.ts:167-267 | in every reachable state each party's tagged RESERVE and AVAILABLE are its held and settled rows, and no split has been released twice |
| `Runs.DisputesClawedOnce` | src/lib/reversals-db.ts:92-180 | in every reachable state chargebacks plus receivable of a dispute are its amount if lost and zero otherwise |
| `Runs.RunExtends` | src/lib/ledger-db.ts:104-183 | no run changes or removes a ledger row |
| `Journal.AlwaysOnTheChart` | src/lib/settlement-db.ts:50-169 | every posting of every reachable ledger moves between the accounts its category allows, and is for a row that is there in its currency: a paid payout in full, a settled split to its party, a lost dispute, a wallet, a capture, a refund, a conversion |
| `Journal.PlanIsCharted` | src/lib/fx-settlement.ts:85-120 | a conversion at any two rates is an adjustment between CASH and AVAILABLE, and its gain or loss an FX adjustment between CASH and FEES |
| `Journal.StepPostsItsKinds` | src/lib/settlement-db.ts:50-169 | from any state, each of the seventeen transactions adds only postings between its own accounts in its own categories, all filed under its own source |
| `Runs.ReplayAfterAnyRun` | src/lib/settlement-db.ts:34-48 | after a capture and any run, settling its intent again changes nothing |
| `Runs.RefundReplayAfterAnyRun` | src/lib/refund-db.ts:46-52 | after a refund that posted and any run, its refund id changes nothing, whatever intent it names |
| `Runs.CapturedThenAnyRun` | src/lib/settlement-db.ts:79-82 | in a run whose operations file no split under a settled intent, nothing more is posted under it |
| `Runs.RefundAfterAnyRun` | src/lib/refund-db.ts:39-98 | any capture, any run whose operations file no split under its intent, refund: every balance is what the run made it up to the residue, and is restored if and only if the capture is one a refund undoes |
| `IntentLock.NextKeepsLock` | src/lib/intent-actions.ts:59-65 | any step of any action keeps: one lock holder at most, the row PROCESSING while there is one, one provider action at most |
| `IntentLock.ExclusiveExactlyWhen` | src/lib/intent-actions.ts:71-213 | over every interleaving of any number of captures and voids: one holder at a time, one provider action in all and never both a capture and a void, if and only if no adapter reports AUTHORIZED on success and no rejected call is carried out |
| `IntentLock.CaptureThenVoid` | src/lib/intent-actions.ts:115-133 | a capture reported as AUTHORIZED can be followed by a void that the provider carries out |
| `IntentLock.RejectedCaptureThenVoid` | src/lib/intent-actions.ts:115-119 | so can a capture that was rejected and is carried out all the same: the rejection gives the lock back |
| `Adapters.SuccessIsFinal` | src/lib/status-maps.ts:11-66 | with a success Stripe and VPS report SUCCEEDED or CANCELED, the demo adapter nothing |
| `Adapters.SettlementInFlightIsVoided` | src/adapters/vps.adapter.ts:222-241 | a SETTLE answered SETTLEMENT_PROCESSING, which the status map calls in flight, is taken for a rejection; the row is AUTHORIZED again and a void goes through |
| `Adapters.VoidedIsCaptured` | src/adapters/vps.adapter.ts:246-261 | a void answered VOIDED, which the status map calls CANCELED, is taken for a rejection; the row is AUTHORIZED again and a capture goes through |
| `Adapters.TakenForRejectionsExactlyWhen` | src/adapters/vps.adapter.ts:222-261 | the answers taken for a rejection that the status map calls in flight are those and no others, and those it calls done are CANCELLED, CANCELED and VOIDED to a void of VPS |
| `Adapters.VpsMappedExactlyWhen` | src/lib/status-maps.ts:11-51 | the status map read backwards: which statuses of VPS make each status of the row |
| `Adapters.DeployedAreExclusiveExactlyWhen` | src/adapters/vps.adapter.ts:222-261 | with the deployed adapters exclusion holds over every run if and only if no call is carried out that was answered as in flight, or as done in a word the adapter does not look for |
| `IntentLock.PerformedIsFinal` | src/lib/intent-actions.ts:77-133 | under that condition, once the provider has acted no later step makes it act again or makes the row lockable |
| `IntentLock.WedgesExactlyWhen` | src/lib/intent-actions.ts:102-133 | the steps that leave an intent PROCESSING with no holder are exactly a missing configuration, an exception, a crash and a success reported as PROCESSING |
| `IntentLock.WedgedForever` | src/lib/intent-actions.ts:77-100 | such an intent can never be moved again by captures or voids |
| `IntentLock.SoloMeaning` | src/lib/intent-actions.ts:71-213 | what one undisturbed capture or void comes to, by what it finds and what the provider replies: without a reported status a capture ends SUCCEEDED and a void CANCELED |
| `IntentLock.PaymentIntent.Act` | src/lib/intent-actions.ts:71-213 | one undisturbed capture or void is the machine's steps; it succeeds exactly when the row was AUTHORIZED, nothing was missing and the provider accepted, and is otherwise refused with the first reason that applies |
| `Billing.OwedClosedForm` | src/lib/billing.ts:19-41 | after k payments the debt is the grown principal less the grown payments |
| `Billing.RepaysExactlyWhen` | src/lib/billing.ts:19-41 | a payment repays within the term exactly when it is at least the unrounded amortised payment, and overpays by its excess grown every month |
| `Billing.LeastRepayingInstallment` | src/lib/billing.ts:19-41 | with interest the instalment is the least payment in whole centimes that repays the loan within the term |
| `Billing.OverpaymentBound` | src/lib/billing.ts:19-41 | with interest the final debt is not positive and the overpayment is less than 0.01 a month grown at the loan's rate |
| `Billing.AnnuityTimesRate` | src/lib/billing.ts:29-41 | one unit a month grows to ((1 + r)^n - 1) / r |
| `Billing.NeverShort` | src/lib/billing.ts:19-48 | with interest n instalments collect at least the principal and the total interest is not negative |
| `Billing.InterestIsExact` | src/lib/billing.ts:43-48 | on a principal in whole centimes the total interest is exactly the n instalments less the principal |
| `Billing.InstallmentAtTheEdges` | src/lib/billing.ts:19-48 | an instalment is defined exactly for a positive term, zero on no principal, and that of zero interest when the growth over the term is one; without interest the total interest is zero |
| `Billing.ZeroAprInstallment` | src/lib/billing.ts:26-28 | without interest the instalment is the principal in centimes over the term, rounded to nearest |
| `Billing.ZeroAprCollects` | src/lib/billing.ts:26-28 | without interest n instalments miss the principal by at most n/2 centimes, and reach it if and only if the remainder on the term is zero or at least half the term |
| `Billing.ZeroAprCanFallShort` | src/lib/billing.ts:26-28 | 100.00 over three months collects 99.99 |
| `Reconciliation.ByRef` | src/lib/reconciliation.ts:127-142 | the map holds exactly the references seen, each with the sum of its lines |
| `Reconciliation.SortRefs` | src/lib/reconciliation.ts:142-143 | the references in ascending order, each once |
| `Reconciliation.ListIsUnique` | src/lib/reconciliation.ts:142-143 | there is only one such order |
| `Reconciliation.Reconcile` | src/lib/reconciliation.ts:122-183 | the maps, the sort and the classifying loop produce the three lists and, as totals, the sums of the raw inputs |
| `Reconciliation.SumOverIsAll` | src/lib/reconciliation.ts:152-182 | adding up per reference loses nothing of the raw sum |
| `Reconciliation.Partition` | src/lib/reconciliation.ts:145-173 | every reference of either side is in exactly one list, once and in order, with its sums |
| `Reconciliation.NetIsExplained` | src/lib/reconciliation.ts:149-182 | the net difference is the differences of the matches plus missingInternal less missingExternal |
| `Reconciliation.OnlySumsMatter` | src/lib/reconciliation.ts:122-183 | the outcome depends on nothing but the sums per reference |
| `Reconciliation.OrderDoesNotMatter` | src/lib/reconciliation.ts:122-183 | permuting either input changes nothing |
| `Reconciliation.Antisymmetric` | src/lib/reconciliation.ts:122-183 | swapping the inputs swaps the missing lists and the totals and turns every difference |
| `Reconciliation.CleanExactlyWhen` | src/lib/reconciliation.ts:106-112 | clean if and only if both sides have the same references with the same sums |
| `ReconciliationRuns.BuildInternalLines` | src/lib/reconciliation-db.ts:99-113 | one line per source with the sum of its debit legs |
| `ReconciliationRuns.OutcomeByRef` | src/lib/reconciliation-db.ts:158-175 | the table built from the matches and then the missing references covers every reference of the statement with its outcome |
| `ReconciliationRuns.Report.RunAgainst` | src/lib/reconciliation-db.ts:120-201 | refused exactly for a RESOLVED report; otherwise every line, the status and the summary are those of the match |
| `ReconciliationRuns.Report.UpdateLines` | src/lib/reconciliation-db.ts:178-189 | every line gets its reference's outcome; none is skipped |
| `ReconciliationRuns.Report.Resolve` | src/lib/reconciliation-db.ts:204-215 | closes every report that is not closed |
| `ReconciliationRuns.RerunChangesNothing` | src/lib/reconciliation-db.ts:115-201 | running again on an unchanged ledger leaves the report exactly as it is |
| `ReconciliationRuns.RunsForgetTheirPast` | src/lib/reconciliation-db.ts:115-201 | what a run leaves depends on the statement and the ledger alone, never on earlier runs |
| `ReconciliationRuns.MatchedExactlyWhen` | src/lib/reconciliation-db.ts:130-140 | MATCHED if and only if every line is EXACT and the ledger names no source the statement lacks |
| `ReconciliationRuns.LinesAreClassified` | src/lib/reconciliation-db.ts:158-189 | each line is UNMATCHED, EXACT or AMOUNT_DIFF by whether the ledger has its reference and with the same total, and holds what is booked and the difference |
| `ReconciliationRuns.SummaryMeaning` | src/lib/reconciliation-db.ts:142-156 | the summary counts the references both sides agree on and those they differ on, lists those either side lacks and totals both sides |
| `ReconciledLedger.BatchAddsWhatItMoves` | src/lib/reconciliation-db.ts:93-113 | the line of a reference gains exactly what the postings of its sources move |
| `ReconciledLedger.PayoutLineIsItsAmount` | src/lib/reconciliation-db.ts:93-113 | the line of a paid payout gains exactly its amount |
| `ReconciledLedger.CaptureLineIsTwiceTheGross` | src/lib/reconciliation-db.ts:93-113 | the line of a capture gains gross + fee + tax + reserve and the positive net or, with a split, the gross again: at least twice the gross, and exactly twice if and only if the net is not negative or, with a split, nothing is charged |
| `ReconciledLedger.GrossNeverMatches` | src/lib/reconciliation-db.ts:93-140 | a statement that lists a capture at its gross is UNMATCHED and no line of that reference is EXACT, however the ledger grows after the capture |
| `Counterexamples.CaptureIsReconciledTwice` | src/lib/reconciliation-db.ts:93-140 | a capture of 100 without charges has a line of 200, and a statement of 100 is UNMATCHED |
| `Velocity.MemoryVelocityStore.Prune` | src/lib/risk.ts:102-110 | keeps exactly the times at or after the cutoff, of that key only |
| `Velocity.MemoryVelocityStore.Add` | src/lib/risk.ts:90-95 | the store holds what is left of the key's history of adds and counts, this add included; other keys are as they were |
| `Velocity.MemoryVelocityStore.Count` | src/lib/risk.ts:97-100 | the number of the key's times left at or after the cutoff; the count itself joins the history, since it prunes |
| `Velocity.Evaluator.Evaluate` | src/lib/risk.ts:139-144 | counts before recording, on a store that others may be calling too; the score is what the store has left of the tenant's whole history |
| `Velocity.CountsAgreeExactlyWhen` | src/lib/risk.ts:87-111 | for any sequence of adds and counts with any times and windows: the store never counts more than an unpruned log, and counts the same if and only if no call dropped an event of the window added before it |
| `Velocity.LatestQueryIsExact` | src/lib/risk.ts:87-111 | a query whose window starts no earlier than that of every call before it counts every event of its window |
| `Velocity.ScoreIsPriorInWindow` | src/lib/risk.ts:129-144 | the score is then the number of the tenant's events added before in the window |
| `Velocity.VerdictExactlyWhen` | src/lib/risk.ts:62-76 | blocked if and only if the amount is over its maximum, otherwise to be reviewed if and only if the tenant already had the maximum of events in the window, each with its one reason |
| `Velocity.BackwardsUndercounts` | src/lib/risk.ts:87-111 | after an event at 0 s, an event or a mere count at 2 s makes a query at 0.5 s miss the first |
| `Instalments.RunDunningLadder` | src/lib/dunning.ts:241-275 | attempts are 1..k without gaps; exactly one end: the first success, a stop before a retry, or exhaustion after all; with no stop the end is that of the first success; every failure but the last possible one is reported |
| `Instalments.NextKeepsChain` | src/jobs/installmentCharge.inngest.ts:28-145 | every step of the chain keeps its counting, ladder and status invariant, with any number of activations and cancellations, and a booking, between their read and their write |
| `Instalments.ChainAlwaysCounts` | src/jobs/installmentCharge.inngest.ts:28-145 | over every interleaving: the instalments collected are 1, 2, … without gaps, those booked and one not yet booked; paidCount never exceeds them or the total; the outstanding instalment is the next; ladders are contiguous with at most one success, the last |
| `Instalments.PaidCountIsRightExactlyWhen` | src/jobs/installmentCharge.inngest.ts:97-125 | paidCount is the number of instalments collected, save one not yet booked, if and only if no activation's late write stands: one after a second instalment was booked, until a booking that had read the count before it is written |
| `Instalments.OverlappingActivationsOvercharge` | src/jobs/webhookProcessor.inngest.ts:356-416 | two activations that both read PENDING_CHECKOUT, the second writing after instalment 2 is booked: a fourth instalment of three is collected |
| `Instalments.BookingOutlivesCancellation` | src/jobs/installmentCharge.inngest.ts:97-116 | the last booking has read 2 of 3 when a late activation resets paidCount to 1 and the agreement is cancelled: its write makes it COMPLETED with 3 paid, as many as collected |
| `Instalments.SerialChainCounts` | src/jobs/installmentCharge.inngest.ts:97-145 | with activations one at a time, cancellations at will: the rows collected are paidCount and one not yet booked, never above the total, and an ended chain is paid off exactly when paidCount is the total |
| `Instalments.DefaultedExactlyWhen` | src/jobs/installmentCharge.inngest.ts:81-89 | over every interleaving: the chain ends by giving up if and only if some instalment failed four times and the default is booked; DEFAULTED only then, COMPLETED only once the whole total is collected |
| `Instalments.EndsPaidOrDefaulted` | src/jobs/installmentCharge.inngest.ts:28-145 | without cancellation and with activations one at a time, an activated agreement with nothing outstanding is COMPLETED with all paid or DEFAULTED with some unpaid |
| `Instalments.EndIsFinalExactlyWhen` | src/routes/installmentAgreements.ts:105-133 | a COMPLETED or DEFAULTED agreement keeps its status for ever if and only if no activation and no cancellation has read the status and not yet written it |
| `Instalments.CompletionCanBeLost` | src/routes/installmentAgreements.ts:105-133 | the last payment booked between a cancellation's read and its write: a paid-off agreement ends CANCELLED |
| `Instalments.CancellationIsLostExactlyWhen` | src/jobs/installmentCharge.inngest.ts:28-116 | a cancellation can still be overwritten if and only if an activation is yet to write or complete, or the ladder is past its last status check with the last payment or the last failure to come, a booking that has read the count by what it has read |
| `Instalments.CancellationCanBeLost` | src/jobs/installmentCharge.inngest.ts:97-116 | cancelled between the last charge and its booking, an agreement ends COMPLETED |
| `Agreements.Agreement.ActivateAgreement` | src/jobs/webhookProcessor.inngest.ts:356-416 | an undisturbed activation is the chain's three steps; one that finds the agreement activated changes nothing |
| `Agreements.Agreement.WriteActivation` | src/jobs/webhookProcessor.inngest.ts:371-396 | the transaction is the chain's step, whatever has happened since the status was read |
| `Agreements.Agreement.BeginCharge` | src/lib/dunning.ts:139-176 | the status and configuration checks of an attempt: it goes on to the provider or has failed without a row |
| `Agreements.Agreement.RecordCharge` | src/lib/dunning.ts:178-218 | the provider's answer is written to the instalment's row, whatever the status has become |
| `Agreements.Agreement.WriteBooking` | src/jobs/installmentCharge.inngest.ts:101-125 | one more than the booking has read is written, whatever the count has become; complete at the total, otherwise the next instalment is due |
| `Agreements.Agreement.OnInstallmentSuccess` | src/jobs/installmentCharge.inngest.ts:97-145 | an undisturbed booking is the read and the write; one more is paid, and the agreement is complete at the total |
| `Agreements.Agreement.BeginCancellation` | src/routes/installmentAgreements.ts:105-116 | allowed exactly while the agreement is active or pending checkout |
| `InstalmentJobs.JobMeaning` | src/jobs/installmentCharge.inngest.ts:28-145 | a job on an active agreement, over what its attempts meet: with the first success after k failures the attempts are those k + 1, the row is CHARGED at attempt k + 1, one more instalment is booked and the agreement is COMPLETED at its total or else the next instalment is due; without one, four failures, the row of the last attempt that reached the provider, and DEFAULTED |
| `InstalmentJobs.JobOfAnOverAgreement` | src/jobs/installmentCharge.inngest.ts:36-44 | a charge event delivered to an agreement that is over charges nothing and changes no row |
| `InstalmentJobs.CancellationMeaning` | src/routes/installmentAgreements.ts:105-133 | an undisturbed cancellation makes an active or pending agreement CANCELLED and changes nothing else; any other agreement it leaves alone |
| `InstalmentJobs.CancelledAsleep` | src/jobs/installmentCharge.inngest.ts:66-76 | cancelled while its job sleeps after k + 1 failures, an agreement stays CANCELLED: no further attempt, no charge, no default |
| `InstalmentJobs.CancelledIsChargedNoMore` | src/lib/dunning.ts:139-163 | cancelled with no charge under way and no activation in flight, it is never charged again, whatever happens |
| `InstalmentJobs.PaidOffByLuckyJobs` | src/jobs/installmentCharge.inngest.ts:28-145 | an activation and jobs that each have a successful attempt, one per further instalment: COMPLETED, with every instalment collected and counted |
| `InstalmentJobs.DefaultedByTheFirstUnlucky` | src/jobs/installmentCharge.inngest.ts:77-89 | the first job without a successful attempt leaves the agreement DEFAULTED with the instalments before it collected, whatever jobs come after it |
| `Agreements.Agreement.RunJob` | src/jobs/installmentCharge.inngest.ts:28-92 | one delivered event run undisturbed is the chain's steps over what it meets, and has that outcome |
| `Statements.BuildStatement` | src/lib/statements.ts:99-144 | refused exactly for an empty period; opening and closing balances before its ends, net what the period moved, one item per category with a debit in it |
| `Statements.NetIsTheWindow` | src/lib/statements.ts:113-143 | the difference of the two running balances is what the period itself moved |
| `Statements.AdjacentPeriodsAdd` | src/lib/statements.ts:99-144 | cutting a period in two cuts its net and every category's volume and count in two |
| `Statements.EntryCounts` | src/lib/statements.ts:99-144 | an entry counts in the period it starts or falls in and not in the one it ends; a credit of AVAILABLE raises the balance, a debit lowers it, and a debit of any account counts once in its category |

## Left out

- HTTP routes, request schemas, provider adapters (but for what they make of the answer to a capture or a void), webhook signatures, encryption, masking, seeds: plumbing around the engine.
- Postgres, Prisma and Inngest: each transaction body is one atomic step, and an event is delivered at most once.
- Concurrent interleavings of settlement calls: the advisory locks are not modelled, and in a run the reads made outside a transaction (`resolveDispute`, `cancelPayout`, `markPayoutFailed`) are taken as part of it. What such a transaction does when they are out of date is proved apart.
- `TenantBooks.TenantBooks.CancelPayout`: checks the status inside the transaction, where the source does so before it; `PayoutLedger.LateDropKeepsExactlyWhen` says what a late one does.
- `TenantBooks.TenantBooks.MarkPayoutFailed`: the same.
- `TenantBooks.TenantBooks.ResolveLost`: reads the balances inside the transaction, where the source does so before it; `DisputeLedger.LateLossOverdrawsExactlyWhen` says what a late one does.
- Identifiers: rows are known by their position, parties, sources and references by numbers. `FromCaller` stands for any source a caller of the split endpoint makes up that is not one of the engine's own.
- Timestamps of ledger rows: oldest first is append order. The refund's query asks for no order; the model reads it oldest first too.
- The `Decimal(12,2)` range, floating point and the eight-decimal formatting of rates.
- Configuration tables (fee schedules, policies, tax, split rules, commission basis, settlement currency): a transaction takes what it would have found there as a parameter, so a run may change it at every step. Policies are the ones `validatePolicy` accepts.
- Live rates, quotes and their expiry, ECB parsing: rates are parameters, one per currency; in the sweep the locked and the reference rate are the same, as in the source.
- Wallet statuses other than ACTIVE have no writer in the modelled code; loading refuses them.
- Records aliased between the sorted list and the parts in `computeShares`: the loop works on an array of amounts through a list of positions.
- Thresholds, scheduling and recipients of payouts, split parties, notifications, audit rows: no effect on balances.
- `TenantBooks.TenantBooks.AdvancePayout`: models the transition table of `payout.ts`; no caller in the repository moves a payout between open states.
- `TenantBooks.TenantBooks.MarkPayoutPaid`: does not model the provider transfer that comes before it.
- `IntentLock.PaymentIntent.Act`: does not model the audit row and the settlement call after a successful capture; settlement is `Books.SettleCapture`.
- `IntentLock.ExclusiveExactlyWhen`: does not model other writers of the intent's status, such as webhooks and the poller.
- `Adapters.DeployedAreExclusiveExactlyWhen`: does not model the provider: a call answered as refused, failed or awaiting the customer is taken not to be carried out.
- `Instalments.ChainAlwaysCounts`: does not model a job that dies between two steps, which the source leaves to Inngest's durable steps; and a charge event sent twice under its fixed id is delivered once, however late.
- `Instalments.RunDunningLadder`: does not model the side effects of its callbacks; those of the instalment job are the steps of the chain.
- `Reconciliation.Reconcile`: does not model strings as references; only their equality and order matter.
- `Velocity.Evaluator.Evaluate`: does not model the database-backed count that production uses.
- `Statements.BuildStatement`: does not model the order of the items by category name, nor the mixing of currencies in the database wrapper.
- Subscription billing, the other dunning callbacks, the daily sweep, risk thresholds, onboarding, the other status maps and webhook guards: readable from one branch or one table.
