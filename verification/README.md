# Vexaro logistics: verified models of the money, cache and workflow code

This project models the parts of the Vexaro shipping back end where state, concurrency or rounding make mistakes
likely, and proves what they guarantee. `dafny verify dfyconfig.toml` checks everything. Nothing here was executed.

| files | subject |
|---|---|
| `Payments`, `PaymentSafety`, `PaymentRuns`, `PaymentRefunds`, `PaymentWitnesses` | Razorpay top-ups: checkout verifications, captured, failed and refund webhooks, refunds and blind saves, interleaved over one store; runs that go wrong |
| `Wallets`, `WalletSteps`, `TopupPolicy` | wallet transactions and their ledger, as database transactions and as interleaved steps; the top-up policy and its reserve |
| `CacheEntries`, `CacheOperations`, `ValidationCache`, `CacheRecency`, `CacheHistory`, `CachedValidator` | the validation cache: bookkeeping, its refinement of a recency list, what each strategy evicts over a run, and the memoizing wrapper |
| `Idempotency`, `RateLimit`, `TransactionRetry` | the idempotency lock, the fixed-window rate limiter, the transaction retry loop |
| `Pricing`, `VelocityTax`, `Rounding` | shipping prices with chained rounding, tax percentages, `toFixed` and `Math.round` |
| `Csv`, `Sanitizer` | the CSV export with an RFC 4180 reader that inverts it; string and file name sanitizing |
| `Shipments`, `Tickets` | the shipment status machine and save hook; least-loaded ticket assignment |
| `Prelude`, `Sorting` | stock types, counting, and JavaScript's stable sort |

Source objects that change in place are classes whose methods are proved against functions on values; what the
source promises is then proved about those functions, over whole runs. Money and weights are exact reals or integer
paise. Actors that interleave are modelled as steps over a shared state; what an actor loaded earlier is its snapshot.
`toFixed(2)` and `Math.round` follow ECMA-262 (sections 21.1.3.3 and 21.3.2.28), the CSV reader follows section 2 of
RFC 4180 with LF line ends, and the 429 with its Retry-After is that of section 4 of RFC 6585.

## What the proofs found

Each of these is proved of the code as it stands, with an input that fails where something fails, and with the exact
condition where there is one.

- Recovering a FAILED payment in checkout verification (`razorpay.service.js:374-394` says it is allowed) never credits:
  the claim looks for PENDING. Only the captured webhook recovers. (`CheckoutRecoveryNeverCredits`, `CheckoutRecoveryIsReached`,
  `RecoveryCreditsNothing`)
- A failure saved from a stale copy overwrites SUCCESS. The credit and its `transactionId` stay, so no money is credited
  twice, but the payment never becomes SUCCESS again, and every refund asked for from then on is refused.
  (`BlindFailureHidesCreditIff`, `BadSignatureCanHideCredit`, `HiddenCreditStaysHidden`)
- SUCCESS is lost to such a save or to a refund's mark, and to nothing else. (`SuccessLostIff`, `SuccessStaysIff`)
- A REFUNDED payment becomes FAILED exactly when such a save hits it, and that takes no stale copy: a verification with a bad
  signature is enough. (`RefundedStaysIff`, `BadSignatureUnmarks`)
- A refund marks the payment before the wallet is debited, and keeps the mark when the debit is refused. The wallet is debited for a
  payment at most once, at every point of a run and however its refunds end, exactly when no refund is let through while another
  of the same payment has not saved its mark. (`RefundDebitsIff`, `RefusedDebitLeavesRefunded`, `RefundedOnceIff`,
  `OverlapReachesTwoDebits`, `OverlappingRefundsBothDebit`, `RefundedTwice`)
- The refund webhook moves no money and marks a payment REFUNDED whether or not it was credited. In a run every REFUNDED payment
  had its credit throughout exactly when no webhook marks one that had not. (`RefundWebhookMovesNoMoney`, `RefundedMeansCreditedIff`,
  `UncreditedMarkedRefunded`)
- A wallet with two recharges can hold less than the 1000 reserve. Transfers from a distributor count as recharges but are
  not checked against the top-up policy (`wallet.service.js:97-128`), and a Razorpay order is checked when it is placed, not when it
  is credited (`razorpay.service.js:298`). The reserve is held throughout a run exactly when no accepted second recharge leaves
  the balance below it. (`ReserveHeldThroughoutIff`, `PaymentsKeepReserveIff`, `UncheckedTransfersVoidTheReserve`, `TwoOrdersVoidTheReserve`)
- Ledger rows written outside a database transaction need not lie in the order of the balance changes they record. They do
  exactly when every row written was that of the oldest change not recorded, and then they chain as they lie; one transaction at
  a time they always do. (`RowsMayLieOutOfOrder`, `RowsInOrderIff`, `RowsInOrderChain`, `RowsChainAsTheyLie`)
- The quote a merchant gets for the weight of a booking has the margin of its distributor, but not the markup that the booking adds.
  (`QuoteOmitsMarkup`)
- Tax percentages with four decimals lose no tax exactly up to a taxable amount of 10000.00. (`TaxRoundTrip`)
- `sanitizeString` with trimming and a maximal length is idempotent exactly when the cut does not fall right after white space.
  (`SanitizeWithLimit`, `SecondPassTrimsMore`)
- A handler that ends with 500 or more frees its key only if the delete goes through, and one below 500 is replayed only if its write
  does. Where either is lost the key answers 409 until its record expires. (`EndedOtherwiseRunsAgainIff`, `EndedBelow500IsReplayed`)
- The cached validator answers like the plain one, on every call of every run, exactly when data that share a key share the
  results that can be stored: with the cache enabled, successful, and no larger than the memory limit. (`CachedIsPlainIff`)
- `finance.model.js:130` declares `reference` unique, but `create-indexes.js:52-54` builds the index without it. No proof here
  uses a unique `reference`; the unique index on `razorpayPaymentId` is modelled, and the payment results need the gateway
  to give each payment id one order.

## Model

| member | source | states |
|---|---|---|
| `Payments.ToPaise` | src/modules/finance/razorpay.service.js:63-73 | an accepted amount is within 1e-6 rupees of a whole, non-negative number of paise |
| `Payments.ToPaiseIff` | src/modules/finance/razorpay.service.js:63-73 | exactly the positive amounts that near to whole paise are accepted |
| `Payments.OrderAcceptedIff` | src/modules/finance/razorpay.service.js:273-338 | which orders are accepted, in closed form: whole paise, the maximum, an open wallet, the range for its next recharge, a new id; and the pending payment that is stored |
| `Payments.PaymentStore.constructor` | src/modules/finance/payment.model.js:8-118 | a new store holds no payments and no credits, over the bank it is given |
| `Payments.PaymentStore.CreditCapturedPayment` | src/modules/finance/razorpay.service.js:190-271 | claim, credit and transactionId as one transaction: the new store and the answer are those of the claim function in every branch |
| `Payments.PaymentStore.TopUp` | src/modules/finance/razorpay.service.js:236-250 | a refused wallet transaction undoes the claim; an accepted one sets transactionId to its row, and records a credit only for a new row |
| `Payments.PaymentStore.MarkPaymentFailed` | src/modules/finance/razorpay.service.js:160-173 | saving a loaded document writes only the fields that differ from the copy, or nothing, with the index's error, when the payment id is taken |
| `Payments.PaymentStore.HandleFailedWebhook` | src/modules/finance/razorpay.service.js:535-561 | the compare-and-swap from PENDING to FAILED |
| `PaymentSafety.WriteEvolves` | src/modules/finance/razorpay.service.js:160-271 | no write of any actor takes back a transactionId, a ledger row or a credit, changes a payment's terms, or makes it pending again |
| `PaymentSafety.NothingIsUndone` | src/modules/finance/razorpay.service.js:160-271 | the same over all continuations of all runs |
| `PaymentSafety.IdsAlwaysDistinct` | src/modules/finance/payment.model.js:121 | in every run no two payments share a gateway id |
| `PaymentSafety.FailedWebhookIff` | src/modules/finance/razorpay.service.js:535-561 | in every run a failed webhook is taken up exactly by a PENDING payment whose gateway id is free, and touches nothing else |
| `PaymentSafety.TasksAlwaysOk` | src/modules/finance/razorpay.service.js:360-533 | every copy an actor holds was once right, and every claim under way has passed validation against its copy; which tasks start is the subject of the CheckoutUninterrupted, WebhookUninterrupted and RefundLetThroughIff rows |
| `PaymentSafety.ClaimCases` | src/modules/finance/razorpay.service.js:195-250 | a claim changes nothing, or sets SUCCESS, id and transactionId of an uncredited payment and adds at most one row, which tops up its owner |
| `PaymentSafety.StoreInvAlways` | src/modules/finance/razorpay.service.js:190-271 | in every run: PENDING has no transactionId, SUCCESS has one, credits stand, and no two credits share a payment or a row |
| `PaymentSafety.CreditedAtMostOnce` | src/modules/finance/razorpay.service.js:190-271 | whatever the gateway says, no payment is credited twice, and each credit is a row its payment points at, for what was captured |
| `PaymentSafety.TopupReferences` | src/modules/finance/razorpay.service.js:236 | top-up references are distinct for distinct gateway ids, and never those of refunds |
| `PaymentSafety.NoEarlierRow` | src/modules/finance/razorpay.service.js:236-247 | the idempotency check on the reference never meets an older row for an uncredited payment |
| `PaymentSafety.GatewayInvAlways` | src/modules/finance/razorpay.service.js:190-271 | with consistent gateway ids, every top-up row is a credit's and every transactionId belongs to a credit |
| `PaymentSafety.CreditedIffTransactionIdSet` | src/modules/finance/razorpay.service.js:190-250 | in every interleaving a payment has been credited exactly when its transactionId is set |
| `PaymentSafety.SuccessMeansCredited` | src/modules/finance/razorpay.service.js:63-73 | a SUCCESS payment has topped up its owner's wallet within 1e-6 rupees of the captured paise |
| `PaymentSafety.OnlyCreditsAreRefunded` | src/modules/finance/razorpay.service.js:617-710 | in every interleaving a refund is under way only for a payment that was credited |
| `PaymentRuns.RunsAreTransactions` | src/modules/finance/razorpay.service.js:190-271 | in every run the wallets change as by a sequence of wallet transactions and in no other way |
| `PaymentRuns.StepIsTransaction` | src/modules/finance/razorpay.service.js:236-247 | which wallet transaction, if any, each step makes, going by the state before it |
| `PaymentRuns.MoneyIsAccountedFor` | src/modules/finance/razorpay.service.js:237-247 | in every run no balance goes negative and every gain is the net of the ledger rows |
| `PaymentRuns.PaymentsKeepReserveIff` | src/modules/finance/wallet-topup-policy.js:36-67 | in every interleaving the reserve is held throughout exactly when no credit is an accepted second recharge that stays below it |
| `PaymentRuns.CheckoutRecoveryNeverCredits` | src/modules/finance/razorpay.service.js:374-394 | recovery of a FAILED copy at checkout changes nothing, and which of the three answers it gets |
| `PaymentRuns.RecoveryNeedsCapture` | src/modules/finance/razorpay.service.js:374-394 | the verification of a FAILED payment goes on exactly when the gateway calls it captured, and is refused as failed otherwise |
| `PaymentRuns.CheckoutRecoveryIsReached` | src/modules/finance/razorpay.service.js:374-428 | from any state with a failed payment that claim is reached, and the captured money stays uncredited |
| `PaymentRuns.WebhookUninterrupted` | src/modules/finance/razorpay.service.js:484-533 | the captured webhook run to its end is one claim, unless the payment is already SUCCESS |
| `PaymentRuns.WebhookCreditsIff` | src/modules/finance/razorpay.service.js:484-533 | it credits exactly the uncredited PENDING and FAILED payments whose wallet is open and whose gateway id is free, with the full amount |
| `PaymentRuns.WebhookWithoutMatch` | src/modules/finance/razorpay.service.js:484-533 | whatever else the gateway answers, the webhook writes nothing, and which payments it ignores |
| `PaymentRuns.CheckoutUninterrupted` | src/modules/finance/razorpay.service.js:396-429 | a verification of a pending payment by its owner comes to one claim exactly when the signature is good and the gateway has captured its amount, in its currency, for its order; a bad signature or a failed payment is saved as FAILED; anything else changes nothing |
| `PaymentRuns.CheckoutCreditsIff` | src/modules/finance/razorpay.service.js:396-429 | that claim credits the full amount exactly when the wallet is open and the gateway id is free |
| `PaymentRuns.AnsweredAtOnce` | src/modules/finance/razorpay.service.js:368-373 | a verification is answered 404 exactly for those who do not own the payment, and as already processed exactly for a SUCCESS payment of the caller, without a write |
| `PaymentRuns.AskedByOwner` | src/modules/finance/razorpay.service.js:368-630 | in every run a verification under way was asked for by the owner of the payment, and a refund by its owner or an administrator |
| `PaymentRuns.BlindFailureHidesCreditIff` | src/modules/finance/razorpay.service.js:403-421 | exactly when a late failure save overwrites SUCCESS; the credit stays |
| `PaymentRuns.BadSignatureCanHideCredit` | src/modules/finance/razorpay.service.js:396-406 | a run, from any state with a creditable pending payment, that ends credited and FAILED |
| `PaymentRuns.HiddenCreditStaysHidden` | src/modules/finance/razorpay.service.js:632-634 | a credited payment that is not SUCCESS never is again, in any continuation, and every refund asked for from then on is refused |
| `PaymentRefunds.RefundLetThroughIff` | src/modules/finance/razorpay.service.js:622-645 | a refund is let through exactly for the owner or an administrator, a SUCCESS payment with a gateway id, and no amount or one in whole paise, and for how much |
| `PaymentRefunds.RefusedRefundWritesNothing` | src/modules/finance/razorpay.service.js:622-655 | a refund that may not be asked for, or that the gateway refuses, writes nothing |
| `PaymentRefunds.RefundUninterrupted` | src/modules/finance/razorpay.service.js:617-710 | a refund that may be asked for, run to its end, sets REFUNDED and makes one wallet transaction for what was asked |
| `PaymentRefunds.RefundDebitsIff` | src/modules/finance/razorpay.service.js:645-685 | it ends REFUNDED in any case, and debits exactly that amount if and only if the refund id is new and the balance beyond the reserve covers it |
| `PaymentRefunds.DebitedAtMostOnce` | src/modules/finance/razorpay.service.js:632-685 | in a run whose refunds of one payment do not overlap, a payment comes to at most one debit |
| `PaymentRefunds.OverlapReachesTwoDebits` | src/modules/finance/razorpay.service.js:632-685 | from any state with two refunds of one payment that have not saved their marks, both can come to their debits |
| `PaymentRefunds.RefundedOnceIff` | src/modules/finance/razorpay.service.js:632-685 | at every point of a run and however its refunds end no payment comes to a second debit, exactly when they do not overlap |
| `PaymentRefunds.DebitIff` | src/modules/finance/razorpay.service.js:672-685 | whatever else is going on, a refund's debit goes through exactly when the wallet covers it then, for its amount |
| `PaymentRefunds.OverlappingRefundsBothDebit` | src/modules/finance/razorpay.service.js:632-685 | of two refunds about to debit both do, exactly when the wallet covers the first and then what it has left covers the second |
| `PaymentRefunds.RefundWebhookMovesNoMoney` | src/modules/finance/razorpay.service.js:712-744 | the refund webhook changes the status alone, of any payment it finds |
| `PaymentRefunds.RefundedMeansCreditedIff` | src/modules/finance/razorpay.service.js:712-744 | every REFUNDED payment had its credit throughout a run, exactly when no webhook marks one that had not |
| `PaymentRefunds.RefundedLostIff` | src/modules/finance/razorpay.service.js:160-173 | a step takes a payment out of REFUNDED exactly when it saves a failure from a copy that was not FAILED |
| `PaymentRefunds.RefundedStaysIff` | src/modules/finance/razorpay.service.js:160-173 | the same throughout any continuation |
| `PaymentRefunds.SuccessLostIff` | src/modules/finance/razorpay.service.js:535-561 | a step takes a payment out of SUCCESS exactly when it saves a failure from a copy that was not FAILED, or the mark of a refund; a failed webhook or another claim never does |
| `PaymentRefunds.SuccessStaysIff` | src/modules/finance/razorpay.service.js:160-173 | the same throughout any continuation |
| `PaymentRefunds.BadSignatureUnmarks` | src/modules/finance/razorpay.service.js:370-406 | a verification with a bad signature turns any REFUNDED payment into a FAILED one, with nothing in between |
| `PaymentWitnesses.RecoveryCreditsNothing` | src/modules/finance/razorpay.service.js:374-394 | a run from the first order on in which a captured payment is refused at checkout |
| `PaymentWitnesses.UncreditedMarkedRefunded` | src/modules/finance/razorpay.service.js:712-744 | a run that marks an order REFUNDED which nobody has paid |
| `PaymentWitnesses.RefusedDebitLeavesRefunded` | src/modules/finance/razorpay.service.js:657-685 | a run in which the owner's refund leaves REFUNDED and an undebited wallet |
| `PaymentWitnesses.RefundedTwice` | src/modules/finance/razorpay.service.js:632-685 | a run in which two refunds of half a payment, asked for together, both debit the wallet |
| `PaymentWitnesses.TwoOrdersVoidTheReserve` | src/modules/finance/razorpay.service.js:298-338 | two orders of 200, both accepted for an empty wallet, end with 400 after two recharges |
| `Wallets.FindReference` | src/modules/finance/services/payment.service.js:17-23 | finds the oldest row with the reference if there is one; no or an empty reference finds none |
| `Wallets.FinanceStore.constructor` | src/modules/finance/finance.model.js:6-38 | a store holds the given wallets, roles and ledger |
| `Wallets.FinanceStore.DebitWallet` | src/utils/wallet.js:37-79 | decrements exactly when the balance covers amount and reserve, and reports balances derived from the stored wallet, or the available amount |
| `Wallets.FinanceStore.CreditWallet` | src/utils/wallet.js:84-114 | increments and reports the balances around the increment |
| `Wallets.FinanceStore.Apply` | src/modules/finance/services/payment.service.js:12-69 | as one transaction: balance and row together, an existing reference answered without effect, every refusal without effect |
| `Wallets.StepCases` | src/modules/finance/services/payment.service.js:12-69 | a transaction changes nothing, or moves one wallet by the amount and adds the row that says so |
| `Wallets.TransactionEffect` | src/modules/finance/services/payment.service.js:12-69 | by kind and figures: a transaction goes through exactly for an active wallet, a new reference, at least a paisa, and a debit that spares the reserve; what it does to balance, recharges and ledger |
| `Wallets.StepConserves` | src/modules/finance/services/payment.service.js:36-50 | balance less ledger net is the same before and after, for every user |
| `Wallets.BalancesMatchLedger` | src/modules/finance/services/payment.service.js:36-50 | over every run, what a balance has gained is what its rows add up to |
| `Wallets.RowsChainAsTheyLie` | src/modules/finance/services/payment.service.js:36-50 | one transaction at a time, each user's new rows chain as they lie, up to the stored balance |
| `Wallets.NeverNegative` | src/utils/wallet.js:41-52 | over every run no balance goes below zero |
| `Wallets.ReferenceAppliesOnce` | src/modules/finance/services/payment.service.js:17-23 | a reference applied again has no effect and leads to the first row |
| `Wallets.DebitAcceptedIffAvailable` | src/modules/finance/wallet-topup-policy.js:92-98 | the wallet is shown with 1000 reserved from its second recharge on, or from one recharge on at 1200 or more, and the rest available; a new debit is accepted exactly when the wallet is active and that covers it |
| `Wallets.ReserveLostIff` | src/modules/finance/wallet-topup-policy.js:36-67 | the one transaction that can break the reserve of a twice recharged wallet, by guards known before it, both directions |
| `Wallets.ReserveHeldThroughoutIff` | src/modules/finance/wallet-topup-policy.js:36-67 | over a whole run the reserve is held throughout exactly when no transaction is such a recharge at its turn |
| `Wallets.ReserveKept` | src/modules/finance/wallet-topup-policy.js:70-90 | so it is in a run whose recharges pass the policy against the balance credited |
| `Wallets.AfterOneTransfer` | src/modules/finance/services/wallet.service.js:118-128 | a first transfer of one rupee is accepted and counts as a recharge |
| `Wallets.UncheckedTransfersVoidTheReserve` | src/modules/finance/services/wallet.service.js:97-128 | two transfers of one rupee leave a twice recharged merchant without the reserve |
| `TopupPolicy.TopupRule` | src/modules/finance/wallet-topup-policy.js:26-90 | which amounts the three phases accept, in closed form and both directions, and the amount that is asked for instead |
| `WalletSteps.WalletDocument.constructor` | src/utils/wallet.js:37-125 | a wallet opens with no actors, rows or moves |
| `WalletSteps.IncrementMovesIff` | src/utils/wallet.js:41-57 | an increment goes through exactly when the wallet as it is now is active and a debit leaves the 1000 that its own copy locks |
| `WalletSteps.MissIsExplained` | src/utils/wallet.js:59-69 | with nothing in between a missed increment is refused for what caused it, with which figures; a credit crashes exactly when an inactive wallet is active again in between |
| `WalletSteps.WalletDocument.Find` | src/utils/wallet.js:37-39 | an actor keeps a copy of an active wallet and is refused on an inactive one |
| `WalletSteps.WalletDocument.FindOneAndUpdate` | src/utils/wallet.js:41-57 | the conditional increment: its condition is met by the wallet as it is now, its balances come from the result |
| `WalletSteps.WalletDocument.FindById` | src/utils/wallet.js:59-69 | how a missed increment is explained by a second read, including the credit that has no answer |
| `WalletSteps.WalletDocument.CreateTransaction` | src/utils/wallet.js:119-125 | the row, or its refusal by the schema after the balance has moved |
| `WalletSteps.MovesFormAChain` | src/utils/wallet.js:74-79 | in every interleaving the increments form one unbroken balanceBefore/balanceAfter chain up to the stored balance |
| `WalletSteps.ChainTotal` | src/utils/wallet.js:74-79 | such a chain ends at the start plus credits minus debits |
| `WalletSteps.BalanceNeverNegative` | src/utils/wallet.js:44-52 | however stale the reserve, neither the balance nor any recorded balance is negative |
| `WalletSteps.LedgerInvAlways` | src/utils/wallet.js:119-125 | in every interleaving each move is recorded by one row or pending with one actor, never both, never lost |
| `WalletSteps.SameTotalInAnyOrder` | src/utils/wallet.js:119-125 | rows that record each move once add up to the same in any order |
| `WalletSteps.SettledLedgerExplainsBalance` | src/utils/wallet.js:37-125 | with nobody between increment and row, the ledger is the moves in some order and explains the balance |
| `WalletSteps.RowsMayLieOutOfOrder` | src/utils/wallet.js:71-78 | a run whose rows, as they lie, do not chain |
| `WalletSteps.RowsInOrderIff` | src/utils/wallet.js:119-125 | in every interleaving the rows lie in the order of their moves exactly when each was the oldest one's as it was written |
| `WalletSteps.RowsInOrderChain` | src/utils/wallet.js:71-78 | and then they chain as they lie, once settled up to the stored balance |
| `CacheEntries.EvictOne` | src/validation/helpers/cache.js:491-537 | evicting one entry of a non-empty cache removes one, under every strategy |
| `CacheEntries.EvictsTheLeast` | src/validation/helpers/cache.js:495-530 | a victim was used no more often than a survivor under LFU, created no later under FIFO, and accessed no later under LRU or an unknown strategy |
| `CacheEntries.RemoveOne` | src/validation/helpers/cache.js:543-556 | removing a present key removes one entry and its size |
| `CacheOperations.EvictCount` | src/validation/helpers/cache.js:491-537 | under every strategy exactly as many entries go as were asked for, or all there are |
| `CacheOperations.TenthIsLeast` | src/validation/helpers/cache.js:474-476 | when memory is short the least number that is a tenth of the entries or more is evicted |
| `CacheOperations.GetKeepsInv` | src/validation/helpers/cache.js:104-130 | get keeps keys and stamps distinct and both limits |
| `CacheOperations.SetKeepsInv` | src/validation/helpers/cache.js:140-184 | so does set, through memory refusals, replacement and eviction: size within the limit, count within maxSize (or one) |
| `CacheOperations.RemovalKeepsInv` | src/validation/helpers/cache.js:543-608 | so does every removal |
| `CacheOperations.SlimMakesRoom` | src/validation/helpers/cache.js:161-164 | evicting by count leaves room for one more, and only entries that were there |
| `CacheOperations.SetThenGet` | src/validation/helpers/cache.js:104-184 | what was stored is read back until it outlives its TTL, and not after |
| `CacheOperations.GarbageIsExpired` | src/validation/helpers/cache.js:592-608 | garbage collection keeps exactly the entries without a TTL or within it |
| `CacheOperations.TrackingMirrors` | src/validation/helpers/cache.js:177-180 | a tracking map has exactly the keys of the entries, with each entry's stamp or count |
| `CacheOperations.TrackingAfterRemoval` | src/validation/helpers/cache.js:546-550 | deleting a key from entries and from the tracking map keeps them together |
| `CacheOperations.TrackingAfterTouch` | src/validation/helpers/cache.js:441-447 | so does an access |
| `ValidationCache.ValidationCache.constructor` | src/validation/helpers/cache.js:78-85 | a new cache is empty and consistent |
| `ValidationCache.ValidationCache.RemoveEntry` | src/validation/helpers/cache.js:543-556 | removes the key, says whether it was there, and keeps all three maps and the memory counter in step |
| `ValidationCache.ValidationCache.RemoveAll` | src/validation/helpers/cache.js:533-536 | the loop of single removals removes exactly the victims |
| `ValidationCache.ValidationCache.EvictEntries` | src/validation/helpers/cache.js:491-537 | evicts the first entries in the strategy's order |
| `ValidationCache.ValidationCache.CheckMemoryLimits` | src/validation/helpers/cache.js:466-485 | evicts a tenth when memory is short, and accepts exactly the entries that then fit |
| `ValidationCache.ValidationCache.GetValue` | src/validation/helpers/cache.js:104-130 | answer and new state of get, with all bookkeeping consistent |
| `ValidationCache.ValidationCache.UpdateAccess` | src/validation/helpers/cache.js:441-447 | the next stamp and one more use, in entry and maps alike |
| `ValidationCache.ValidationCache.SetValue` | src/validation/helpers/cache.js:140-184 | answer and new state of set, with all bookkeeping consistent |
| `ValidationCache.ValidationCache.Store` | src/validation/helpers/cache.js:156-183 | replaces, makes room, and appends with a fresh stamp |
| `ValidationCache.ValidationCache.Replace` | src/validation/helpers/cache.js:156-164 | makes way for one entry by key and by count |
| `ValidationCache.ValidationCache.Append` | src/validation/helpers/cache.js:177-180 | adds the entry to the map, both tracking maps and the counter |
| `ValidationCache.ValidationCache.HasValue` | src/validation/helpers/cache.js:203-223 | answers without touching the access data, dropping an expired entry |
| `ValidationCache.ValidationCache.ClearAll` | src/validation/helpers/cache.js:228-234 | empties everything but the access clock |
| `ValidationCache.ValidationCache.RunGarbageCollection` | src/validation/helpers/cache.js:592-608 | removes exactly the expired entries |
| `ValidationCache.ExpiredEntries` | src/validation/helpers/cache.js:593-600 | collects exactly the keys of expired entries |
| `CacheRecency.SortWithout` | src/validation/helpers/cache.js:497-499 | removing entries and sorting them by stamp commute |
| `CacheRecency.RecencyEvict` | src/validation/helpers/cache.js:496-500 | the LRU victims are the head of the recency list |
| `CacheRecency.TouchMovesToEnd` | src/validation/helpers/cache.js:441-447 | a hit moves its entry to the end of the list |
| `CacheRecency.GetRefines` | src/validation/helpers/cache.js:104-130 | get answers as the list does and leaves what the list has |
| `CacheRecency.SetRefines` | src/validation/helpers/cache.js:140-184 | so does set, including refusals for memory |
| `CacheRecency.DeleteRefines` | src/validation/helpers/cache.js:192-195 | so do delete and garbage collection |
| `CacheRecency.HasRefines` | src/validation/helpers/cache.js:203-223 | so does has |
| `CacheRecency.InvAlways` | src/validation/helpers/cache.js:140-184 | over every run and strategy: distinct keys and stamps, memory and count within their limits |
| `CacheRecency.CacheIsRecencyList` | src/validation/helpers/cache.js:491-556 | under LRU every run answers like, and holds what, a plain recency-ordered list with TTLs holds |
| `CacheHistory.EntryHistory` | src/validation/helpers/cache.js:167-175 | in every run, under every strategy: an entry was made by the last set of its key, at the time of that set, and counts one use for it and one for each get since |
| `CacheHistory.EvictsByHistory` | src/validation/helpers/cache.js:495-530 | after every run, going by its operations: LFU gives up what was got no more often since its set, FIFO what was set no later, LRU and unknown strategies what was used earlier |
| `CachedValidator.InjectiveKeysDetermineResults` | src/validation/helpers/cache.js:642-654 | an injective key determines the results |
| `CachedValidator.FaithfulAlways` | src/validation/helpers/cache.js:690-720 | in every run each cached value is what the validator returns for every datum with its key |
| `CachedValidator.OnlySuccessesAreCached` | src/validation/helpers/cache.js:708-711 | in every run, whatever is cached was a success |
| `CachedValidator.SuccessIsCached` | src/validation/helpers/cache.js:708-711 | and a success that fits is cached, whatever else is |
| `CachedValidator.CollisionShows` | src/validation/helpers/cache.js:694-702 | where a storable result shares its key with another result, one call's answer reaches the other |
| `CachedValidator.CachedIsPlainIff` | src/validation/helpers/cache.js:690-720 | every call of every interleaved run answers what the plain validator answers, exactly when keys determine the results that can be stored |
| `CachedValidator.Validate` | src/validation/helpers/cache.js:693-719 | a whole call returns the validator's result and leaves the cache consistent and faithful |
| `Idempotency.Middleware.constructor` | src/middleware/idempotency.middleware.js:5-7 | no records and no requests at first |
| `Idempotency.Middleware.OnRequest` | src/middleware/idempotency.middleware.js:6-27 | a request without a key passes; otherwise its first look decides between 409, replay and trying the lock |
| `Idempotency.Middleware.Acquire` | src/middleware/idempotency.middleware.js:29-44 | the unique insert is the lock: one winner, 409 for the rest, and any other failure passed on |
| `Idempotency.Middleware.Json` | src/middleware/idempotency.middleware.js:46-65 | the response goes out before its write |
| `Idempotency.Middleware.SaveOrRelease` | src/middleware/idempotency.middleware.js:50-62 | the late write stores a response below 500 or deletes the record, and may fail |
| `Idempotency.InvAlways` | src/middleware/idempotency.middleware.js:13-67 | the invariant behind the next rows holds in every interleaving |
| `Idempotency.MutualExclusion` | src/middleware/idempotency.middleware.js:29-67 | per key at most one request runs or has a write pending, and that write hits its own record |
| `Idempotency.KeptKeyNeverRunsAgain` | src/middleware/idempotency.middleware.js:46-67 | once a response is kept for a key, no handler for the key starts again, in any continuation; which are kept is the next row |
| `Idempotency.EndedBelow500NeverRunsAgain` | src/middleware/idempotency.middleware.js:49-58 | whatever the state, a handler that ends with a status from 200 to 499 was the last for its key, in every continuation |
| `Idempotency.EndedBelow500IsReplayed` | src/middleware/idempotency.middleware.js:50-58 | the next request gets exactly its response if the write was made, and 409 if it was lost |
| `Idempotency.EndedOtherwiseRunsAgainIff` | src/middleware/idempotency.middleware.js:59-62 | after any other status a new request runs exactly if the delete was made |
| `Idempotency.LaterRequestsReplay` | src/middleware/idempotency.middleware.js:14-27 | every later request gets 409 or exactly that status and body |
| `Idempotency.EarlierLookNeverRuns` | src/middleware/idempotency.middleware.js:14-44 | a request that had looked before the response was kept never runs, in any continuation |
| `Idempotency.EarlierLookEndsInConflict` | src/middleware/idempotency.middleware.js:30-44 | its insert ends in 409 |
| `Idempotency.ReplaysAreExact` | src/middleware/idempotency.middleware.js:26 | every replay ever given is the one response kept for the key |
| `Idempotency.HistoryStays` | src/middleware/idempotency.middleware.js:46-67 | kept responses and known requests stay in every continuation |
| `Idempotency.ReleaseAllowsRetry` | src/middleware/idempotency.middleware.js:59-62 | a key can be run exactly when its record is gone, and then nothing was kept for it |
| `Idempotency.OtherErrorsTakeNoLock` | src/middleware/idempotency.middleware.js:42-44 | an insert that fails otherwise passes its error on and takes no lock |
| `RateLimit.RateLimiter.constructor` | src/middleware/rate-limit.middleware.js:14-21 | an empty cache for a window and a maximum |
| `RateLimit.RateLimiter.Handle` | src/middleware/rate-limit.middleware.js:23-66 | record and response of one request; docs and bypassed roles leave the cache alone |
| `RateLimit.RateLimiter.HandleAll` | src/middleware/rate-limit.middleware.js:23-66 | over a whole trace each answer is the one the trace before it determines |
| `RateLimit.AdmissionIsNext` | src/middleware/rate-limit.middleware.js:61-65 | admitted means answered without 429 |
| `RateLimit.WindowsFollow` | src/middleware/rate-limit.middleware.js:44-51 | a key's window only grows until it is replaced by one that opens after its end |
| `RateLimit.InsideWindow` | src/middleware/rate-limit.middleware.js:46-48 | a counted request falls inside its window |
| `RateLimit.WindowAdmitsAtMostMax` | src/middleware/rate-limit.middleware.js:42-66 | no window admits more than max requests of a key |
| `RateLimit.IntervalAdmitsAtMostTwiceMax` | src/middleware/rate-limit.middleware.js:42-66 | no interval as long as a window admits more than twice max |
| `RateLimit.WindowIsFilled` | src/middleware/rate-limit.middleware.js:50-61 | a window on record has admitted one request per hit, up to max |
| `RateLimit.RejectedIffWindowIsFull` | src/middleware/rate-limit.middleware.js:61-65 | a request gets 429 exactly when its window has already admitted max others |
| `RateLimit.ExemptLeaveNoTrace` | src/middleware/rate-limit.middleware.js:24-34 | exactly documentation paths and bypassed roles are let through unlimited, and they count for no key |
| `RateLimit.HeadersCount` | src/middleware/rate-limit.middleware.js:53-59 | remaining is the maximum less the admissions of the window so far, and the reset is the first second that reaches its end |
| `RateLimit.RetryAfterIsLeast` | src/middleware/rate-limit.middleware.js:55-62 | Retry-After is the least number of seconds, at least one, that reaches the end of the window |
| `RateLimit.RetryAfterBounds` | src/middleware/rate-limit.middleware.js:55-63 | every Retry-After lies between 1 and the window in whole seconds |
| `TransactionRetry.TransactionRunner.constructor` | src/utils/transaction.js:3 | transaction support is unknown at first |
| `TransactionRetry.TransactionRunner.CheckTransactionSupport` | src/utils/transaction.js:5-23 | support is decided once, when the connection is ready, and then remembered; a topology that cannot be read counts as none |
| `TransactionRetry.TransactionRunner.RunInTransaction` | src/utils/transaction.js:37-66 | the one outcome that the next rows are about: at most three attempts, never without a result, an abort that throws included; exactly the committed attempt's writes, or none |
| `TransactionRetry.FirstDecisiveAttempt` | src/utils/transaction.js:46-65 | one of the three attempts is decisive, and a first one exists |
| `TransactionRetry.AllOrNothing` | src/utils/transaction.js:46-65 | an error leaves the store unchanged, a value comes with one body's writes |
| `TransactionRetry.OutcomeIsUnique` | src/utils/transaction.js:46-65 | result and store are determined |
| `TransactionRetry.SuccessMeansCommit` | src/utils/transaction.js:30-63 | a run succeeds exactly when an attempt commits before any fails for good or cannot be aborted |
| `TransactionRetry.ErrorComesFrom` | src/utils/transaction.js:46-65 | a failed run throws what the abort of its last attempt threw, or else its body or its commit |
| `Rounding.MathRoundIsNearest` | src/utils/velocity/order.client.js:12 | Math.round is the only integer the standard's wording allows |
| `Rounding.Hundredths` | src/modules/pricing/pricing.service.js:47 | toFixed(2) picks hundredths within half of one |
| `Rounding.HundredthsAre` | src/modules/pricing/pricing.service.js:47 | the nearest hundredths of the magnitude, the larger on a tie, with the sign put back |
| `Rounding.ToFixed2` | src/modules/pricing/pricing.service.js:47 | the result is whole paise, at most half a paisa off |
| `Rounding.ToFixed2Fixpoint` | src/modules/pricing/pricing.service.js:70-75 | whole paise stay as they are |
| `Rounding.ToFixed2OfDifference` | src/modules/pricing/pricing.service.js:70-75 | rounding a difference of whole paise changes nothing |
| `Pricing.SlabLookup` | src/modules/pricing/pricing.rules.js:6-9 | the least bound at or above the weight, or the greatest bound when none carries it, for any storage order |
| `Pricing.SlabLookupTies` | src/modules/pricing/pricing.rules.js:6-9 | which of several slabs with one bound is chosen |
| `Pricing.SlabLookupIgnoresStorageOrder` | src/modules/pricing/pricing.rules.js:7 | with distinct bounds the storage order does not matter |
| `Pricing.LookupsAgree` | src/modules/rates/rate.service.js:73-75 | both copies of the sort and search choose the same slab |
| `Pricing.PricedUnlessEmpty` | src/modules/pricing/pricing.service.js:38-41 | pricing fails exactly on a card without slabs |
| `Pricing.CostSplitsExactly` | src/modules/pricing/pricing.service.js:49-75 | merchantCost is carrierCost plus both profits, to the paisa |
| `Pricing.BookedCharge` | src/modules/pricing/pricing.service.js:43-68 | carrier and merchant cost of a booking follow from one unrounded charge |
| `Pricing.ChargesTotal` | src/modules/pricing/pricing.service.js:43-47 | the unrounded charge in closed form: base and weight with the fuel surcharge on top, and the parts for cash on delivery |
| `Pricing.VolumetricWeightIs` | src/modules/pricing/pricing.helpers.js:8-11 | the volume over 5000, half a hundredth off at most; a missing dimension makes it zero |
| `Pricing.BookedChargeIs` | src/modules/pricing/pricing.service.js:35-47 | a booking charges for the larger of declared and volumetric weight, at the slab of that weight |
| `Pricing.CostsCoincide` | src/modules/pricing/pricing.service.js:54-68 | the distributor cost is the carrier cost without a distributor, and the merchant cost without a margin |
| `Pricing.MerchantCostDrift` | src/modules/pricing/pricing.service.js:47-68 | how far the chained roundings can carry merchantCost and distributorCost from the unrounded formula, with 1 + markup/100, by default 25 percent, the margin share and the flat margin |
| `Pricing.DriftBoundForMarkups` | src/modules/pricing/pricing.service.js:47-68 | for non-negative markup m and margin q that bound is 0.01 + 0.005 (1 + q) (2 + m) |
| `Pricing.MarkUp` | src/modules/pricing/pricing.service.js:56 | a marked-up price is whole paise, half a paisa off at most |
| `Pricing.AddMargin` | src/modules/pricing/pricing.service.js:59-60 | so is a price with margin |
| `Pricing.QuoteMatchesBooking` | src/modules/rates/rate.service.js:73-80 | quote and booking agree part by part for the billed weight, and fail on the same cards |
| `Pricing.QuoteOmitsMarkup` | src/modules/rates/rate.service.js:77-99 | the quote for the weight of a booking has the distributor margin but not the markup: how much dearer the booking is, but for the roundings |
| `VelocityTax.BuildForwardOrderItems` | src/utils/velocity/order.client.js:14-39 | one item for each stored item, in order, with discounts in whole paise |
| `VelocityTax.BuiltFromStored` | src/utils/velocity/order.client.js:17-37 | an item stored in whole paise: its taxable amount is price times units less discount, and which figure goes into which field |
| `VelocityTax.BuiltFromMissing` | src/utils/velocity/order.client.js:17-20 | a missing quantity counts as one, other missing figures as zero |
| `VelocityTax.PercentIs` | src/utils/velocity/order.client.js:26-28 | the percentage is 100 times tax over taxable, half a ten-thousandth off at most, and zero on nothing taxable |
| `VelocityTax.RoundRatioIs` | src/utils/velocity/order.client.js:26-28 | the rounded ratio is the only integer that close |
| `VelocityTax.InRupees` | src/utils/velocity/order.client.js:26-28 | the code's rupee arithmetic is the paise arithmetic of the proofs |
| `VelocityTax.TaxSurvives` | src/utils/velocity/order.client.js:23-28 | up to 10000.00 taxable, the receiver gets every tax back |
| `VelocityTax.SomeTaxIsLost` | src/utils/velocity/order.client.js:23-28 | above, there are more taxes than percentages, and one is lost |
| `VelocityTax.ItemTaxComesBack` | src/utils/velocity/order.client.js:14-39 | the same for whole items, with discounts and quantities; nothing taxable sends no tax |
| `VelocityTax.TaxRoundTrip` | src/utils/velocity/order.client.js:14-39 | a taxable amount loses no item's tax exactly when it is at most 10000.00 |
| `VelocityTax.DiscountTotalIsExact` | src/utils/velocity/order.client.js:41-43 | the rounding of the discount total changes nothing |
| `Csv.GenerateCsv` | src/modules/reports/export.service.js:166-181 | the nested loops print the header line and one quoted line per record, joined by LF; nothing for no data |
| `Csv.LookupIs` | src/modules/reports/export.service.js:175 | a record prints its value under a column, and nothing where it lacks the column |
| `Csv.QuotedFieldRoundTrip` | src/modules/reports/export.service.js:175-176 | a quoted field is read back, whatever quotes, commas or line ends it holds |
| `Csv.RowRoundTrip` | src/modules/reports/export.service.js:174-178 | so is a line of quoted fields |
| `Csv.HeaderRoundTrip` | src/modules/reports/export.service.js:171-172 | so is the unquoted header, for names that need no quotes |
| `Csv.RowsRoundTrip` | src/modules/reports/export.service.js:172-180 | so are all the lines together |
| `Csv.CsvRoundTrip` | src/modules/reports/export.service.js:166-181 | the reader gives back the column names and every record's values |
| `Csv.ExportIsInjective` | src/modules/reports/export.service.js:166-181 | different data never print alike, whatever their columns, and only no data print to nothing |
| `Csv.ShipmentColumns` | src/modules/reports/export.service.js:133-146 | the shipment columns are distinct and need no quotes |
| `Csv.TransactionColumns` | src/modules/reports/export.service.js:152-163 | nor do the transaction columns |
| `Sanitizer.RemoveStep` | src/validation/sanitizers/string.sanitizer.js:17 | removal goes unit by unit: every wanted unit stays, in its place |
| `Sanitizer.UnitsRemoved` | src/validation/sanitizers/string.sanitizer.js:3-4 | which units are removed, and which a file name keeps |
| `Sanitizer.RemoveTagsStep` | src/validation/sanitizers/string.sanitizer.js:5 | the pass is the pattern's: text stays, a tag goes, the rest is scanned afresh |
| `Sanitizer.RemoveTagsResult` | src/validation/sanitizers/string.sanitizer.js:18 | one pass leaves no '<' with a later '>' and adds nothing |
| `Sanitizer.RemoveTagsFixpoint` | src/validation/sanitizers/string.sanitizer.js:18 | and leaves alone exactly the strings without such a pair |
| `Sanitizer.TrimResult` | src/validation/sanitizers/string.sanitizer.js:19 | trimming takes a slice, drops nothing but white space, and leaves alone exactly the trimmed strings |
| `Sanitizer.UnitsTrimmed` | src/validation/sanitizers/string.sanitizer.js:19 | which units count as white space |
| `Sanitizer.SanitizeFixpoint` | src/validation/sanitizers/string.sanitizer.js:7-22 | sanitizing leaves a string alone exactly when it is clean |
| `Sanitizer.SanitizeIsIdempotent` | src/validation/sanitizers/string.sanitizer.js:7-22 | without a maximal length one pass is enough |
| `Sanitizer.SanitizeWithLimit` | src/validation/sanitizers/string.sanitizer.js:19-20 | with one, exactly when it is |
| `Sanitizer.SecondPassTrimsMore` | src/validation/sanitizers/string.sanitizer.js:19-20 | a string that a second pass changes |
| `Sanitizer.CollapseDotsStep` | src/validation/sanitizers/string.sanitizer.js:28 | every unit that is not a dot stays, in its place |
| `Sanitizer.DotsBecomeOne` | src/validation/sanitizers/string.sanitizer.js:28 | a row of dots becomes one |
| `Sanitizer.CollapseDotsResult` | src/validation/sanitizers/string.sanitizer.js:28 | no two dots remain adjacent |
| `Sanitizer.FilenameIsSafe` | src/validation/sanitizers/string.sanitizer.js:24-31 | a sanitized name has no separator, no two adjacent dots, only allowed characters, and at most 180 of them |
| `Sanitizer.FilenameFixpoint` | src/validation/sanitizers/string.sanitizer.js:24-31 | a normalized name is kept exactly when it is safe and trimmed |
| `Sanitizer.FilenameIsIdempotentIff` | src/validation/sanitizers/string.sanitizer.js:24-31 | a sanitized name stays as it is exactly when the cut at 180 has left no white space at its end |
| `Shipments.Shipment.constructor` | src/modules/shipments/services/shipment-create.service.js:381 | a booking starts as an order with one history entry |
| `Shipments.Shipment.TransitionTo` | src/modules/shipments/shipment.model.js:269-285 | moves exactly along the table, appending to the history and stamping the delivery; otherwise an error and no change |
| `Shipments.Shipment.PreSave` | src/modules/shipments/shipment.model.js:299-331 | the hook's assignments in sequence come to its effect field by field |
| `Shipments.RunsHaveShape` | src/modules/shipments/shipment.model.js:5-14 | the runs of the machine are exactly the histories of the described shape |
| `Shipments.HistoriesAreRuns` | src/modules/shipments/shipment.model.js:269-285 | after its booking entry, a history records exactly the runs of the machine that end in the status |
| `Shipments.HistoryOrder` | src/modules/shipments/shipment.model.js:5-14 | pickup and hub once, in order, before any attempt; a return follows a failure; a cancellation stands alone |
| `Shipments.AttemptsAndFailures` | src/modules/shipments/shipment.model.js:9-10 | attempts exceed failures by one while out for delivery or delivered, and by none otherwise |
| `Shipments.TerminalStatusesEnd` | src/modules/shipments/shipment.model.js:11-13 | exactly the terminal statuses admit no further step |
| `Shipments.SaveIsIdempotent` | src/modules/shipments/shipment.model.js:299-331 | saving twice is saving once |
| `Shipments.SaveUnitesWeights` | src/modules/shipments/shipment.model.js:299-306 | after a save both weights are the declared one, or the other where that is missing or zero |
| `Shipments.SaveAgreesWithPricing` | src/modules/shipments/shipment.model.js:308-330 | the hook recomputes the weights and profits of the price calculation, and the split stays exact |
| `Shipments.VolumetricWeightsAgree` | src/modules/pricing/pricing.helpers.js:8-11 | both copies of the volumetric formula agree |
| `Tickets.PickAgent` | src/modules/support/support.service.js:24-33 | the loop picks the first agent nobody undercuts |
| `Tickets.SupportDesk.constructor` | src/modules/support/support.service.js:16-44 | no tickets at first |
| `Tickets.SupportDesk.CreateTicket` | src/modules/support/support.service.js:16-44 | one open ticket is added, for a least loaded agent or, without staff, for nobody |
| `Tickets.OneMoreTicket` | src/modules/support/support.service.js:22-24 | a ticket counts as work of its own agent until it is resolved or closed |
| `Tickets.OneTicketSpread` | src/modules/support/support.service.js:27-34 | a new ticket cannot widen the spread of loads beyond one |
| `Tickets.SpreadStaysBounded` | src/modules/support/support.service.js:16-44 | over every run the spread stays within the larger of its start and one |
| `Tickets.LoadsEvenOut` | src/modules/support/support.service.js:16-44 | once enough tickets have come in, all loads are within one, whatever they were |
| `Sorting.StableSortFacts` | src/modules/pricing/pricing.rules.js:7 | the sort is ordered, a permutation, and keeps equal keys in their order |

## Left out

- Order creation: its checks and the stored payment are one step; the gateway's order and a super admin's missing wallet, which is created on the way, are not modelled.
- Gateway and signatures: what Razorpay answers, and whether a signature is valid, are inputs; gateway payments carry an id, and a failed webhook without one is not modelled.
- Payment details: methods, banks, failure reasons, webhook event ids, notifications and the formatted responses of already processed payments.
- Role and field checks of the payment endpoints, except that a payment belongs to its caller.
- Standalone databases: without transactions the claim, credit and transactionId are separate writes; the retry loop's fallback is modelled as a single run of the body, and a commit that took effect although the client saw an error is not.
- Crashes between two steps of an actor, and the expiry of idempotency records after a day.
- `getWalletReserveAmount` treats a failed user lookup as no reserve; here a user without a recorded role has none, and lookups do not fail.
- Wallet references: no code outside these services uses references that start with `RAZORPAY-`; other wallet transactions with one are ignored, and the ledger is taken to start without any.
- WalletSteps.WalletDocument.FindById: no 404, because no code deletes a wallet.
- WalletSteps.BalanceNeverNegative: assumes that no amount is negative, which the request validation sees to.
- Wallet snapshots: the count of recharges that a debit consults is any number, the balance is the one it loaded.
- Refunds that are not debited: no claim that a REFUNDED payment has a wallet debit, since the code does not give it.
- ValidationCache: `import`, live `updateConfig`, the TTL eviction strategy, statistics, timers, preloading and the JSON "compression".
- Cache keys and idempotency keys stand for their hashes, taken to be injective; cached values are not changed by their users.
- `createCachedSchemaCompiler` and the global cache instance.
- RateLimit: the Redis branch, and the response headers of bypassed roles.
- Money, weights and percentages are exact reals, so binary floating point representation error is outside the model.
- Sanitizer: NFKC is a parameter of the file name results and off for strings; `sanitizeObject`'s recursion is not modelled.
- Csv: reading the cursor and turning values into strings; the UTF-8 encoding of the text, which would merge lone surrogates; the XLSX branch.
- Shipments: services that push history entries themselves (cancellation, carrier webhooks, reverse shipments) instead of calling `transitionTo`.
- Tickets: counting is done on the tickets themselves, and two creations do not overlap.
- Rate cards: finding the card and the margin, and saving either.
- Routing, controllers, request schemas, e-mail, PDF, reports, warehouses, tokens and pagination.
