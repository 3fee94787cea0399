# Verified models of the commerce platform

Dafny models of the platform's durable state machines over money and jobs, with proofs about
every run of them. Database steps are atomic; provider answers, failures, crashes and the order in
which workers and transactions interleave are arbitrary inputs. `dafny verify dfyconfig.toml`
checks the whole project.

| files | what they model |
|---|---|
| `TenantBundle`, `Layering`, `TenantRestore`, `Destination`, `BundleExample` | validating a tenant bundle and restoring it into an empty installation: layered insertion, secret relocation, undo |
| `Deposits`, `DepositRuns`, `DepositTheorems`, `DepositCredits`, `DepositClaims`, `DepositCreation`, `DepositOutcomes`, `DepositDesk` | flexible deposits: concurrent creation, evidence, settlement into one of two ledgers, reversal |
| `AssetLedger` | the asset ledger under interleaved transactions with row locks and a unique index |
| `WalletHolds`, `WalletOutcomes`, `WalletDesk` | reservations, captures, releases and debits under interleaved transactions |
| `Announcements`, `AnnouncementRuns`, `AnnouncementClosing`, `AnnouncementOutcomes`, `AnnouncementExample`, `AnnouncementWorker` | announcement delivery by any number of workers |
| `Fulfillment`, `FulfillmentRuns`, `FulfillmentLimits`, `FulfillmentOutcomes`, `FulfillmentDesk` | execution, retry, reconciliation, refund and requeue of one order |
| `CheckoutRequests`, `Checkout`, `CheckoutRuns`, `CheckoutHistory`, `CheckoutDesk`, `Coupons` | idempotent checkout with coupons |
| `Provisioning`, `ProvisioningOutcomes`, `Pricing`, `RateLimiter`, `SupportCases` | leased provisioning jobs, price decisions, the sliding-window limiter, support cases |

Two forms occur. A protocol is a `World`, a set of `Event`s and a function `Next`; a run is a fold of
`Next` over a sequence of events, and an event whose condition does not hold, or that would have
to wait for a lock, changes nothing. Code that updates rows step by step is a class whose methods are proved
equal to steps or specification functions, so that theorems about all runs apply to them. The `…Outcomes` files say what
those steps decide and write on the inputs themselves, as exact conditions.

## What the proofs found

These follow the code where it does less than its comments or documentation say. Each has an exact condition, proved
for all inputs or runs, and an example.

- Two secret cells of one bundle get the same fresh reference exactly when their row ids, without
  dashes, and their columns agree; `bots` and `bot_provisioning_jobs` share a column name, so a
  shared row id makes one secret replace the other (`TenantRestore.RelocationFaithful`,
  `BundleExample.SharedIdLosesASecret`).
- A provider that answers CREDITED at creation or to a poll leaves an uncredited deposit with that status
  (`DepositClaims.ClaimedExactlyWhen`, `DepositClaims.ClaimedAtCreation`). Creation takes a negative fee unchecked, and
  then the credit exceeds what was received (`DepositCredits.CreditAboveReceivedExactlyWhen`,
  `DepositClaims.CreditedAboveReceived`).
- A creation that loses the race for its key is answered with the winner's deposit after comparing only the invoice, so
  it can be another user's or payment method's (`DepositCreation.MisledExactlyWhen`,
  `DepositCreation.SecondCallerIsMisled`).
- Top-up reversals and manual adjustments look at the booked balance, not at what holds leave available, so they
  can take held funds and make a later capture fail (`WalletHolds.UncoveredExactlyWhen`,
  `WalletHolds.ReversalTakesHeldFunds`).
- A worker that outlives the stale sweep and is then rate limited queues its delivery again, and a campaign can be
  COMPLETED with a delivery still to be sent (`AnnouncementClosing.StepClosesExactlyWhen`,
  `AnnouncementExample.CompletedWithQueuedDelivery`). The at-most-one-send property does not depend on this.
- An exception after the FULFILLED commit refunds a delivered order (`FulfillmentLimits.LateFaultRefundsFulfilled`,
  `FulfillmentLimits.DeliveredAndRefunded`). Reconciliation closes an order before refunding it and does not roll back,
  so a failed refund can leave FAILED without a refund although the discrepancy says "No mutation"
  (`FulfillmentLimits.ReconcileUnsettlesExactlyWhen`, `FulfillmentLimits.FailedAndNotRefunded`). Over runs, these and
  the refund of an order that is already FULFILLED are all there is (`FulfillmentLimits.StaysSettledExactlyWhen`). A worker configured
  with more than three retries dispatches an order again after the service, which always counts to three, has refunded
  it (`FulfillmentLimits.RedispatchExactlyWhen`, whose proof gives the run).
- A FAILED provisioning job is final for the workers but not for an administrator, who can put it back
  (`Provisioning.EndingIsFinal`, `Provisioning.FailedThenReady`).
- A coupon's one-cent floor can bind above a cent and raises prices below one (`Coupons.FloorBindsExactlyWhen`,
  `Coupons.FloorBindsAboveACent`).

## Model

| member | source | states |
|---|---|---|
| `TenantBundle.ValidateRows` | packages/marketplace/tenant_bundle.py:109-121 | the loop over one table accepts exactly rows with the table's columns, one tenant and distinct ids, and returns exactly its ids and the secrets it needs |
| `TenantBundle.ValidateLinks` | packages/marketplace/tenant_bundle.py:122-127 | accepts exactly when every non-null foreign key names a row of its target table |
| `TenantBundle.ValidateAllRows` | packages/marketplace/tenant_bundle.py:106-121 | the first pass over all tables: no error exactly when every table's rows are valid; the indexes and the required secrets are complete |
| `TenantBundle.ValidateAllLinks` | packages/marketplace/tenant_bundle.py:122-127 | the second pass: true exactly when every reference of every table resolves |
| `TenantBundle.Validate` | packages/marketplace/tenant_bundle.py:97-130 | no error exactly for bundles with the right envelope, one tenant, valid rows, resolved references and precisely the required non-empty secrets; otherwise a bundle error |
| `Layering.InsertLayers` | packages/marketplace/tenant_bundle.py:245-255 | terminates; gives up exactly when the table's self-references contain a cycle; otherwise every row is inserted exactly once and strictly after the rows it refers to |
| `Layering.StuckIsCyclic` | packages/marketplace/tenant_bundle.py:250-252 | when no pending row is ready, following unmet references must revisit a row, which is a cycle |
| `Layering.NoLoopBelow` | packages/marketplace/tenant_bundle.py:249-255 | no cycle passes through a row that was inserted |
| `TenantRestore.SlotsComplete` | packages/marketplace/tenant_bundle.py:214-218 | the nested loops visit every non-empty secret cell, once |
| `TenantRestore.LastWriterWins` | packages/marketplace/tenant_bundle.py:214-222 | a reference that several cells share ends with the secret of the last of them in writing order |
| `TenantRestore.RelocationFaithful` | packages/marketplace/tenant_bundle.py:212-222 | every fresh reference resolves to its cell's original secret if and only if cells with the same suffix hold the same secret |
| `TenantRestore.SuffixInjective` | packages/marketplace/tenant_bundle.py:219 | id and column can be read back from a reference |
| `TenantRestore.DistinctIdsNeverClash` | packages/marketplace/tenant_bundle.py:214-222 | row ids distinct across the secret-bearing tables make the relocation faithful |
| `BundleExample.RestoreTakesIt` | packages/marketplace/tenant_bundle.py:97-267 | an example bundle is valid, can be rewritten and is acyclic, so its restore succeeds |
| `BundleExample.SharedIdClashes` | packages/marketplace/tenant_bundle.py:219 | cells of rows with one id, in one column, clash when their secrets differ |
| `BundleExample.SharedIdLosesASecret` | packages/marketplace/tenant_bundle.py:214-222 | restoring that bundle, whose bot and provisioning job share an id, succeeds and leaves a secret unreachable, under every namespace |
| `TenantRestore.QuiescedResumesNothing` | packages/marketplace/tenant_bundle.py:223-244 | no pending status is left: interrupted sends are UNKNOWN, everything else that was pending is CANCELLED, and any other row with a status is kept |
| `TenantRestore.QuiescedElsewhere` | packages/marketplace/tenant_bundle.py:223-253 | only the listed columns of five tables may change; every row of any other table is inserted exactly as relocated |
| `TenantRestore.TenantQuiesced` | packages/marketplace/tenant_bundle.py:224-227 | can be rewritten exactly with the two columns in place; active only if asked for, settings lose exactly the four local keys, nothing else changes |
| `TenantRestore.BotQuiesced` | packages/marketplace/tenant_bundle.py:228-230 | enabled only if asked for, the runtime revision grows by one, nothing else changes |
| `TenantRestore.UpdateQuiesced` | packages/marketplace/tenant_bundle.py:232-236 | PROPOSED, APPROVED and BACKED_UP become CANCELLED with a new version and evidence; any other row is kept whole |
| `TenantRestore.AnnouncementQuiesced` | packages/marketplace/tenant_bundle.py:238-240 | exactly a QUEUED announcement becomes CANCELLED; any other row is kept whole |
| `TenantRestore.DeliveryQuiesced` | packages/marketplace/tenant_bundle.py:241-244 | RUNNING becomes UNKNOWN and QUEUED CANCELLED, with the error code; any other row is kept whole |
| `TenantRestore.QuiescedByTable` | packages/marketplace/tenant_bundle.py:223-244 | which rewriting a row gets is decided by its table alone |
| `TenantRestore.QuiesceRows` | packages/marketplace/tenant_bundle.py:223-244 | fails exactly when some row cannot be rewritten, and otherwise rewrites every row |
| `TenantRestore.QuiesceAll` | packages/marketplace/tenant_bundle.py:223-244 | succeeds exactly when every row can be rewritten, and then every row is quiesced |
| `Destination.PreparedIsReady` | packages/marketplace/tenant_bundle.py:106-127 | rewriting secrets and statuses keeps ids and references, so every validated table is fit for the layered insertion |
| `Destination.SameKeysCycles` | packages/marketplace/tenant_bundle.py:248-252 | a table is cyclic before the rewriting if and only if it is after |
| `Destination.UndoStored` | packages/marketplace/tenant_bundle.py:263-266 | deleting the recorded references gives back what the vault held elsewhere |
| `Destination.ValidSlotsUsable` | packages/marketplace/tenant_bundle.py:118-130 | the validator saw every secret that the relocation asks for |
| `Destination.PreparedIsCarried` | packages/marketplace/tenant_bundle.py:211-253 | every cell outside the rewritten columns is carried over: a secret as its fresh reference, anything else as it was |
| `Destination.ResolvedIsReached` | packages/marketplace/tenant_bundle.py:211-222 | a restored secret cell names a vault entry with the secret that the bundle gave it exactly when its reference resolves |
| `Destination.PreparedIsOwned` | packages/marketplace/tenant_bundle.py:106-121 | every restored row has exactly its table's columns and, where rows have an owner, belongs to the bundle's tenant |
| `Destination.Installation.Relocate` | packages/marketplace/tenant_bundle.py:211-222 | wherever it stops, the recorded references cover what was written; it finishes exactly when the calls suffice and every secret-bearing row has a textual id, and then vault and rows are exactly relocated |
| `Destination.Installation.InsertTable` | packages/marketplace/tenant_bundle.py:245-255 | at every point, failures included, no inserted row's foreign key dangles; exactly the table's rows enter; the cyclic error means a cycle, and any other that the calls did not suffice |
| `Destination.Installation.InsertAll` | packages/marketplace/tenant_bundle.py:245-255 | every prefix of insertions is closed under references, on failure too; all tables enter completely, only if none is cyclic; a foreign fault means that the calls did not suffice |
| `Destination.Installation.Install` | packages/marketplace/tenant_bundle.py:245-262 | success means complete, closed, acyclic and owned; the cyclic error means a cycle, a foreign fault too few calls |
| `Destination.Installation.Attempt` | packages/marketplace/tenant_bundle.py:213-262 | on success rows, secrets and ownership are all in place; on failure everything written to the vault is recorded; a foreign fault means too few calls or a row that cannot be rewritten |
| `Destination.Installation.Restore` | packages/marketplace/tenant_bundle.py:196-267 | refuses invalid bundles and occupied destinations; given enough calls and rows that can be rewritten, answers the cyclic error if and only if some table is cyclic and otherwise succeeds, with every row in, references closed, secrets relocated and the installation owned; on failure at any call the database is as before and, for a fresh namespace, the vault too; every restored cell is carried over, every row owned by the bundle's tenant, and outside five tables no row is rewritten |
| `DepositDesk.Desk.ApplyProviderResult` | packages/payments/flexible_deposits.py:119-160 | field-by-field update with an early stop equals one observation, partial writes included; accepted exactly when invoice, names and amounts fit, and then all of the evidence is on record |
| `DepositDesk.Desk.LookupDeposit` | packages/payments/flexible_deposits.py:188-200 | the lookup that opens a creation answers only with the caller's own deposit |
| `DepositDesk.Desk.InsertDeposit` | packages/payments/flexible_deposits.py:226-269 | the insert that ends it answers with a deposit of the caller's tenant, key and invoice; one that is not the caller's was there before |
| `DepositCreation.BookIsARun` | packages/payments/flexible_deposits.py:177-269 | the deposits that interleaved creations leave are those of one of the runs below |
| `DepositCreation.RepeatAnsweredExactlyWhen` | packages/payments/flexible_deposits.py:188-200 | over every interleaving, a call whose key a deposit of its tenant has is answered with it exactly for the same user and payment method, and refused otherwise |
| `DepositCreation.FirstCallAsks` | packages/payments/flexible_deposits.py:188-200 | a call whose key nobody has goes on to its provider exactly with a key of 8 to 100 characters |
| `DepositCreation.InsertedExactlyWhen` | packages/payments/flexible_deposits.py:226-269 | refused for an empty invoice or names outside the policy; stored exactly when neither key nor invoice is taken; a lost race is answered with the holder of the key exactly when the invoices agree |
| `DepositCreation.AnswerHoldsKey` | packages/payments/flexible_deposits.py:177-269 | over every interleaving an answer is a deposit of the caller's tenant under the caller's key |
| `DepositCreation.MisledExactlyWhen` | packages/payments/flexible_deposits.py:251-269 | over every interleaving an answer is another caller's deposit if and only if the call lost the race for its key to a deposit with the same invoice |
| `DepositCreation.UnsharedKeysNeverMislead` | packages/payments/flexible_deposits.py:188-269 | callers that share no key always get their own deposit |
| `DepositCreation.SecondCallerIsMisled` | packages/payments/flexible_deposits.py:255-268 | a run in which a caller gets a deposit of another payment method |
| `DepositDesk.Desk.CreditAssetWallet` | packages/payments/economics.py:55-150 | a first credit moves the balance by exactly the amount and leaves the one row that says so; a repeat changes no balance and no row; other wallets and earlier rows stay |
| `DepositDesk.Desk.SettleFlexibleDeposit` | packages/payments/service.py:296-355 | a first settlement moves the balance by exactly the amount and leaves the one row that says so; a repeat or a non-positive amount changes no balance and no row |
| `DepositDesk.Desk.SettleDeposit` | packages/payments/economics.py:392-475 | a deposit in no ledger ends in exactly one, with one row for its credited amount, exactly when it ends credited; no other deposit's rows are touched; credited exactly when automatic credit is on, the evidence complete, something left and, in a currency, a policy converts it within its cap; otherwise left for review, recorded as an error or rolled back |
| `DepositDesk.Desk.RecordCreditedReversal` | packages/payments/flexible_deposits.py:329-368 | for a credited deposit exactly one case, about the wallet of its one ledger row, which is frozen; no balance and no row changes |
| `DepositDesk.Desk.ReconcileDeposit` | packages/payments/flexible_deposits.py:284-327 | one reconciliation with its recorded and its raised errors |
| `DepositDesk.Desk.ReconcileOpen` | packages/payments/flexible_deposits.py:370-391 | a batch is the run of its reconciliations, or nothing if one raises |
| `DepositOutcomes.ResolveFinds` | packages/payments/economics.py:338-366 | the snapshot's policy is used if it serves the deposit; without one a policy is found exactly when some enabled one serves, and ANY only where the network has none of its own |
| `DepositOutcomes.ObservedExactly` | packages/payments/flexible_deposits.py:119-160 | evidence is accepted exactly when invoice, names and amounts fit, and then received amount, fee, names and status on record are the evidence's; a rejected amount leaves the earlier fields, a rejected name nothing |
| `DepositOutcomes.SettlesExactlyWhen` | packages/payments/economics.py:392-475 | credited, waiting for review, recorded as an error or rolled back: each exactly under its condition on terms, evidence and policies |
| `DepositOutcomes.UnusableAnswer` | packages/payments/flexible_deposits.py:284-327 | closed deposits and missing answers change nothing; a provider fault or another invoice marks the deposit UNKNOWN and nothing else |
| `DepositOutcomes.EvidenceRecorded` | packages/payments/flexible_deposits.py:136-160 | what each accepted and each rejected observation leaves of an uncredited deposit, field by field |
| `DepositOutcomes.EvidenceConfirms` | packages/payments/flexible_deposits.py:305-314 | after the credit fitting evidence only confirms CREDITED, and evidence that does not fit marks UNKNOWN |
| `DepositOutcomes.ReviewCreditsExactlyWhen` | packages/payments/flexible_deposits.py:315-327 | on every reachable book, an accepted SETTLED_REVIEW answer ends credited exactly when terms, evidence and policies allow it; without automatic credit it stays in SETTLED_REVIEW and nothing is credited |
| `DepositOutcomes.CreatedAsAsked` | packages/payments/flexible_deposits.py:226-250 | a new deposit records the request and the provider's first answer, and no credit |
| `DepositRuns.RunKeeps` | packages/payments/flexible_deposits.py:177-368 | the coherence of deposits, both ledgers and cases holds after every run of creations, reconciliations and other ledger traffic |
| `DepositRuns.RunEvolves` | packages/payments/flexible_deposits.py:284-327 | between any two points of a run a deposit only evolves |
| `DepositTheorems.CreditedExactlyOnce` | packages/payments/flexible_deposits.py:284-327 | over every run a deposit is credited if and only if exactly one of the two ledgers holds exactly one credit for it, for the credited amount |
| `DepositTheorems.ClosedStaysUncredited` | packages/payments/flexible_deposits.py:295-299 | a deposit that closed uncredited is never credited later |
| `DepositTheorems.CreditFreezes` | packages/payments/flexible_deposits.py:305-314 | after the credit no observation changes asset, network, received amount, fee or credit, and REVERSED is absorbing |
| `DepositTheorems.EvidenceOnlyGrows` | packages/payments/flexible_deposits.py:120-160 | over every run, partial updates included, received amounts never decrease and observed identities never change and lie in the allow-lists |
| `DepositTheorems.OneDepositPerInvoice` | packages/payments/flexible_deposits.py:251-268 | one provider invoice has one deposit however often its creation was retried, so it is credited at most once |
| `DepositTheorems.ReversalFreezesCreditedWallet` | packages/payments/flexible_deposits.py:330-368 | a reversal freezes the very wallet that holds the credit and leaves exactly one case |
| `DepositCredits.CreditedIsWorth` | packages/payments/flexible_deposits.py:316-318 | over every run a credit is what the deposit's own evidence was worth, under the policies of the step that credited it; the terms asked for an automatic credit of that kind, and an asset credit is the amount received, less the fee on a net basis |
| `DepositCredits.CreditedAsAgreed` | packages/payments/economics.py:403-475 | no run credits a deposit whose terms leave the credit to an operator, and the one ledger row is in the kind of wallet that the terms name |
| `DepositCredits.SettlementBounded` | packages/payments/economics.py:339-374 | at the end of every run a settlement is within half a cent of the deposit's net amount times the rate of a policy enabled at some step for its tenant, asset, network and currency, and never above the cap |
| `DepositCredits.CreditAboveReceivedExactlyWhen` | packages/payments/economics.py:379-390 | over every run an asset credit exceeds the received amount if and only if the basis is net and the fee on record is negative, and that fee was given at creation |
| `DepositCredits.AssetCreditWithinReceived` | packages/payments/flexible_deposits.py:228-250 | with no negative fee at any creation no asset credit exceeds the received amount |
| `DepositClaims.CreditedAboveReceived` | packages/payments/flexible_deposits.py:239-240 | a run that receives ten units and credits fifteen |
| `DepositClaims.ClaimedExactlyWhen` | packages/payments/flexible_deposits.py:228-327 | over every run a deposit says CREDITED without a credit if and only if its creation or an accepted answer had the provider say so and every event since left it alone |
| `DepositClaims.ClaimedAtCreation` | packages/payments/flexible_deposits.py:235 | a run of one creation that says CREDITED with nothing received |
| `AssetLedger.RunKeeps` | packages/payments/economics.py:109-166 | in every interleaving wallet locks and index entries are exclusive, a locked balance copy stays current, and the ledger keeps its shape |
| `AssetLedger.LedgerIsAChain` | packages/payments/economics.py:109-166 | each (tenant, key) has one row, each balance is the sum of its wallet's rows, and each row starts from the balance that the previous one of its wallet left |
| `AssetLedger.NewestCarriesBalance` | packages/payments/economics.py:135-152 | the newest row of a wallet ends at the wallet's balance |
| `AssetLedger.OneCreditPerKey` | packages/payments/economics.py:125-166 | two successful credits with one tenant and key return the same row, even when two wallets race |
| `AssetLedger.BegunExactlyWhen` | packages/payments/economics.py:92-125 | refused at once exactly for an amount that is not positive, a blank or overlong key, or a missing wallet |
| `AssetLedger.RepeatAnsweredExactlyWhen` | packages/payments/economics.py:126-166 | on every run a key that has a row is answered with it exactly for the same wallet and amount and refused otherwise, at lookup or at insertion; the ledger stays |
| `AssetLedger.FirstIsWritten` | packages/payments/economics.py:126-155 | a key without a row is written, from the locked balance, once no other transaction has it |
| `AssetLedger.CommitCredits` | packages/payments/economics.py:136-155 | on every run a new row raises its wallet's balance by the amount asked for and touches no other wallet |
| `AssetLedger.LedgerOnlyGrows` | packages/payments/economics_models.py:94-122 | ledger rows are never changed or removed |
| `AssetLedger.WaitsOnlyForCommit` | packages/payments/economics_models.py:98-102 | an insertion that waits for the index waits for a transaction that can commit at once |
| `WalletHolds.RunKeeps` | packages/payments/economics.py:189-289 | in every interleaving what a transaction decided under its locks still holds when it commits |
| `WalletHolds.BookedCoversHolds` | packages/payments/economics.py:175-289 | booked balances cover ACTIVE holds in every interleaving, as long as reversals and adjustments leave held funds alone |
| `WalletHolds.CaptureKeepsAvailable` | packages/payments/economics.py:233-270 | a capture's commit leaves the available balance of every wallet as it was |
| `WalletHolds.CaptureFindsFunds` | packages/payments/service.py:370-395 | the debit inside a capture goes through if and only if the wallet is active and covered |
| `WalletHolds.CaptureGoesThrough` | packages/payments/economics.py:233-270 | on every run whose reversals and adjustments leave held funds alone, a capture that has marked its hold pays and ends CAPTURED once its active wallet is free |
| `WalletHolds.CapturedExactlyOnce` | packages/payments/models.py:188-200 | a hold is CAPTURED if and only if exactly one debit pays for it, in full and from its wallet; a key names one hold |
| `WalletHolds.EndedHoldsStay` | packages/payments/economics.py:243-256 | CAPTURED and RELEASED are final |
| `WalletHolds.UncoveredExactlyWhen` | packages/payments/service.py:220-294 | a reversal or adjustment that goes through leaves its wallet covered exactly when it spares held funds |
| `WalletHolds.ReversalTakesHeldFunds` | packages/payments/service.py:258-262 | a run in which a reversal takes held funds and the capture is then refused |
| `WalletOutcomes.HoldsTakeAndGive` | packages/payments/economics.py:175-187 | an ACTIVE hold takes its amount from what is available in its own wallet and gives it back when it ends |
| `WalletOutcomes.DebitDecides` | packages/payments/service.py:357-395 | a debit goes ahead exactly when the amount is positive, the wallet active and the amount available |
| `WalletOutcomes.ReserveDecides` | packages/payments/economics.py:189-218 | exactly the available balance can be reserved; a used key is answered exactly for the same wallet and amount |
| `WalletOutcomes.ReleaseDecides` | packages/payments/economics.py:272-289 | ACTIVE is released, RELEASED answered, CAPTURED refused |
| `WalletOutcomes.DebitCommits` | packages/payments/service.py:396-413 | among any other transactions, a debit's commit takes exactly its amount from its wallet, with one row that says so |
| `WalletOutcomes.ReserveCommits` | packages/payments/economics.py:218-231 | among any other transactions, a reservation adds its hold unless the key was taken meanwhile, and the amount is still available |
| `WalletOutcomes.ReleaseCommits` | packages/payments/economics.py:286-289 | among any other transactions, a release frees its hold's amount |
| `WalletOutcomes.CaptureCommits` | packages/payments/economics.py:256-270 | among any other transactions, a capture takes the held amount with one row that names its hold |
| `WalletOutcomes.BookingsMove` | packages/payments/service.py:220-294 | credits add, top-up reversals take what is booked, adjustments set the balance, each with a row of exactly that movement |
| `WalletOutcomes.OnlyCommitsWrite` | packages/payments/economics.py:189-289 | no other step and no refusal writes a wallet, hold or row |
| `WalletOutcomes.AnswersAreTrue` | packages/payments/economics.py:189-289 | on every run a Paid debit has a row that took exactly its amount, a Paid capture the row of its CAPTURED hold, a reservation its hold, and a freed hold is RELEASED |
| `WalletDesk.Desk.ActiveTotal` | packages/payments/economics.py:175-183 | the sum of a wallet's ACTIVE holds |
| `WalletDesk.Desk.ReserveFunds` | packages/payments/economics.py:189-231 | the transaction of a reservation: a new key is reserved exactly when the amount is positive and available, and a used one answered exactly for the same wallet and amount |
| `WalletDesk.Desk.DebitWallet` | packages/payments/service.py:357-413 | the transaction of a debit: Paid exactly when the amount is positive, the wallet active and the amount available; then the row and the balance fall by it, otherwise nothing changes |
| `WalletDesk.Desk.CaptureHold` | packages/payments/economics.py:233-270 | the transaction of a capture: an ACTIVE hold is paid exactly from an active wallet that covers its holds, with one row of its amount; a CAPTURED one is answered with its row; a refused debit undoes the mark |
| `WalletDesk.Desk.ReleaseHold` | packages/payments/economics.py:272-289 | the transaction of a release: refused exactly for a CAPTURED hold; otherwise the hold is RELEASED and no longer held |
| `AnnouncementRuns.RunKeeps` | packages/operations/worker.py:60-276 | ownership and send accounting hold after every interleaving, with no assumption about timing |
| `AnnouncementRuns.AtMostOneSend` | packages/operations/worker.py:101-170 | a delivery has at most one live owner, a recipient one delivery per campaign, and a delivery at most one send that Telegram could have accepted |
| `AnnouncementRuns.NeverReplayed` | packages/operations/worker.py:213-246 | no send starts for a delivery that may already have been sent |
| `AnnouncementClosing.StepClosesExactlyWhen` | packages/operations/worker.py:213-275 | while every count taken still holds, a step keeps that so if and only if it is not a rate-limited worker queueing its swept delivery again in a campaign that is closed or being closed |
| `AnnouncementClosing.FirstLateStepIsHarmful` | packages/operations/worker.py:224-275 | after the first such step of a run at most two more steps leave a closed campaign with a QUEUED delivery |
| `AnnouncementClosing.TimelyRunCloses` | packages/operations/worker.py:66-144 | in a run without such a step every count still holds when it is acted on |
| `AnnouncementClosing.PromptIsTimely` | packages/operations/worker.py:101-124 | runs in which live sends finish within the stale window have no such step |
| `AnnouncementClosing.ClosedMeansSettled` | packages/operations/worker.py:247-275 | in such a run a closed campaign has no QUEUED or RUNNING delivery, and a COMPLETED one only SENT and CANCELLED ones, from then on |
| `AnnouncementClosing.ClosedStays` | packages/operations/worker.py:90-100 | a campaign leaves its queue once and keeps what it became |
| `AnnouncementExample.CompletedWithQueuedDelivery` | packages/operations/worker.py:224-236 | without promptness a COMPLETED campaign can hold a QUEUED delivery |
| `AnnouncementOutcomes.AnswerIsTaken` | packages/operations/worker.py:222-240 | accepted is SENT, rejected FAILED, unclear UNKNOWN, and too early QUEUED at the time asked for, at least a second later |
| `AnnouncementOutcomes.StatusTellsAnswer` | packages/operations/worker.py:222-246 | on every run SENT means accepted and FAILED rejected, and QUEUED or CANCELLED that nothing was answered but to wait |
| `AnnouncementOutcomes.RejectedNeverCancelled` | packages/operations/worker.py:237-246 | on every run a rejected send is FAILED, or about to be, or given up as UNKNOWN; never CANCELLED, QUEUED or SENT |
| `AnnouncementOutcomes.CompletedMeansAccepted` | packages/operations/worker.py:237-275 | in a timely run no delivery of a COMPLETED campaign was rejected or left unclear, and exactly the accepted ones are SENT |
| `AnnouncementOutcomes.CountedExactly` | packages/operations/worker.py:247-275 | a campaign closes exactly when nothing is QUEUED or RUNNING, for review exactly when something is UNKNOWN or FAILED |
| `AnnouncementOutcomes.RecordedExactly` | packages/operations/worker.py:224-275 | the commit records the own row as decided, puts off exactly the queued siblings of a rate-limited send, and moves the campaign only from its queue and only with a verdict |
| `AnnouncementOutcomes.ClaimedExactlyWhen` | packages/operations/worker.py:145-170 | claimed exactly when QUEUED and due |
| `AnnouncementOutcomes.SweptExactlyWhen` | packages/operations/worker.py:101-124 | given up as UNKNOWN exactly after more than five minutes RUNNING |
| `AnnouncementOutcomes.QueuedExactlyWhen` | packages/operations/service.py:264-316 | queued exactly from DRAFT with one to ten thousand distinct recipients, one delivery each, due at once |
| `AnnouncementOutcomes.CancelledExactlyWhen` | apps/api/v1/admin_operations.py:400-421 | a DRAFT or QUEUED campaign is cancelled together with exactly its QUEUED deliveries |
| `AnnouncementOutcomes.StartedExactlyWhen` | packages/operations/worker.py:213-223 | a send starts exactly for a claimed delivery of a campaign that was not cancelled |
| `AnnouncementWorker.Tables.FinaliseCampaigns` | packages/operations/worker.py:66-100 | closes only open campaigns with nothing pending, each with the verdict of its deliveries |
| `AnnouncementWorker.Tables.SweepStale` | packages/operations/worker.py:101-144 | exactly the listed rows that are still stale become UNKNOWN |
| `AnnouncementWorker.Tables.ClaimOne` | packages/operations/worker.py:145-173 | claims the first candidate that is still claimable and nothing else |
| `AnnouncementWorker.Tables.Deliver` | packages/operations/worker.py:174-276 | a delivery seen through is exactly the steps of sending, counting and recording; accepted is recorded SENT, rate limited QUEUED, rejected FAILED, unclear UNKNOWN and a skipped one CANCELLED, and the campaign closes exactly when its counts say so |
| `AnnouncementWorker.Tables.RunOnce` | packages/operations/worker.py:60-276 | a whole cycle is a run of those steps and keeps their invariant, whatever the queries and the transport return; the claimed delivery ends with the status of its answer, or CANCELLED |
| `FulfillmentRuns.RunKeeps` | packages/fulfillment/service.py:85-423 | over every run of execute, retry, reconcile and requeue refunds match the status, and nothing dispatched or fulfilled is left with a job that could run again |
| `FulfillmentRuns.FailedExactlyWhenRefunded` | packages/fulfillment/service.py:377-423 | an order is FAILED if and only if it has exactly one refund, of its total; otherwise, FULFILLED included, none |
| `FulfillmentRuns.RunFollowsTheTable` | packages/commerce/state_machine.py:22-79 | over every run, smooth or not, the statuses of an order are a path in the transition table |
| `FulfillmentRuns.TerminalStays` | packages/commerce/state_machine.py:47-56 | FAILED, CANCELLED, REFUNDED and FULFILLED are never left by fulfillment |
| `FulfillmentRuns.RefundIsTheEnd` | packages/fulfillment/worker.py:283-326 | with at most three retries a refunded order's job never runs again |
| `FulfillmentLimits.LateFaultRefundsFulfilled` | packages/fulfillment/service.py:295-354 | an execution breaks the link between status and refund exactly when something raises after its FULFILLED commit |
| `FulfillmentLimits.DeliveredAndRefunded` | packages/fulfillment/service.py:354-423 | a run that ends FULFILLED and refunded |
| `FulfillmentLimits.ReconcileUnsettlesExactlyWhen` | packages/fulfillment/reconciliation.py:136-159 | a reconciliation breaks the link exactly when the refund of an open order fails and the session is committed later |
| `FulfillmentLimits.FailedAndNotRefunded` | packages/fulfillment/reconciliation.py:273-289 | a run that ends FAILED without a refund |
| `FulfillmentLimits.FailedRefundIsHarmless` | packages/fulfillment/service.py:402-423 | a refund that fails inside an execution neither pays nor closes the order |
| `FulfillmentLimits.StaysSettledExactlyWhen` | packages/fulfillment/service.py:295-423 | over every run, whatever faults it meets, FAILED and refunded go together throughout if and only if no execution refunds the order while FULFILLED and no reconciliation closes it over a failed refund |
| `FulfillmentLimits.RedispatchExactlyWhen` | packages/fulfillment/worker.py:284 | some run dispatches a refunded order again if and only if the worker retries more than three times |
| `FulfillmentOutcomes.RequeuedExactlyWhen` | packages/fulfillment/operations.py:69-139 | a requeue goes through exactly for a dead-letter job of an unrefunded PAID or PROCESSING order whose latest attempt is absent, or has no upstream id and is Retrying or retryably Failed; its number is above every attempt |
| `FulfillmentOutcomes.BlockedNeverReplayed` | packages/fulfillment/operations.py:75-81 | over every run, once the job is dead and the latest attempt is UNKNOWN, has an upstream id, or is not retryable, the job stays dead and no attempt is ever added |
| `FulfillmentOutcomes.DeadLettersLeftSafely` | packages/fulfillment/operations.py:141-196 | over every run, a job leaves the dead letters only by such a requeue |
| `FulfillmentOutcomes.FiledExactly` | packages/fulfillment/worker.py:275-336 | COMPLETED exactly when the call returned, QUEUED under the next number exactly for a retryable error below the limit, otherwise DEAD_LETTER |
| `FulfillmentOutcomes.ThrownExactly` | packages/fulfillment/service.py:354-423 | retried exactly when the error or its cause is retryable on one of the first two attempts, as UNKNOWN after a timeout; otherwise Failed with one refund of the total |
| `FulfillmentOutcomes.RefusedExactly` | packages/fulfillment/service.py:232-243 | a refused item fails the attempt for good, with the upstream order on record |
| `FulfillmentOutcomes.OpenExactly` | packages/fulfillment/service.py:260-293 | with an item still open the attempt waits, UNKNOWN unless it is one item with a clear state; the order is neither ended nor refunded |
| `FulfillmentOutcomes.DeliveredExactly` | packages/fulfillment/service.py:295-352 | with every item delivered an order that may be fulfilled is FULFILLED and its attempt Succeeded |
| `FulfillmentOutcomes.UnqueriedStays` | packages/fulfillment/reconciliation.py:56-86 | only an active attempt with a provider that answers is touched |
| `FulfillmentOutcomes.SuccessReported` | packages/fulfillment/reconciliation.py:95-133 | a report of success makes the order FULFILLED exactly when it is PROCESSING or partly fulfilled and the cost is recorded or the session committed anyway |
| `FulfillmentOutcomes.FailureReported` | packages/fulfillment/reconciliation.py:135-250 | a report of failure makes the order FAILED exactly when it has not ended and the refund works or the session is committed anyway, with one refund of the total exactly when it works |
| `FulfillmentOutcomes.NothingReported` | packages/fulfillment/reconciliation.py:252-272 | any other report leaves the order; the attempt is UNKNOWN or Processing |
| `FulfillmentDesk.DispatchItems` | packages/fulfillment/service.py:195-250 | the item loop stops at the first failure; accepted costs are summed within one currency and are zero otherwise |
| `FulfillmentDesk.Desk.HandleFailure` | packages/fulfillment/service.py:354-423 | a refund is written at most once, of the total, and only for a failure that is not retried; the order closes only with a refund on record; only this attempt changes |
| `FulfillmentDesk.Desk.ExecuteOrderFulfillment` | packages/fulfillment/service.py:85-423 | one execution with attempt reuse, dispatch, success and failure |
| `FulfillmentDesk.Desk.Reconcile` | packages/fulfillment/reconciliation.py:56-289 | FULFILLED exactly on a report of success for an order in progress whose cost is recorded or session committed anyway; FAILED only on a report of failure; a refund at most once, of the total, never for a FULFILLED order |
| `FulfillmentDesk.Desk.ProcessJob` | packages/fulfillment/worker.py:242-338 | claims a queued job once, executes it and files the result |
| `FulfillmentDesk.Desk.RequeueDeadLetter` | packages/fulfillment/operations.py:69-196 | finds the latest attempt, refuses for the first reason that applies, and otherwise queues under a number no attempt has used; accepted exactly for a replayable job, and a refusal leaves the job as it was |
| `CheckoutRequests.MergeCart` | packages/commerce/checkout.py:114-120 | fails exactly for a non-positive quantity; otherwise each variant asked for carries the sum of its lines |
| `CheckoutRequests.MergePermuted` | packages/commerce/checkout.py:114-120 | reordering lines does not change the cart |
| `CheckoutRequests.MergeSplit` | packages/commerce/checkout.py:114-120 | splitting a line does not change the cart |
| `CheckoutRequests.SortedItemsInjective` | packages/commerce/checkout.py:331-341 | the sorted items determine the cart |
| `CheckoutRequests.SameRequestExactlyWhen` | packages/commerce/checkout.py:331-341 | two requests have one canonical form if and only if merged carts, trimmed recipients and upper-cased coupons agree |
| `CheckoutRuns.RunKeeps` | packages/commerce/checkout.py:84-296 | every interleaving keeps orders, debits, jobs and redemptions consistent |
| `CheckoutRuns.OneOrderPerKey` | packages/commerce/checkout.py:201-225 | all successes with one tenant, user and key return one order, the only one with that key |
| `CheckoutRuns.RetryAnsweredExactlyWhen` | packages/commerce/checkout.py:131-146 | a retry is answered with the first order if and only if it asks for the same thing, and refused otherwise |
| `CheckoutRuns.PaidExactlyOnce` | packages/commerce/checkout.py:181-296 | every order's lines are the merged cart of its request, line totals add up to the separately computed order total, exactly one debit of it was taken, and there is at most one durable job |
| `CheckoutRuns.CouponsCounted` | packages/operations/service.py:225-236 | a coupon's counter equals its redemptions and never exceeds its limit |
| `CheckoutRuns.DiscountExplained` | packages/operations/service.py:237-261 | over every run a redemption plus the new total is the quoted prices times the merged quantities; for whole-cent prices it is at most the percentage of that and short of it by less than a cent a unit |
| `CheckoutHistory.JobExactlyWhenDurable` | packages/commerce/checkout.py:282-296 | over every run each order was placed by one call, which got it as its answer; it has exactly one job if that call was durable and none otherwise |
| `CheckoutHistory.ChargedAsQuoted` | packages/commerce/checkout.py:164-243 | over every run an order has the currency and, line by line, the prices that its transaction was quoted; only with a redemption does a line charge anything else |
| `CheckoutHistory.RefusedAtOnceExactlyWhen` | packages/commerce/checkout.py:104-130 | the checks before the first query, one by one |
| `CheckoutHistory.RedeemedWhileUsable` | packages/operations/service.py:212-236 | over every run a redemption was committed while its coupon was active with a use left, made before it expired, and is for an order in its currency that reaches its minimum |
| `CheckoutDesk.CheckoutPass` | packages/commerce/checkout.py:84-296 | the seven steps of an undisturbed checkout add up to one decision |
| `CheckoutDesk.CheckedOutExactlyWhen` | packages/commerce/checkout.py:104-296 | a checkout succeeds exactly when the request is acceptable and repeats its order, or every variant is found, there is something to pay and the coupon, if any, is usable and lowers the total |
| `CheckoutDesk.SumPrices` | packages/commerce/checkout.py:181-188 | the loop computes prices times quantities over the variants found |
| `CheckoutDesk.BuildItems` | packages/commerce/checkout.py:232-243 | the loop builds each line with its own total and its quoted price |
| `CheckoutDesk.AllFoundExactlyWhen` | packages/commerce/checkout.py:150-162 | comparing counts detects exactly the missing variants |
| `CheckoutDesk.Desk.CheckoutCart` | packages/commerce/checkout.py:84-296 | a checkout from validation to commit is exactly the steps of one transaction, and succeeds exactly under those conditions; a new order comes with one debit of its total and, exactly for a durable call, one job; any other answer writes nothing |
| `Coupons.WholeCentUnit` | packages/operations/service.py:237-244 | for a whole-cent price the one-cent floor never binds and the discount is the percentage rounded down to a cent |
| `Coupons.DiscountBounds` | packages/operations/service.py:237-246 | the discount is at most the percentage of the total and short of it by less than a cent a unit |
| `Coupons.FloorBindsExactlyWhen` | packages/operations/service.py:237-244 | the one-cent floor binds exactly when the percentage of the price reaches all its whole cents, and raises the price exactly when it is below a cent |
| `Coupons.FloorBindsAboveACent` | packages/operations/service.py:237-244 | a price above a cent at which the floor binds |
| `Coupons.Reprice` | packages/operations/service.py:238-245 | the new unit prices and their total |
| `Coupons.Redeemer.ApplyCoupon` | packages/operations/service.py:200-261 | succeeds exactly for a usable coupon that lowers the total; then prices, total, counter and redemption agree; otherwise nothing changes |
| `Provisioning.RunKeeps` | packages/factory/provisioning.py:151-336 | counters and bot ownership hold after every run, and nothing that is final is taken back |
| `Provisioning.EndsOnce` | packages/factory/provisioning.py:215-250 | moves to READY or FAILED are exactly the administrator's retries, plus one once the job has ended |
| `Provisioning.EndingIsFinal` | packages/factory/provisioning.py:215-336 | READY and CANCELLED are final, and FAILED is left only by an administrator's retry |
| `Provisioning.FailedThenReady` | apps/api/v1/admin_bots.py:979-1010 | a run in which a FAILED job becomes READY after an administrator's retry |
| `Provisioning.AttemptsBounded` | packages/factory/provisioning.py:173-201 | attempts since the last administrator's retry are at most the limit plus the number of leases that expired since |
| `Provisioning.IdentityStaysWithTenant` | packages/factory/provisioning.py:264-300 | a Telegram identity never changes tenant, and a READY job names a bot of its own tenant |
| `ProvisioningOutcomes.RecoveredExactlyWhen` | packages/factory/provisioning.py:151-171 | taken back exactly when RUNNING with a lease before now; due again at once |
| `ProvisioningOutcomes.ClaimedExactlyWhen` | packages/factory/provisioning.py:173-201 | claimed exactly when PENDING or RETRY and due; the lease runs from now and the attempt counts |
| `ProvisioningOutcomes.FailedExactlyWhen` | packages/factory/provisioning.py:215-250 | a failure of a RUNNING job is retried after the delay exactly when retryable below the attempt limit, and otherwise ends it |
| `ProvisioningOutcomes.ConvergedExactlyWhen` | packages/factory/provisioning.py:264-336 | READY exactly for a RUNNING job of an active tenant whose identity is its own or new and not lost in a race |
| `ProvisioningOutcomes.AdministratorActsExactlyWhen` | apps/api/v1/admin_bots.py:979-1026 | exactly what waits can be cancelled and exactly what FAILED retried, with the attempts counted anew |
| `ProvisioningOutcomes.RunningIsLeased` | packages/factory/provisioning.py:173-250 | on every run exactly the RUNNING jobs have a lease, never longer than the lease time from now |
| `ProvisioningOutcomes.AbandonedIsRecovered` | packages/factory/provisioning.py:151-171 | on every run a RUNNING job can be taken back once more than the lease time has passed |
| `Provisioning.Service.RecoverStaleJobs` | packages/factory/provisioning.py:151-171 | exactly the jobs with an expired lease go back to retry, and their number is returned |
| `Provisioning.Service.ClaimNextJob` | packages/factory/provisioning.py:173-201 | claims an oldest claimable job, or says that there is none |
| `Provisioning.Service.FinishJob` | packages/factory/provisioning.py:252-339 | READY only for a job still RUNNING with a bot of no other tenant; every other ending is filed as a failure |
| `Provisioning.Service.Backoff` | packages/factory/provisioning.py:225-228 | the delay doubles with every attempt up to its limit |
| `Pricing.ResolveRule` | packages/commerce/economics.py:127-167 | an applicable rule that no applicable rule precedes, or none if none applies |
| `Pricing.BestOffer` | packages/commerce/economics.py:97-125 | a cheapest fresh offer, or none if none is fresh |
| `Pricing.RuleChosen` | packages/commerce/economics.py:127-167 | the rule used leads every eligible one: variant before product before category before all, a tier's own rule first, then priority, then id; none exactly when none is eligible |
| `Pricing.OfferChosen` | packages/commerce/economics.py:97-125 | a cheapest offer that is the tenant's, available, unexpired, in the currency and for the product or variant; none exactly when there is none |
| `Pricing.DecidedExactly` | packages/commerce/economics.py:192-234 | the catalog price exactly without an eligible rule or usable offer, and otherwise the leading rule applied to the cheapest cost |
| `Pricing.PriceIsOrderFree` | packages/commerce/economics.py:192-234 | the decided price depends only on which rules and offers there are |
| `Pricing.PriceIsLeastMultiple` | packages/commerce/economics.py:169-190 | the least multiple of the increment that covers cost plus margin and cost plus markup: the percentage unless FIXED, the fixed amount unless PERCENT |
| `Pricing.PriceGrowsWithCost` | packages/commerce/economics.py:169-190 | a dearer supplier never lowers the price while the percentage is at least minus one hundred |
| `RateLimiter.Prune` | packages/core/security.py:200-201 | popping from the front is filtering to the window |
| `RateLimiter.Limiter.Allow` | packages/core/security.py:196-205 | the deque is always what was admitted of all arrivals, filtered to the last minute; a request is admitted exactly when that holds fewer than the limit |
| `RateLimiter.Limiter.WindowsWithinLimit` | packages/core/security.py:196-205 | a limiter has admitted at most the limit in every minute under every key |
| `RateLimiter.EveryWindowWithinLimit` | packages/core/security.py:196-205 | of any stream of arrivals every window of sixty seconds admits at most the limit |
| `RateLimiter.DeniedOnlyWhenFull` | packages/core/security.py:202-203 | a request is denied exactly when the last minute holds the limit |
| `SupportCases.VersionsConsumedOnce` | packages/operations/service.py:121-192 | version equals message count, each version is consumed by at most one reply, RESOLVED and DECLINED are absorbing |
| `SupportCases.AcceptedExactlyWhen` | packages/operations/service.py:141-178 | who may reply, to which version and status, and which moves staff may make |
| `SupportCases.UpdatedExactly` | packages/operations/service.py:170-192 | an accepted reply adds one version and one message, moves as asked, and resolves exactly when it ends the case |
| `SupportCases.DecidedByStaff` | packages/operations/service.py:141-192 | on every run only a warranty is decided, a resolution is there exactly at the end, and customers alone move nothing |
| `SupportCases.Desk.UpdateCase` | packages/operations/service.py:141-192 | a reply is accepted exactly when it passes every check, and then consumes its version |

## Left out

- Exporting a bundle (`snapshot`), encryption and the file format: queries and foreign calls. The bundle schema is a parameter with tables in dependency order.
- Destination.Installation.Restore: a failing deletion during the undo is not modelled; the vault is restored when the fresh namespace was unused, as a random one is.
- The typed conversion of inserted rows, which fails on text that is no UUID, date or decimal: the model counts such a failure only as a failing call.
- Identifier normalisation covers ASCII letters and blanks only.
- Decimal arithmetic is exact (scaled integers, or reals in `Pricing`); the 28-digit context and column widths are not modelled.
- DepositCreation.MisledExactlyWhen: an insert and its commit are one step, and what the provider returns for a key is arbitrary.
- WalletDesk.Desk.CaptureHold: the service marks the hold and leaves the undo of a refused debit to the rollback of its caller's transaction; the method performs that rollback itself.
- Building the deposit policy snapshot from a payment method's settings: the snapshot is an input of creation.
- Hashes and generated references are taken as injective; the canonical request stands for its hash.
- AssetLedger.RunKeeps: each transaction makes one credit; transactions that lock several wallets are not modelled.
- WalletHolds.RunKeeps: the replay of a top-up reversal by its id and tenant scoping of holds are not modelled; a row is inserted and committed in one step.
- AnnouncementRuns.RunKeeps: the updates of the claiming transaction become visible one at a time rather than at its commit.
- AnnouncementClosing.ClosedMeansSettled: holds of runs in which no rate-limited worker queues its swept delivery again in a campaign that is closed or being closed; that condition is exact.
- FulfillmentRuns.FailedExactlyWhenRefunded: assumes one job per order, no crash recovery, refund calls that succeed, and no exception after the FULFILLED commit; the last two are shown to be needed. Two sessions reconciling one attempt at the same time, and cost attribution, are not modelled.
- FulfillmentDesk.Desk.ExecuteOrderFulfillment: an exception after the commit of a status that is not terminal, which also enters the failure flow, is not modelled; only one after the FULFILLED commit is.
- The worker's in-memory queue: a wake-up may carry any attempt number, so nothing depends on it.
- Checkout's wallet balance is covered by WalletHolds; here a debit is written inside the open transaction or rolls the checkout back. Quoted prices and their one currency, tenant pause and variant lookup are inputs; a cart quoted in two currencies, which is refused, is not modelled.
- Coupon codes are looked up by an arbitrary id.
- Provisioning's secret lookup, username match and Telegram call are one arbitrary outcome; expired leases are recovered row by row in runs.
- Pricing tiers, quotes and cost attribution: lookups and writes without an algorithm.
- The limiter's Redis branch and body limits.
- Notifications, audit rows, templates, business profiles, analytics, onboarding, migrations and the HTTP layer.
