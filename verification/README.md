# Formal model of the order and payment back end

This project models the parts of the PJSK order system whose correctness spans several functions or whole
runs, and proves the properties those parts exist for. `dafny verify dfyconfig.toml` checks everything.

* **The payment ledger** (`Money`, `Text`, `ImportRules`, `Ledger*`). Users, orders, order items, payments,
  payment rows, payment proofs and import batches form one database value; every store method is one atomic
  transaction, a function from the tables before to the tables after and a reply. A refused transaction rolls
  back. `LedgerInvariant` states what ties the tables together (a payment's user owns the order of every item it
  pays, all items of an order come from one batch, stored statuses and totals are the derived ones, ...),
  `LedgerPayments` and `LedgerImports` prove that each transaction keeps it, `LedgerAdmission` says exactly which
  requests are accepted and what they then do, `LedgerRuns` draws the conclusions for every run, `LedgerVoid`
  compares a run with the same run without one voided payment, `LedgerRevoked` says what that leaves of the items
  revoked meanwhile, and `LedgerEffects` tells row by row what merges, proofs, previews and revocations leave.
  `ImportRulesMeaning` says what an adjusted preview holds in terms of the stored one. `LedgerStore` holds the tables as fields and runs the loops of the Go methods;
  `ImportRulesApply` holds the loops of the import rules, including the compaction that overwrites the array it is
  reading.
* **The emailed codes** (`Recovery*`, `EmailVerification*`). A send is prepared, confirmed or marked failed, a
  code is verified, a session reset, each a transaction of its own, interleaved with each other and with
  everything else that writes these tables: replacing, unbinding or verifying an email, disabling or merging a
  user, changing a query code. `RecoveryInvariant` shows what every interleaving keeps, `RecoveryWindows` how many
  codes, guesses and sends an hour can see, `RecoveryTrace` where a completed reset comes from, `RecoveryAdmission`
  and `EmailVerificationAdmission` exactly when each step goes through, `RecoveryEffects` and
  `EmailVerificationEffects` what each step writes, row by row, refused or not, `ResetTokens` and `RecoveryService` what the
  service checks before the store is asked, and `RecoveryRoundTrip` that an undisturbed recovery succeeds. In
  `RecoveryStore` and `EmailVerificationStore` the tables are fields, and the look-ups by a unique key, the aggregates
  and the updates of a transaction are scans over the rows.
* **The two login limiters** (`AdminLimiter*`, `QueryLimiter*`). Counters in maps, cleaned up lazily; one fails
  closed at capacity, the other evicts the least recently seen key. `QueryLimiterBounds`, `QueryLimiterBlocks` and
  `AdminLimiterBlocks` say exactly how many addresses and pairs the limits survive, and the `Origins` modules which
  logins and failures of the run a refusal, an eviction or a forgotten failure rests on. The runs of the `Blocks` modules are those
  the handlers can produce: in order, with each failure or success recorded for a login of its own that was let in
  before. `LimiterKeys` has what both need of maps and keys.
* **The order filters** (`OrderFilters`, `OrderPages`, `OrderQueries`). The compiler from a filter record to
  conjuncts with numbered placeholders, and the list, facets and export that run what it emits.

Conventions. Money is in whole cents; the tolerances 0.004 and 0.005 are written in tenths of a cent. Time is an
integer that never runs backwards along a run, and a transaction uses one instant throughout. A row's id is its
index in its table, except for payments, proofs and batches, whose generated ids a step carries and the database
guarantees to be new. Where the database may choose (the row a look-up returns, the order of rows created at one
instant) or Go does (the order of map iteration), the step or event carries the choice, and the predicates
`Offered`, `Allowed`, `Fair` say which choices are possible. Unique keys of the schema (`cn_code`,
`idempotency_key`, `file_hash`, user and request id, token hash) are modelled as refusals. Random codes, tokens
and ids are parameters; HMAC, SHA-256 and bcrypt are taken to be injective, so a row holds the secret itself.

Four properties one would expect fail in some states. Each is given its exact condition and a run from the empty
state in which it fails.

* A revoked item's stored status is frozen. Voiding a payment puts back an item exactly if no step revoked it while
  that payment decided its status (`LedgerRevoked.VoidUndoesItem`, `LedgerRevoked.RevokedStatusDiffers`).
* The query limiter evicts the counters its limits rest on. The limit on an address's logins, and the block after
  too many failures, hold over all runs exactly if the map has a place for every address or pair that occurs
  (`QueryLimiterBounds.LimitIffPlaces`, `QueryLimiterBlocks.BlockIffPlaces`); with one more there is no bound at all
  (`QueryLimiterBounds.EvictionDefeatsLimit`, `QueryLimiterBlocks.EvictionForgetsFailures`).
* The admin limiter does not record the failures of a new pair when its map is full. The comment at
  backend/internal/admin/ratelimit.go:106-109 says that this cannot be used to get past a limit, since a full map of
  addresses refuses logins anyway. The code refuses new addresses only: a new pair at a known address logs in, fails,
  and is never blocked (`AdminLimiterBlocks.FullMapForgets`, `AdminLimiterBlocks.BlockIffPlaces`).
* The wait a refused verification mail is told can be too short. If the cool-down caused it, a request at the told
  instant is admitted exactly if the hourly window still has room then (`EmailVerification.CooldownRetryAfter`,
  `EmailVerification.CooldownRetryAfterTooShort`).

## Model

| member | source | states |
|---|---|---|
| Money.FeeIsLeastCover | backend/internal/payments/handler.go:1393-1404 | the WeChat fee is the least whole number of cents covering 0.1 %; other methods are free |
| Money.SplitFee | backend/internal/payments/handler.go:1393-1412 | splitting a principal into n parts costs between 0 and n - 1 cents more fee than paying it at once |
| Money.SplitFeeTight | backend/internal/payments/handler.go:1393-1412 | both ends of that range occur |
| Money.TolerancesAreExact | backend/internal/payments/handler.go:1246-1277 | in cents, the 0.004 of the status and the 0.005 of the limits are exact comparisons |
| Money.ClassifiersAgree | backend/internal/orders/filters.go:414-418 | the recalculation's and the list's classifier agree exactly unless an item that costs nothing has money applied to it |
| Text.CleanIsJoin | backend/internal/payments/handler.go:1348-1350 | cleaning a text leaves its words, one blank between any two of them |
| Text.FoldCNSame | backend/internal/querycoderecovery/security.go:180-182 | two CNs are looked up under one key iff they are the same words but for case |
| ImportRules.SurvivorsExact | backend/internal/importpreview/rules.go:80-110 | the details kept are, in order, the corrected images of exactly those no rule excludes |
| ImportRules.KeptAt | backend/internal/importpreview/rules.go:80-110 | the kept positions are increasing and are exactly the positions of details that are not excluded |
| ImportRules.LastRuleWins | backend/internal/importpreview/rules.go:112-129 | the category is that of the last matching rule, or the detail's own if none matches |
| ImportRules.AdjustedConsistent | backend/internal/importpreview/rules.go:131-177 | every batch and sheet total of an adjusted preview is the sum over the survivors shown with it |
| ImportRules.ApplyTwice | backend/internal/importpreview/rules.go:13-93 | applying the same rules to an adjusted preview changes nothing |
| ImportRulesMeaning.AdjustedExactly | backend/internal/importpreview/rules.go:13-78 | the adjusted preview holds, in order, exactly the stored batches and sheets that are not dropped, each with its surviving details; its errors, warnings and notices are, list by list, those of these batches joined; it is refused iff some category is longer than 40 characters |
| ImportRulesMeaning.DroppedMeans | backend/internal/importpreview/rules.go:31-60 | a batch is dropped iff its sheet is listed, or it is a matrix of which no detail is left |
| ImportRulesMeaning.ExcludedMeans | backend/internal/importpreview/rules.go:95-110 | a detail is excluded iff its id is listed or a CN rule, with the sheet and batch it names, is for its CN |
| ImportRulesMeaning.CategoryMeans | backend/internal/importpreview/rules.go:112-129 | the category is that of the last rule given that has one and concerns the detail, by the ids it lists or else by sheet and batch |
| ImportRulesMeaning.CorrectedMeans | backend/internal/importpreview/rules.go:80-93 | a correction changes a detail's category, its product's category and the name shown, to series and category, or the one of them there is |
| ImportRulesMeaning.TableTotalMeans | backend/internal/importpreview/rules.go:145-155 | a detail adds its row's amount to the table total iff it is the first of its sheet, row and CN |
| ImportRulesMeaning.CountsMean | backend/internal/importpreview/rules.go:139-156 | a detail raises the number of types iff none before it agrees in all five parts of the type, and the number of CNs iff none has its CN |
| ImportRulesMeaning.HashMeans | backend/internal/importpreview/parser.go:1255-1281 | two batches have one content hash iff sheet, name, template, rows, price type and, one by one, the twelve hashed parts of their details agree |
| ImportRulesApply.CompactDetails | backend/internal/importpreview/rules.go:80-93 | the in-place compaction leaves exactly the survivors in front, although it overwrites the array while reading it |
| ImportRulesApply.RecalculateBatch | backend/internal/importpreview/rules.go:131-161 | the loop over the details and its maps gives the batch totals of the specification |
| ImportRulesApply.RecalculateSheet | backend/internal/importpreview/rules.go:163-177 | the loop over the batches gives the sheet totals of the specification |
| ImportRulesApply.ApplyBatchRules | backend/internal/importpreview/rules.go:80-93 | a batch's details, compacted in their own array, are the specified survivors with the specified totals |
| ImportRulesApply.ApplyImportRules | backend/internal/importpreview/rules.go:13-78 | the whole rule application refuses or yields the adjusted preview, which AdjustedExactly describes list by list |
| ImportRulesApply.MapSumRemove | backend/internal/importpreview/rules.go:131-161 | the table total is independent of the order in which Go iterates over its map |
| LedgerInvariant.RecalculateRestores | backend/internal/payments/handler.go:1246-1304 | recalculating the one user whose items are stale makes every stored item and order status right again |
| LedgerInvariant.OrderStatusMeaning | backend/internal/payments/handler.go:1279-1302 | an order with live items is paid iff all are paid, submitted iff none has money on it, partly paid otherwise |
| LedgerInvariant.CountsMeaning | backend/internal/payments/handler.go:1279-1302 | the order status computed from counts is the stated function of which statuses occur among live items |
| LedgerPayments.MergeIsSum | backend/internal/payments/handler.go:1306-1317 | merging request lines adds up, per item, exactly the amounts of the lines naming it |
| LedgerPayments.LockedAll | backend/internal/payments/handler.go:1197-1244 | the locked rows are as many as the requested ids iff every requested item is payable by the user |
| LedgerPayments.AllocationFacts | backend/internal/payments/handler.go:603-647 | a request that passes the checks pays only items of the user, each a positive amount within what remains |
| LedgerPayments.InsertPaid | backend/internal/payments/handler.go:648-680 | recording a payment raises each named item's paid sum by its merged amount and moves nothing else |
| LedgerPayments.InsertLeavesStale | backend/internal/payments/handler.go:557-692 | after the inserts only the paying user's stored statuses can be out of date, so recalculating that user is enough |
| LedgerPayments.CreateKeepsInv | backend/internal/payments/handler.go:557-692 | creating a payment keeps the ledger invariant |
| LedgerPayments.VoidLeavesStale | backend/internal/payments/handler.go:901-967 | voiding leaves at most the payment's own user's statuses out of date, because that user owns all items it pays |
| LedgerPayments.VoidKeepsInv | backend/internal/payments/handler.go:901-967 | voiding a payment keeps the ledger invariant |
| LedgerPayments.MergeKeepsInv | backend/internal/users/merge.go:171-262 | merging users keeps the ledger invariant; what the merge moves is MergedExactly |
| LedgerPayments.ProofKeyInjective | backend/internal/paymentsubmission/store.go:483-485 | the idempotency key derived from a proof's id belongs to that proof alone |
| LedgerPayments.LinksDistinct | backend/internal/paymentsubmission/store.go:406-480 | no two proofs link the same payment |
| LedgerPayments.ApproveKeepsInv | backend/internal/paymentsubmission/store.go:406-480 | approving a proof keeps the ledger invariant, links included |
| LedgerImports.ConfirmReports | backend/internal/importpreview/handler.go:698-836 | a confirmation writes one item per surviving detail and one order per distinct CN, and the quantity and amount it reports are the sums over the rows it wrote |
| LedgerImports.ConfirmGroups | backend/internal/importpreview/handler.go:730-776 | two details land in the same order iff they have the same CN, in an order of the user with that CN, with their own quantity and amount |
| LedgerImports.ConfirmKeepsInv | backend/internal/importpreview/handler.go:661-836 | confirming an import keeps the ledger invariant |
| LedgerImports.SaveKeepsInv | backend/internal/importpreview/handler.go:373-466 | saving a preview keeps the ledger invariant |
| LedgerImports.RevokeEmpties | backend/internal/importpreview/handler.go:900-956 | revoking a batch leaves no live item in any order it touches, because an order's items share one batch |
| LedgerImports.RevokeCancels | backend/internal/importpreview/handler.go:847-983 | revocation revokes the batch's items, leaves their orders cancelled with total 0 and touches no other item or order |
| LedgerImports.RevokeKeepsInv | backend/internal/importpreview/handler.go:847-983 | revoking an import keeps the ledger invariant |
| LedgerAdmission.RecordedExactly | backend/internal/payments/handler.go:557-692 | a well-formed request with a fresh key is recorded iff it names only items the user may pay, each for something and no more than it owes; then each paid sum grows by what was asked, and the payment is by the method asked and worth the sum of its lines plus the fee |
| LedgerAdmission.CreatedExactly | backend/internal/payments/handler.go:557-692 | a request is answered with a payment iff it is well formed, its user is found, and its key is taken or it is acceptable: with the payment that carries the key and no change, or with a new one whose every field is told; a refusal changes nothing |
| LedgerAdmission.UserFound | backend/internal/payments/handler.go:981-996 | the user of a request is an active one whose CN is the same words as the request's, and none only if there is no such user |
| LedgerAdmission.VoidedExactly | backend/internal/payments/handler.go:901-967 | a payment is voided iff it is approved and a reason is given; each paid sum falls by what it applied, nothing else about the money changes, and a refusal changes nothing and says why |
| LedgerAdmission.ApprovedExactly | backend/internal/paymentsubmission/store.go:406-480 | a proof is approved iff it is pending, its lines are well formed for a user that is found, and its key, `payment-submission:` and its id, is taken or the lines are acceptable; it then links the payment that carries the key, whatever that is, or the new payment worth those lines by the proof's method, and nothing changes otherwise |
| LedgerAdmission.ImportGoesThrough | backend/internal/importpreview/handler.go:730-776 | the import of a list of lines goes through iff all meet the table's constraints and no two share a record id |
| LedgerAdmission.EntriesAre | backend/internal/importpreview/handler.go:730-776 | what is imported are the details of the batches, each with its batch, in order |
| LedgerAdmission.ConfirmedExactly | backend/internal/importpreview/handler.go:661-728 | told from the stored preview: a batch that is ready is refused as fatal iff a batch the rules leave holds a fatal error, for its warnings iff one holds a warning that is not approved, as empty iff they leave no detail, and otherwise is confirmed iff every line meets the constraints and no two are one record; why a batch is not ready is told, and a refusal changes nothing |
| LedgerRuns.RunKeepsInv | backend/internal/payments/handler.go:557-967 | the invariant holds after every possible run of ledger transactions |
| LedgerRuns.StoredStatusesCorrect | backend/internal/payments/handler.go:1246-1277 | in every reachable state each live item's stored status is the classification of its approved money, by both classifiers |
| LedgerRuns.OrdersCorrect | backend/internal/payments/handler.go:1279-1302 | in every reachable state an order's total is the sum of its live items, it is cancelled iff it has none, and its status is the stated function of theirs |
| LedgerRuns.MoneyCorrect | backend/internal/payments/handler.go:603-680 | in every reachable state no item is over-paid, each payment's principal is the sum of its rows, payable is principal plus fee, and a payment has one row per item at most |
| LedgerRuns.RetryChangesNothing | backend/internal/payments/handler.go:573-593 | a retry with a used idempotency key changes nothing and answers, if at all, with the payment it made |
| LedgerRuns.KeyUsedOnce | backend/internal/payments/handler.go:573-593 | that stays so whatever runs in between |
| LedgerRuns.RunKeepsPayments | backend/internal/payments/handler.go:901-967 | over any run payments are never removed, keep key, principal, fee, payable and method, and a voided one stays void |
| LedgerRuns.OnlyPaymentsMoveMoney | backend/internal/payments/handler.go:557-967 | an item's paid sum changes only in a step that records a new approved payment or voids an approved one; proofs, merges, imports and revocations move no money |
| LedgerRuns.ReviewedOnce | backend/internal/paymentsubmission/store.go:357-480 | a reviewed proof never changes its status or link again |
| LedgerRuns.LinksCorrect | backend/internal/paymentsubmission/store.go:406-480 | in every reachable state a proof is approved iff it links a payment, which exists and is linked by no other proof |
| LedgerRuns.OutstandingIsUnpaid | backend/internal/payments/handler.go:1017-1075 | in every reachable state what a user owes is exactly what their items cost less the approved money on them: capping each item hides no over-payment |
| LedgerRuns.RunKeepsBatch | backend/internal/importpreview/handler.go:384-463 | a confirmed batch never returns to confirmable, a reverted one stays reverted, and no batch changes its file hash |
| LedgerRuns.HashConfirmedOnce | backend/internal/importpreview/handler.go:661-700 | each file hash is confirmed at most once in any run |
| LedgerVoid.ReplayFollows | backend/internal/payments/handler.go:557-967 | dropping a payment, its retries and its voiding from a run lets every other successful step succeed, and the two runs stay alike step by step |
| LedgerVoid.VoidUndoes | backend/internal/payments/handler.go:901-967 | voiding undoes a payment across a whole run: paid sums, live items, orders, users and batches end as if it had never been recorded, payments but for itself, proofs up to the amounts they displayed and the one it came from |
| LedgerRevoked.RevokedIsFrozen | backend/internal/payments/handler.go:1246-1277 | no run ever changes a revoked item |
| LedgerRevoked.VoidUndoesItem | backend/internal/payments/handler.go:901-967 | for every item, revoked or not: it ends as if the voided payment had never been recorded iff no step revoked it while that payment decided its status |
| LedgerRevoked.RevokedStatusDiffers | backend/internal/payments/handler.go:1246-1277 | import an item, pay it, revoke its batch, void the payment: nothing is paid on it, yet it is stored as paid, which it is not in the same run without the payment |
| LedgerEffects.MergedExactly | backend/internal/users/merge.go:171-262 | a merge goes through iff a reason is given and two different users exist, the source not merged and the target active; then exactly the source's orders and payments, all of them, are the target's, and only the source's status changes |
| LedgerEffects.MergeMovesDebt | backend/internal/users/merge.go:171-262 | after a merge the target owes what both owed and the source nothing |
| LedgerEffects.AccessSetExactly | backend/internal/users/handler.go:626-674 | enabling and disabling set exactly one user's status, iff that user exists and is not merged; a disabled user is never found by CN, an enabled one is by their own |
| LedgerEffects.SubmittedExactly | backend/internal/paymentsubmission/store.go:60-143 | after any run a proof is made iff the method is Alipay or WeChat and the user has none with that request id; it is pending, unlinked, as given, and shows what the user's payable items cost less the approved money on them, and the fee of that; a known request id returns its proof; nothing else changes |
| LedgerEffects.RejectedExactly | backend/internal/paymentsubmission/store.go:357-398 | a proof is rejected iff it is pending and a reason is given; then it is rejected and nothing else changes |
| LedgerEffects.RejectedForGood | backend/internal/paymentsubmission/store.go:357-480 | whatever run follows a rejection, approving that proof is refused |
| LedgerEffects.SavedExactly | backend/internal/importpreview/handler.go:373-466 | a new file becomes a batch ready to be confirmed; a known one's batch gets the new preview and is ready again iff it is previewed, waiting, failed or withdrawn, and otherwise nothing changes |
| LedgerEffects.ProductNamed | backend/internal/importpreview/handler.go:1033-1047 | a product is named after the first of series, sheet title and batch name that is not blank, or else the item |
| LedgerEffects.ConfirmProducts | backend/internal/importpreview/handler.go:730-776 | two imported lines share a product iff all nine parts of its key agree, each product is new and of the batch, and the reply counts them |
| LedgerEffects.RevokedExactly | backend/internal/importpreview/handler.go:847-983 | a batch is revoked iff it is confirmed and has live items; the reply counts these and gives what the orders' totals lose; a refusal changes nothing and says why |
| LedgerStore.MergeRequestItems | backend/internal/payments/handler.go:1306-1317 | the merging loop computes the specified map |
| LedgerStore.ImportLoop | backend/internal/importpreview/handler.go:730-776 | the nested import loop with its three id maps computes the specified import, its counts and sums, or fails as a whole |
| LedgerStore.SubmitLoop | backend/internal/importpreview/handler.go:778-794 | the loop over the new orders sets their totals and submits exactly them |
| LedgerStore.CancelLoop | backend/internal/importpreview/handler.go:936-956 | the loop over the touched orders recomputes totals and cancels the empty ones |
| LedgerStore.Store.LockPaymentItems | backend/internal/payments/handler.go:1197-1244 | the scan returns exactly the requested items that the user can pay |
| LedgerStore.Store.CheckAmounts | backend/internal/payments/handler.go:610-632 | the loop over the locked rows accepts iff no line exceeds what remains, and adds up the principal |
| LedgerStore.Store.InsertRows | backend/internal/payments/handler.go:660-680 | the insert loop appends one row per locked item with its merged amount |
| LedgerStore.Store.RecordPayment | backend/internal/payments/handler.go:557-692 | the method takes the tables to the state and reply of Ledger.CreatePayment, which CreatedExactly describes |
| LedgerStore.Store.Void | backend/internal/payments/handler.go:901-967 | the method takes the tables to the state and reply of Ledger.VoidPayment, which VoidedExactly describes |
| LedgerStore.Store.OutstandingPrincipal | backend/internal/payments/handler.go:1419-1425 | the loop sums what the user's payable items still owe |
| LedgerStore.Store.SubmitPaymentProof | backend/internal/paymentsubmission/store.go:60-143 | the method takes the tables to the state and reply of Ledger.SubmitProof, which SubmittedExactly describes; a known request id returns its proof |
| LedgerStore.Store.ApprovePaymentProof | backend/internal/paymentsubmission/store.go:406-480 | the method takes the tables to the state and reply of Ledger.ApproveProof, which ApprovedExactly describes |
| LedgerStore.Store.RejectPaymentProof | backend/internal/paymentsubmission/store.go:357-398 | the method takes the tables to the state and reply of Ledger.RejectProof, which RejectedExactly describes |
| LedgerStore.Store.MergeAccounts | backend/internal/users/merge.go:171-262 | the method takes the tables to the state and reply of Ledger.MergeUsers, which MergedExactly describes order by order and payment by payment |
| LedgerStore.Store.SaveImportPreview | backend/internal/importpreview/handler.go:373-466 | the method takes the tables to the state and reply of Ledger.SavePreview, which SavedExactly describes |
| LedgerStore.Store.ConfirmBatch | backend/internal/importpreview/handler.go:661-836 | the method takes the tables to the state and reply of Ledger.ConfirmImport, which ConfirmedExactly, ConfirmReports, ConfirmGroups and ConfirmProducts describe |
| LedgerStore.Store.RevokeBatch | backend/internal/importpreview/handler.go:847-983 | the method takes the tables to the state and reply of Ledger.RevokeImport, which RevokedExactly and RevokeCancels describe |
| RecoveryInvariant.RunKeepsInv | backend/internal/querycoderecovery/store.go:60-575 | the tables' invariant holds after every possible interleaving |
| RecoveryInvariant.OneSecretInPlay | backend/internal/querycoderecovery/store.go:145-224 | a user never has two usable secrets, be they codes in flight or open sessions, and only an active user with a verified current email has one |
| RecoveryInvariant.StatusMatchesStamps | backend/internal/querycoderecovery/store.go:145-224 | a code is sending or active iff used_at and invalidated_at are both null; likewise a session |
| RecoveryInvariant.LiveCodeIsLatest | backend/internal/querycoderecovery/store.go:352-384 | a live code is for the user's current email, and the latest-created look-up can return only that row |
| RecoveryInvariant.PrepareKeepsInv | backend/internal/querycoderecovery/store.go:60-231 | a request, refused or not, keeps the invariant |
| RecoveryInvariant.VerifyKeepsInv | backend/internal/querycoderecovery/store.go:316-468 | verifying a guess, right, wrong or too late, keeps the invariant |
| RecoveryInvariant.ResetKeepsInv | backend/internal/querycoderecovery/store.go:470-575 | a reset keeps the invariant |
| RecoveryInvariant.MergeKeepsInv | backend/internal/users/merge.go:244-262 | a merge kills the source's secrets and keeps the invariant |
| RecoveryInvariant.PutEmailKeepsInv | backend/internal/users/recovery_email.go:246-344 | replacing a recovery email kills the old one's secrets and keeps the invariant |
| RecoveryInvariant.AccessKeepsInv | backend/internal/users/handler.go:626-674 | disabling a user kills their secrets and keeps the invariant |
| RecoveryWindows.StepChanges | backend/internal/querycoderecovery/store.go:145-224 | every way a transaction can change a code row, and that only a successful request appends one |
| RecoveryWindows.CodesPerHour | backend/internal/querycoderecovery/store.go:170-193 | any hour-long interval sees at most 5 codes of one user and email, and they are at least 60 s apart |
| RecoveryWindows.GuessesPerHour | backend/internal/querycoderecovery/store.go:373-416 | any hour sees at most (WindowLimit + 1) x MaxAttempts evaluated wrong guesses at one user's and email's codes |
| RecoveryWindows.GuessesAreCounted | backend/internal/querycoderecovery/store.go:382-416 | every wrong guess of an hour is one counted attempt on a code made in that hour, or on the last one before it, if that can still be guessed |
| RecoveryWindows.SendsPerHour | backend/internal/querycoderecovery/store.go:77-96 | requests from one address start at most 20 sends in any hour |
| RecoveryTrace.ResetComesFrom | backend/internal/querycoderecovery/store.go:60-575 | every completed reset comes from one request, its confirmed send, one verification and one session in that order, less than CodeTTL + TokenTTL apart, with the sent code as the guess, the earned token at the reset, the same verified current email at both and no newer code for the user in between |
| RecoveryTrace.ResetSetsCode | backend/internal/querycoderecovery/store.go:470-575 | a reset gives the new, different code to the session's user and nobody else and leaves no secret of theirs in play |
| RecoveryRoundTrip.RightGuessAccepted | backend/internal/querycoderecovery/store.go:316-468 | the right guess at a live, unexpired code is accepted and opens a session for its user and email |
| RecoveryRoundTrip.RoundTrip | backend/internal/querycoderecovery/service.go:33-84 | a request within the limits, its delivery, the right guess and a well-formed, confirmed new code with the token just given, each in time, all succeed through the service and set the new code |
| RecoveryTrace.TrailsAreDisjoint | backend/internal/querycoderecovery/store.go:419-575 | different resets have different sessions, codes, requests, confirmations and verifications |
| RecoveryTrace.CodeAges | backend/internal/querycoderecovery/store.go:60-575 | along any run a code keeps its identity and expiry, its attempts only grow, and once out of play it never changes |
| RecoveryAdmission.PreparedExactly | backend/internal/querycoderecovery/store.go:60-231 | a request is prepared iff the user is active, has a query code and a verified current email, and no limit is reached, overdue codes counting like others; its code is then the only secret in play |
| RecoveryAdmission.ConfirmedExactly | backend/internal/querycoderecovery/store.go:233-285 | a delivery is confirmed iff its code is still being sent: the checks of user and email never refuse; the code is then live and the only secret in play |
| RecoveryAdmission.FailedExactly | backend/internal/querycoderecovery/store.go:287-314 | a failed delivery leaves the user without a secret if the code was still being sent, and otherwise changes nothing |
| RecoveryAdmission.VerifiedExactly | backend/internal/querycoderecovery/store.go:316-468 | a guess is accepted iff it is the live code of the user found, in time, whichever row the look-up returns; the new session is then the only secret in play |
| RecoveryAdmission.MissedExactly | backend/internal/querycoderecovery/store.go:389-416 | a wrong guess at a live code in time costs exactly that code one attempt, locks it with the fifth and changes nothing else |
| RecoveryAdmission.ResetExactly | backend/internal/querycoderecovery/store.go:470-575 | a reset goes through iff an open session in time holds the token and the code is a change; only its user gets the code and has no secret in play then |
| RecoveryEffects.RequestExactly | backend/internal/querycoderecovery/store.go:60-231 | a request with a CN and an address adds exactly its own row to the log, refused or not; refused by the log or as not eligible it leaves nothing else, refused by the code limits it ends the user's overdue secrets only, and granted it ends all they had in play, row by row, and appends the code |
| RecoveryEffects.MayRequestMeans | backend/internal/querycoderecovery/store.go:86-193 | a request is granted iff the user may recover and, counted row by row, the last hour holds fewer than 5 requests of the CN, 20 of the address and 5 codes of the email, and the last minute no code |
| RecoveryEffects.UserPicked | backend/internal/querycoderecovery/store.go:99-111 | a CN finds a user whose CN is the same words, and nobody only if there is none |
| RecoveryEffects.AcceptedWrites | backend/internal/querycoderecovery/store.go:426-468 | an accepted guess uses up its code and opens a session with the token, and writes nothing else, as no other secret was in play |
| RecoveryEffects.LateGuess | backend/internal/querycoderecovery/store.go:373-381 | a guess at a live code out of time closes that code and does nothing else |
| RecoveryEffects.StrayGuess | backend/internal/querycoderecovery/store.go:316-372 | a guess that is not six digits, or where no code is live, changes nothing; only that the code is locked is told apart |
| RecoveryEffects.ResetWrites | backend/internal/querycoderecovery/store.go:470-575 | a completed reset changes its user's query code and its session and nothing else |
| RecoveryEffects.ResetRefused | backend/internal/querycoderecovery/store.go:508-527 | a reset that comes too late closes its session; any other refused reset changes nothing |
| RecoveryEffects.PutExactly | backend/internal/users/recovery_email.go:246-344 | a new address takes the place of the old one, waits for verification and withdraws all the user's secrets in play and nobody else's; the same address again changes nothing |
| RecoveryEffects.UnboundExactly | backend/internal/users/recovery_email.go:346-415 | unbinding switches the current address off and withdraws all the user's secrets in play and nobody else's |
| RecoveryEffects.AccessExactly | backend/internal/users/handler.go:626-674 | disabling withdraws all the user's secrets in play and nobody else's; enabling changes the status alone |
| RecoveryEffects.MergedExactly | backend/internal/users/merge.go:171-262 | a merge takes the source's query code, withdraws their secrets in play and touches no other row of these tables |
| RecoveryEffects.MarkedExactly | backend/internal/recoveryemailverification/store.go:384-391 | the current email is marked verified iff it waits for it, and nothing else changes |
| ResetTokens.DecodeEncode | backend/internal/querycoderecovery/security.go:126-140 | every byte string comes back from its token text |
| ResetTokens.GeneratedIsValid | backend/internal/querycoderecovery/security.go:126-140 | a generated token passes the shape check, and different bytes give different tokens |
| ResetTokens.ValidTokenIs | backend/internal/querycoderecovery/security.go:134-140 | the shape check passes exactly the texts of 43 URL-safe base64 characters, line breaks between them not counted |
| RecoveryService.VerifiedExactly | backend/internal/querycoderecovery/service.go:57-65 | the service accepts exactly the guesses the store accepts |
| RecoveryService.RunKeepsTokensValid | backend/internal/querycoderecovery/service.go:67-84 | every session's token passes the shape check, in every run whose tokens were generated |
| RecoveryService.ResetExactly | backend/internal/querycoderecovery/service.go:67-84 | after any such run the service resets iff an open session in time holds the token and the code is well formed, confirmed and a change |
| RecoveryStore.FindSession | backend/internal/querycoderecovery/store.go:478-488 | the scan finds the session row that holds the token, or none if there is none |
| RecoveryStore.CountRequests | backend/internal/querycoderecovery/store.go:77-85 | the scan computes both filtered counts of the request log |
| RecoveryStore.MeasureWindow | backend/internal/querycoderecovery/store.go:170-193 | the latest creation time and the windowed count, gathered in one scan, decide the cool-down and the hourly limit |
| RecoveryStore.Store.LapseOverdue | backend/internal/querycoderecovery/store.go:145-168 | the three update loops mark exactly the user's overdue codes and sessions |
| RecoveryStore.Store.RetireSecrets | backend/internal/querycoderecovery/store.go:195-208 | the two update loops retire exactly the user's codes and sessions in play, but for the one session kept |
| RecoveryStore.Store.PrepareRequest | backend/internal/querycoderecovery/store.go:60-231 | the method with its look-up, count and update loops keeps the invariant and prepares a code iff nothing stands against the request; the code is then the only secret the user has in play |
| RecoveryStore.Store.Verify | backend/internal/querycoderecovery/store.go:316-468 | the method with its loops keeps the invariant and opens a session iff the guess is the user's live code in time; the session is then the only secret the user has in play |
| RecoveryStore.Store.Reset | backend/internal/querycoderecovery/store.go:470-575 | the method with its loops keeps the invariant and resets iff an open session in time holds the token and the code is a change; only its user gets the code and has no secret in play then |
| RecoveryStore.Store.RequestCode | backend/internal/querycoderecovery/service.go:33-55 | whatever commits while the mail is under way, a request that succeeds leaves its code live and one that fails after preparing leaves it out of play |
| RecoveryStore.SettleMeanwhile | backend/internal/querycoderecovery/service.go:33-55 | a code being sent that nobody confirms stays that or dies, through any other transactions |
| EmailVerification.VerificationsPerHour | backend/internal/recoveryemailverification/store.go:134-155 | any hour sees at most 5 verification codes of one user, at least 60 s apart, and a user never has two in play |
| EmailVerification.PlaySteady | backend/internal/recoveryemailverification/store.go:78-424 | the invariant behind it holds after every run |
| EmailVerification.SendAdmitted | backend/internal/recoveryemailverification/store.go:78-185 | a send is admitted iff the user has a pending current email and no limit stands against it |
| EmailVerification.RetryAfterNeverTooLong | backend/internal/recoveryemailverification/store.go:134-155 | a refused request's retry-after is never too long: until it is over every request of the user is refused, whatever else happens |
| EmailVerification.WindowRetryAfterExact | backend/internal/recoveryemailverification/store.go:152-155 | the full window's retry-after is exact: a request at that instant is admitted iff the email is still pending |
| EmailVerification.CooldownRetryAfter | backend/internal/recoveryemailverification/store.go:146-151 | whatever happens meanwhile, a request at the instant the cool-down told is admitted iff the email is still pending and the window will have room for it |
| EmailVerification.CooldownRetryAfterTooShort | backend/internal/recoveryemailverification/store.go:146-151 | a run in which it has none: after five codes a minute apart the request told to wait a minute is refused again at that very instant |
| EmailVerification.RetryAfterSeconds | backend/internal/recoveryemailverification/store.go:35-45 | the reported whole seconds cover the wait, exceed it by less than one and are at least 1 |
| EmailVerification.VerificationRests | backend/internal/recoveryemailverification/store.go:258-424 | a successful verification rests on a delivered, unexpired code with attempts left for the user's pending current email |
| EmailVerification.RightGuessVerifies | backend/internal/recoveryemailverification/store.go:258-424 | the right guess at a live code in time verifies the user's pending current email and uses the code up |
| EmailVerification.GuessesPerCode | backend/internal/recoveryemailverification/store.go:342-381 | over any run at most 5 wrong guesses at one code are evaluated |
| EmailVerification.VerifiesOnce | backend/internal/recoveryemailverification/store.go:392-406 | a code that has verified an email never verifies again |
| EmailVerificationAdmission.PlayAnchored | backend/internal/recoveryemailverification/store.go:78-424 | in every run a user has one current email, and a code in play belongs to it while it waits for verification |
| EmailVerificationAdmission.SentExactly | backend/internal/recoveryemailverification/store.go:78-185 | a code is sent iff the active user's current email is pending, every earlier code is a cool-down old and the last hour has room; it is then the user's only code in play, and a refusal changes nothing |
| EmailVerificationAdmission.ConfirmedExactly | backend/internal/recoveryemailverification/store.go:187-247 | a delivery is confirmed iff its code is still being sent and its user is active: the checks of the email never refuse |
| EmailVerificationAdmission.FailedExactly | backend/internal/recoveryemailverification/store.go:249-256 | a failed delivery leaves the user without a code in play if it was still being sent, and otherwise changes nothing |
| EmailVerificationAdmission.VerifiedExactly | backend/internal/recoveryemailverification/store.go:258-424 | an email is verified iff the guess is the active user's live code, in time, whichever row the look-up returns; only that email changes, and the user has no code in play then |
| EmailVerificationAdmission.MissedExactly | backend/internal/recoveryemailverification/store.go:342-381 | a wrong guess at a live code in time costs exactly that code one attempt, locks it with the fifth and changes nothing else |
| EmailVerificationEffects.SentWrites | backend/internal/recoveryemailverification/store.go:78-185 | a send ends what the user had in play, row by row, and appends a code for the current email, which waits for verification; nothing else changes |
| EmailVerificationEffects.MaySendMeans | backend/internal/recoveryemailverification/store.go:78-155 | a send is admitted iff the active user's current email waits and, counted row by row, the last hour holds fewer than 5 of the user's codes and the last minute none |
| EmailVerificationEffects.VerifiedWrites | backend/internal/recoveryemailverification/store.go:383-424 | a verification marks the email of its code and uses the code up, and writes nothing else |
| EmailVerificationEffects.LateGuess | backend/internal/recoveryemailverification/store.go:328-340 | a guess at a live code out of time closes that code and does nothing else |
| EmailVerificationEffects.ProblemTold | backend/internal/recoveryemailverification/store.go:268-295 | who cannot verify an email now is told which of the four reasons it is |
| EmailVerificationEffects.StrayGuess | backend/internal/recoveryemailverification/store.go:258-327 | a guess that is not six digits, or where no code is live, changes nothing and tells what became of the code looked up |
| EmailVerificationEffects.PutExactly | backend/internal/users/recovery_email.go:246-344 | a new address takes the place of the old one and withdraws the user's codes in play and nobody else's; the same address again changes nothing |
| EmailVerificationEffects.UnboundExactly | backend/internal/users/recovery_email.go:346-415 | unbinding switches the current address off and withdraws the user's codes in play and nobody else's |
| EmailVerificationStore.MeasureWindow | backend/internal/recoveryemailverification/store.go:137-145 | one scan computes the latest creation time, and the oldest and the number of those in the window |
| EmailVerificationStore.MeasureWait | backend/internal/recoveryemailverification/store.go:137-155 | the wait told is that of the cool-down if it still runs, else that of the full window, else none |
| EmailVerificationStore.Store.PrepareSending | backend/internal/recoveryemailverification/store.go:78-185 | the method with its loops keeps the invariants, rolls refusals back and sends iff nothing stands against it; the code is then the user's only one in play |
| EmailVerificationStore.Store.Verify | backend/internal/recoveryemailverification/store.go:258-424 | the method with its loops keeps the invariants and verifies the email iff the guess is the active user's live code in time; the user has no code in play then |
| AdminLimiter.AnswersLikeReference | backend/internal/admin/ratelimit.go:76-180 | as long as no new key meets a full map, every answer is that of a limiter that never deletes anything |
| AdminLimiter.RunForgets | backend/internal/admin/ratelimit.go:164-180 | the maps are the reference's with only dead entries missing |
| AdminLimiter.RunBounded | backend/internal/admin/ratelimit.go:82-88 | none of the three maps ever holds more keys than the cap |
| AdminLimiter.AttemptBound | backend/internal/admin/ratelimit.go:76-104 | in any half-open window an address is admitted at most 2 x maxAttempts times, over any run |
| AdminLimiter.FailuresBlock | backend/internal/admin/ratelimit.go:111-132 | 2 x maxFailures - 1 failures of a tracked pair inside one window without a success set a block |
| AdminLimiterBlocks.FewPairsBlock | backend/internal/admin/ratelimit.go:111-132 | with at most as many pairs as places enough failures of a pair inside one window set a block |
| AdminLimiterBlocks.FullMapForgets | backend/internal/admin/ratelimit.go:106-132 | with one pair more than places a pair can fail at one instant as often as its address may log in once more, each time after a login that was let in, and never be blocked |
| AdminLimiterBlocks.BlockIffPlaces | backend/internal/admin/ratelimit.go:111-132 | enough failures block over all runs of requests with m pairs iff the map has m places |
| AdminLimiter.BlockedIsRefused | backend/internal/admin/ratelimit.go:99-103 | a blocked pair is refused until its block ends, unless it succeeds first |
| AdminLimiter.SuccessForgives | backend/internal/admin/ratelimit.go:135-141 | after a success a pair that has failed fewer than maxFailures times again is refused only because the map is full or its address has used up its attempts |
| AdminLimiter.AuditsApart | backend/internal/admin/ratelimit.go:143-162 | a pair is audited at most once per audit window unless it succeeds in between |
| AdminLimiterOrigins.RefusalEarned | backend/internal/admin/ratelimit.go:76-133 | over any run a login is refused only if maxKeys addresses, or this one maxAttempts times, tried within the last attemptWindow, or the pair failed maxFailures times within a failureWindow that ended less than blockDuration ago |
| AdminLimiterOrigins.UnrecordedEarned | backend/internal/admin/ratelimit.go:106-132 | a failure after a login goes unrecorded only if maxKeys pairs have failed within the time a record is kept before that login, or since |
| AdminLimiterOrigins.BlocksAgain | backend/internal/admin/ratelimit.go:111-132 | a block wipes the slate: the maxFailures-th failure of a tracked pair within one window after it blocks anew |
| AdminLimiterOrigins.SkippedAuditEarned | backend/internal/admin/ratelimit.go:147-162 | an audit is skipped only if maxKeys pairs have asked within the last auditWindow, or the pair was audited less than auditWindow ago and has not succeeded since |
| AdminLimiterStore.LoginLimiter.CleanupLocked | backend/internal/admin/ratelimit.go:164-180 | the three deletion loops remove exactly the expired entries |
| AdminLimiterStore.LoginLimiter.Permit | backend/internal/admin/ratelimit.go:76-104 | the method takes the maps to the specified state and answer |
| AdminLimiterStore.LoginLimiter.NoteFailure | backend/internal/admin/ratelimit.go:111-132 | the method takes the maps to the specified state |
| AdminLimiterStore.LoginLimiter.ShouldAuditRateLimited | backend/internal/admin/ratelimit.go:147-162 | the method takes the maps to the specified state and answer |
| QueryLimiter.KeyInjective | backend/internal/query/ratelimit.go:294-296 | a composite key belongs to one pair, whatever the CN contains, since addresses hold no separator |
| QueryLimiter.RunBounded | backend/internal/query/ratelimit.go:235-292 | neither map ever exceeds the cap |
| QueryLimiter.BlockedIsRefused | backend/internal/query/ratelimit.go:95-127 | a blocked pair is refused until its block ends, through any traffic, clean-up and eviction, unless a success or release of the pair or of its CN lifts it |
| QueryLimiter.FailuresBlock | backend/internal/query/ratelimit.go:131-156 | 2 x maxFailures - 1 failures of a pair inside one window set a block, if each finds the pair's record or room for it and no newcomer finds the map full |
| QueryLimiter.SuccessForgives | backend/internal/query/ratelimit.go:159-163 | after a success a pair that has failed fewer than maxFailures times again is refused only because its address has used up its attempts |
| QueryLimiter.ReleaseAdmits | backend/internal/query/ratelimit.go:173-197 | after a release the owner's next logins, up to the grace, get through whatever other addresses do, while the pair has fewer than maxFailures failures |
| QueryLimiter.ReleaseIsExact | backend/internal/query/ratelimit.go:165-197 | a release touches one pair's record and one address's counter |
| QueryLimiterOrigins.ReleaseForCNExactly | backend/internal/query/ratelimit.go:199-216 | in every reachable state a release by CN leaves no record of that CN at any address and forgives all its pairs, and leaves every other CN's record and every attempt counter as it was |
| QueryLimiterOrigins.SeenIsLastLogin | backend/internal/query/ratelimit.go:95-127 | in every reachable state a counter's `seen` is the last time its address tried to log in |
| QueryLimiterOrigins.SeenIsLastTouch | backend/internal/query/ratelimit.go:95-156 | in every reachable state a record's `seen` is the last failure of its pair, or login of it that its address had attempts left for |
| QueryLimiterOrigins.EvictedIsOldest | backend/internal/query/ratelimit.go:235-259 | a newcomer to a full map takes the place of an address that tried to log in no later than any other with an open window, and nobody else loses theirs |
| QueryLimiterOrigins.EvictionEarned | backend/internal/query/ratelimit.go:218-259 | an address loses an open window only if a whole map of addresses has been active within one attemptWindow |
| QueryLimiterOrigins.RecordLossEarned | backend/internal/query/ratelimit.go:218-292 | a pair loses a record that still counts or blocks only by a success or release, or if a whole map of pairs has failed within the time a record is kept |
| QueryLimiterOrigins.UnrecordedEarned | backend/internal/query/ratelimit.go:131-156 | a failure goes unrecorded only if a whole map of pairs has failed within the last blockDuration |
| QueryLimiterOrigins.BlocksAgain | backend/internal/query/ratelimit.go:131-156 | a block wipes the slate: the maxFailures-th failure of a tracked pair within one window after it blocks anew |
| QueryLimiterOrigins.RefusalEarned | backend/internal/query/ratelimit.go:95-156 | over any run a login is refused only if its address tried maxAttempts times within the last attemptWindow, or the pair failed maxFailures times within a failureWindow that ended less than blockDuration ago |
| QueryLimiterBounds.AttemptBound | backend/internal/query/ratelimit.go:95-127 | an address whose counter no newcomer evicts from a full map gets at most 2 x maxAttempts plus 3 per release in any half-open window |
| QueryLimiterBounds.EvictionDefeatsLimit | backend/internal/query/ratelimit.go:235-259 | with one address more than places there is no bound: under every policy that admits anything an address is admitted n times at one instant, for every n |
| QueryLimiterBounds.FewAddressesBound | backend/internal/query/ratelimit.go:95-127 | with at most as many addresses as places every address gets at most 2 x maxAttempts plus 3 per release in any half-open window |
| QueryLimiterBounds.LimitIffPlaces | backend/internal/query/ratelimit.go:235-259 | the limit holds over all runs with m addresses iff the map has m places, or the policy admits nothing anyway |
| QueryLimiterBlocks.FewPairsBlock | backend/internal/query/ratelimit.go:131-156 | with at most as many pairs as places enough failures of a pair inside one window set a block: 2 x maxFailures - 1, or one where none is allowed |
| QueryLimiterBlocks.EvictionForgetsFailures | backend/internal/query/ratelimit.go:265-292 | with one pair more than places a pair can fail n times at one instant, each time after a login that was let in, and never be blocked, for every n |
| QueryLimiterBlocks.BlocksCrowdOut | backend/internal/query/ratelimit.go:265-292 | where the first failure blocks, one pair more than places fails unrecorded, because a map full of blocks takes no newcomer |
| QueryLimiterBlocks.BlockIffPlaces | backend/internal/query/ratelimit.go:131-156 | under every policy, enough failures block over all runs of requests with m pairs iff the map has m places, or no failure is ever recorded or remembered, or the first one blocks and blocks do not last |
| QueryLimiterStore.LoginLimiter.EnsureAttemptsCapacityLocked | backend/internal/query/ratelimit.go:235-259 | the scanning loop evicts a least recently seen counter iff the map is full of open windows |
| QueryLimiterStore.LoginLimiter.EnsureFailuresCapacityLocked | backend/internal/query/ratelimit.go:265-292 | the scanning loop evicts a least recently seen record that is not blocked, and says no iff all are |
| QueryLimiterStore.LoginLimiter.CleanupLocked | backend/internal/query/ratelimit.go:218-229 | the deletion loops remove exactly the expired entries |
| QueryLimiterStore.LoginLimiter.Permit | backend/internal/query/ratelimit.go:95-127 | the method takes the maps to the specified state and answer, for a victim it may pick, and keeps every record under its own pair's key |
| QueryLimiterStore.LoginLimiter.NoteFailure | backend/internal/query/ratelimit.go:131-156 | the method takes the maps to the specified state, for a victim it may pick, and keeps every record under its own pair's key |
| QueryLimiterStore.LoginLimiter.ReleasePair | backend/internal/query/ratelimit.go:173-197 | the method takes the maps to the specified state |
| QueryLimiterStore.LoginLimiter.ReleaseCN | backend/internal/query/ratelimit.go:208-216 | the loop leaves no address a record of the CN and forgives all its pairs; every other CN's record and every attempt counter stays |
| OrderFilters.CompiledMeans | backend/internal/orders/filters.go:438-483 | the emitted conjuncts with the emitted arguments, and any further ones, select exactly the rows the filter record describes |
| OrderFilters.MatchesMeans | backend/internal/orders/filters.go:438-483 | read plainly: each column that values are given for holds one of them, each number is within the bounds given, both ends included, and the row was created from the one instant on and before the other |
| OrderFilters.NumericReads | backend/internal/orders/filters.go:466-475 | a bound reads as the number written, whole or with up to four decimals |
| OrderFilters.MeasuresAddUp | backend/internal/orders/filters.go:412-418 | paid and unpaid amount add up to the amount, and the payment status says which of the two is there |
| OrderFilters.PlaceholdersExact | backend/internal/orders/filters.go:360-367 | the placeholders are $1 to $n, each once and in order, and no two read the same |
| OrderFilters.AtoiItoa | backend/internal/orders/filters.go:364-367 | a placeholder's number reads back as itself |
| OrderFilters.SearchIsLiteral | backend/internal/orders/facets.go:135-168 | the bound search pattern matches exactly the values that contain the typed text, whatever wildcards it holds |
| OrderPages.SortedUnique | backend/internal/orders/filters.go:495-521 | the list's order leaves no choice, so pages from separate statements fit together |
| OrderPages.ListedInOrder | backend/internal/orders/filters.go:520-520 | newest first, then orders by falling id, then an order's items by sort order, name and id |
| OrderPages.FirstPageNewest | backend/internal/orders/filters.go:489-524 | no row the filters describe is newer than the first row of page 1 |
| OrderPages.LessMeans | backend/internal/orders/filters.go:520-520 | names compare as in a dictionary, at the first place where they differ |
| OrderPages.PagesPartition | backend/internal/orders/filters.go:489-533 | pages 1 to TotalPages together are the filtered listing, every matching row once and in order, none of them empty |
| OrderPages.PastTheEnd | backend/internal/orders/handler.go:239-254 | any later page is empty |
| OrderPages.FacetCountIsListTotal | backend/internal/orders/facets.go:111-161 | a facet value's count is the list total with that column set to that value |
| OrderPages.FacetCountsAddUp | backend/internal/orders/facets.go:111-161 | without a search, the counts add up to the list total with that column unfiltered |
| OrderPages.BlankCountIsListTotal | backend/internal/orders/facets.go:151-158 | the blank count of a page with rows is the list total for blank cells |
| OrderPages.FacetResponseCounts | backend/internal/orders/facets.go:183-211 | a facet response shows the values in the order read, each with the list total for the column set to that value |
| OrderPages.FacetPagesPartition | backend/internal/orders/facets.go:111-161 | the pages of a facet, each from a statement of its own, are together every value that occurs, once and in order, blanks last, none of them empty |
| OrderPages.FacetBlanksLast | backend/internal/orders/facets.go:156-157 | over all pages the values ascend, and only the last can be the blank one |
| OrderPages.HasMoreIsExact | backend/internal/orders/facets.go:189-211 | has_more is exact even where the total reads 0; the total is right iff the page has rows or there are no candidates |
| OrderPages.ExportIsListing | backend/internal/export/handler.go:415-451 | the export holds the listed rows once each; the unpaid export those of them not cancelled and still owing |
| OrderPages.UnsettledMeans | backend/internal/export/handler.go:421-431 | the unpaid export narrows to what the list shows with an unpaid amount and not cancelled |
| OrderPages.ExportStatusAgrees | backend/internal/export/handler.go:439-439 | the status the export prints is the list's iff the item is not free with money on it |
| OrderQueries.ArgList.Add | backend/internal/orders/filters.go:360-367 | a value is appended and its placeholder resolves to it |
| OrderQueries.BuildConditions | backend/internal/orders/filters.go:438-483 | the loops emit the specified conjuncts and arguments |
| OrderQueries.BuildListQuery | backend/internal/orders/filters.go:489-524 | the builder emits the specified statement |
| OrderQueries.BuildWholeQuery | backend/internal/orders/filters.go:528-548 | the count and the export sub-select emit the specified statement |
| OrderQueries.BuildFacetQuery | backend/internal/orders/facets.go:125-161 | the builder emits the specified statement, the search bound before the paging |
| OrderQueries.ReadFacets | backend/internal/orders/facets.go:183-211 | the loop over the rows read gives the specified response |
| OrderQueries.BuildExportConditions | backend/internal/export/handler.go:415-431 | the condition list passes exactly the rows to export |
| OrderQueries.ValueSetMeans | backend/internal/orders/filters.go:189-215 | a column's value set holds the trimmed non-empty values given, once each, and blanks iff the flag asks for them |
| OrderQueries.ReadValueSet | backend/internal/orders/filters.go:192-215 | the loop over the raw values computes that set |

## Left out

* HTTP handlers, JSON, cookies, multipart uploads, SMTP, logging, configuration, audit rows and notices: plumbing.
* Postgres isolation and lock order: transactions are atomic, and interleaving inside one is not modelled.
* Rounding of binary floats and sub-cent amounts: all money is in whole cents.
* Cryptography and randomness: hashes are injective, generated values are parameters.
* White space and case folding beyond ASCII, and text collation: strings compare character by character. A stored CN does not begin or end with a tab or line break, which the SQL look-up would not trim.
* The spreadsheet parser: a preview is an input. Products keep their key only, not their display fields.
* Payment methods' aliases, dates and notes; parts of replies that repeat request data, such as the counts of moved rows.
* The retry reply of a payment always says "approved", even when the payment has since been voided (backend/internal/payments/handler.go:592); the model's reply names the payment and not its status.
* A merged user is found again by a later import, which gives it new orders (backend/internal/importpreview/handler.go:1005-1016): the model keeps this, so "a merged user owns nothing" is not claimed.
* Order numbers and project codes, and collisions of their truncated hashes.
* Collisions of the key `sheet:row:CN` of the table total (backend/internal/importpreview/rules.go:147): the model keeps the three apart.
* Reading dates, ranges and paging off the URL, column labels and sheet styling of the export.
* The joins that build the list's base view: a row comes with its joined columns and its approved sum, which in the ledger is `Ledger.PaidOf`.
* One set of tables for both emailed-code machines: `Recovery` sees a verified email as one step, `EmailVerification` sees other changes to users as one move.
* Bind tokens, administrators' own email codes and the other lists' filters: smaller copies of what is modelled.
- LedgerVoid.VoidUndoes: leaves the status of a revoked item to VoidUndoesItem, and says nothing of the amounts a proof displayed when it was submitted.
- QueryLimiterBounds.AttemptBound: holds only for an address whose counter is not evicted; LimitIffPlaces says exactly when every address has the bound.
- QueryLimiter.FailuresBlock: asks that the pair's record is not evicted or refused room; QueryLimiterBlocks.BlockIffPlaces says exactly when that can be left out.
- AdminLimiterBlocks.BlockIffPlaces: asks for places, positive windows and a limit on an address's logins above the failures that are enough, which the policy the program builds has.
- AdminLimiter.FailuresBlock: asks that the pair is tracked; AdminLimiterBlocks.BlockIffPlaces says exactly when that can be left out.
- EmailVerification.CooldownRetryAfter: the cool-down's retry-after is exact only under the stated condition, because CooldownRetryAfterTooShort shows it can be too short.
- RecoveryStore.Store.RequestCode: takes the other transactions as a list that commits between preparing and confirming, and assumes none of them confirms this very code.
