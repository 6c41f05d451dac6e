# Verified model of the virtual-account ledger

The service fronts a bank's virtual-account (VA) numbers: merchants open and delete VAs, the bank inquires and pays
them, unpaid ones expire, and a reconciler asks the bank about payments whose notification was lost. This project
models that ledger and proves what its calls promise over whole runs. Beside it stand the smaller components with a
guarantee of their own: the idempotency middleware, the customer-number generator, the cached VA-type rules, the
callback deliveries and the printer of logged curl commands.

| files | what they hold |
|---|---|
| `Domain`, `Tables`, `Steps` | rows and requests; each SQL statement and each use case as a function of the tables |
| `Repository`, `Usecases` | the same operations as classes that update their fields, each method proved equal to its function |
| `Invariant`, `Agreement`, `Lifecycle`, `Uniqueness` | what every call keeps, where SQL and Go must agree, what one call leaves behind, what exists once |
| `Answers`, `Registrations`, `Expiry` | every answer code and amount on the fields of the rows, what CreateVA registers, what expires and is announced |
| `VariableBill`, `NoBillNumbers`, `Callbacks`, `Replay`, `Reconciliation`, `PaymentIds`, `Resettlement` | conservation, replay and settlement over whole runs |
| `Findings` | reachable states in which a stronger law fails, with the law that holds instead |
| `Interleaving` | expirers, deleters and reconcilers interleaved one statement at a time |
| `Text`, `Money`, `Amounts`, `Identity` | strings, rounding, amount strings and the VA identity check |
| `Sequence`, `Idempotency`, `Admission`, `RuleCache`, `Delivery`, `Resend`, `ShellQuote` | the smaller components |

A run of the ledger is any sequence of CreateVA, Inquiry, Payment, DeleteVA, Reconcile and Sweep calls from empty
tables, each one atomic and without storage errors; the clock, the vendor's answers and the answers of the rule
provider and the number generator are arbitrary parameters of each call. `Interleaving`, `Sequence`, `Idempotency` and
`Delivery` are state machines whose steps are single statements and whose schedules are arbitrary. Amounts are whole
cents; `Amounts.LedgerComparesAsTheProgram` connects them to the strings and binary64 comparisons of the program, with
rounding bounded as in IEEE 754-2019, section 4.3.1; `Amounts.AssumptionsAreMet` proves that the assumptions on rounding
and parsing can be met together. The shell is that of POSIX.1-2017, Shell Command Language,
sections 2.2.2 and 2.2.3.

Column widths are part of CreateVA: a text too long for its VARCHAR is a storage error unless only blanks are cut off,
and so is an amount outside NUMERIC(16,2).

Assumptions: an id issued by the vendor never equals a VA number; created-at times strictly increase, so a row's
position is its creation order; a stored idempotency record outlives its day.

Where the code and its comments disagree the model follows the code:

- `markExpiredAndNotify` updates by VA number, so an inquiry that repeats the id of an expired cycle expires the bill
  now open on that number (`Findings.StaleInquiryExpiresNewBill`; exactly when:
  `Agreement.InquiryExpiresTheValidExactlyWhen`).
- SaveInquiry's conflict arm reopens a row that was paid without ever being inquired and keeps its paid amount, so the
  new bill can be presented and yet refuse every payment (`Findings.ReopenedBillRefusesEveryAmount`; exactly when:
  `Agreement.OpenVariableBillAccepts`).
- A vendor settlement adds no instalment, so the next instalment of a variable bill recomputes the paid amount without
  it (`Findings.VendorAmountForgotten`; exactly when: `Findings.InstalmentAddsUpExactlyWhen`).
- A managed CreateVA that is refused, because the number has an open bill or the total does not fit its column, has
  already stored the registration (exactly when: `Lifecycle.RefusedCreateWritesExactlyWhen`).
- Reopening a settled row and settling it again overwrites its payment id, so the first payment is no longer recognised
  (`PaymentIds.ReopenedBillForgetsItsId`; exactly when: `PaymentIds.OverwrittenExactlyWhen`, and a repeat is then
  credited exactly when: `PaymentIds.RepeatCreditedExactlyWhen`).
- An instalment can put a row the vendor settled back to '03' (exactly when: `Resettlement.ReopenedExactlyWhen`), and the
  vendor's word then settles it a second time, with credits above the bill's total (`Findings.VendorSettlesTwice`).
- The non-advice replay of a 4042513 keeps its flag status but not its reason (`Replay.ReplayOnTheWire`).
- The middleware reads the record before it takes the lock, so "answered once" holds for sequential requests only
  (`Idempotency.HandledExactlyWhen`, `Idempotency.EarlyChecksRunInTurn`; exactly when a request is let in, over every
  schedule: `Admission.AdmittedExactlyWhen`).
- A refresh whose Redis write is lost does not make a change visible: the next lookup reads the old list from Redis
  (exactly when: `RuleCache.TypesChangeVisibleExactlyWhen`, `RuleCache.PartnersChangeVisibleExactlyWhen`).
- Out-of-order attempt results can leave a delivery "retrying" after its last attempt failed
  (`Delivery.LateRetryHidesFailure`; exactly when: `Delivery.WritesInAnyOrder`).
- The logged command is not completed by exporting BCA_ACCESS_TOKEN: the placeholder stands in single quotes
  (`ShellQuote.PlaceholderIsNotExpanded`).

## Model

| member | source | states |
|---|---|---|
| `Invariant.ReachableOneOpenBill` | internal/infrastructure/database/va_repository.go:691-725 | in every reachable state a number has at most one pending row; no newer row of the number is payable, and none newer than the row still holding CreateVA's placeholder |
| `Invariant.ClosedRowFrozen` | internal/infrastructure/database/va_repository.go:248-267 | a closed row under a real vendor id (a paid fixed bill among them) is the same row after any further run of calls, CreateVA included |
| `Invariant.ReachableKeysUnique` | internal/infrastructure/database/va_repository.go:135-160 | inquiry_request_id stays unique and non-empty in every reachable state |
| `Invariant.StepKeepsInv` | internal/usecase/merchant_va_usecase.go:266-305 | every call keeps the keys unique, the open bill newest, instalment ids unique and every credit on a row of its number |
| `Invariant.BestIsThePendingRow` | internal/infrastructure/database/va_repository.go:716-725 | the row the ranking picks is the pending one whenever the number has one |
| `Invariant.OnePendingRow` | internal/infrastructure/database/va_repository.go:651 | two pending rows of a number are the same row, so the statements scoped to status '03' touch one row |
| `Answers.AcceptedPaymentNames` | internal/usecase/va_usecase.go:996-1037 | what the answer to an accepted payment names: the number and id sent, the amount tendered for a settlement or a no-bill payment, the sum of the bill's instalments with this one for an instalment, and the total sent or else the amount paid |
| `Answers.AnswerIsWhatTheRowRecords` | internal/usecase/va_usecase.go:977-1037 | the amount an accepted payment's answer names is the paid amount of the row it was credited to |
| `Answers.InstalmentNamesTheRunningTotal` | internal/usecase/va_usecase.go:977-1037 | within a bill's cycle an accepted instalment's answer names what was paid before plus this payment, never above the total |
| `Answers.RepeatNames` | internal/usecase/va_usecase.go:1152-1202 | a repeat is answered with the settled row as stored, or with the stored sum of the bill its instalment belongs to |
| `Answers.TakenIdNamesTheStoredSum` | internal/usecase/va_usecase.go:1002-1007 | an instalment under an id another bill uses moves no money and is answered as a repeat with the bill's stored sum |
| `Answers.NoBillNumberAnswers` | internal/usecase/va_usecase.go:362-430 | for a no-bill number inquiry and payment accept exactly while the registration is active and not past its expiry; otherwise the payment is expired, or not found when the number was merely deactivated |
| `Answers.BilledPaymentAnswers` | internal/usecase/va_usecase.go:927-1050 | each answer code of a first payment of a billed number, exactly when, on the status, expiry, type, paid amount and total of the answering row |
| `Answers.BilledRefusalNames` | internal/usecase/va_usecase.go:927-945 | a refusal names the number, the total and, only for a bill paid up, the paid amount, with flag 01 and the reason of its code |
| `Answers.RowlessRefusalNames` | internal/usecase/va_usecase.go:413-421 | a refusal with no row behind it names the request alone |
| `Answers.FlaggedAcceptedExactlyWhen` | internal/adapter/delivery/http/handler/va_handler.go:206-230 | a first payment is flagged 00 on the wire exactly when it is accepted, with the reason of its code |
| `Answers.BilledInquiryAnswers` | internal/usecase/va_usecase.go:161-226 | each answer code of an inquiry of a billed number, exactly when, on the fields of the row it concerns |
| `Answers.AcceptedInquiryClaims` | internal/infrastructure/database/va_repository.go:248-271 | an accepted inquiry changes one thing: an unclaimed bill takes the vendor's id, which finds it from then on |
| `Answers.NoBillPaymentAddsItsRow` | internal/usecase/va_usecase.go:453-487 | an accepted no-bill payment adds one settled row under its own id, for the amount tendered, with the registration's trxId, URL and type |
| `Answers.MalformedPaymentRefused` | internal/domain/va_validation.go:309-318 | a payment without an id or a positive amount is refused before anything is written |
| `VariableBill.VariableBillBalances` | internal/usecase/va_usecase.go:951-1007 | a variable bill CreateVA inserts, over any run within its cycle: paid_amount is the sum of its instalments, never above the total, each payment id counts once, and the row is '00' exactly when the sum reaches the total |
| `VariableBill.RunKeepsCycle` | internal/infrastructure/database/va_repository.go:1225-1283 | the balance between the row and its instalments survives every run that neither reopens the number nor settles it on the vendor's word |
| `Callbacks.EveryCreditAnnouncedOnce` | internal/usecase/va_usecase.go:1002-1007 | in every run the payment.received callbacks are, in order and content, one for each credit recorded on a row with a notification URL |
| `Callbacks.RepeatMovesNothing` | internal/usecase/va_usecase.go:834-850 | a repeated payment (flagged pair, settled id, or instalment of the answering row) changes no row, records no credit, sends no callback |
| `Callbacks.CreditExactlyWhenAccepted` | internal/usecase/va_usecase.go:940-1115 | a payment records a credit exactly when it is answered 2002500 without repeating one on file or reusing another bill's instalment id, for the amount tendered on the number asked for |
| `Replay.FirstAnswerIsFinal` | internal/usecase/va_usecase.go:697-761 | once a (X-EXTERNAL-ID, paymentRequestId) pair was answered below 500, every later payment with it, after any run, changes nothing and gets the first code (advice) or 4042518, with the first data |
| `Replay.AnswerIsFiled` | internal/usecase/va_usecase.go:776-809 | an answer below 500 is on file under its pair afterwards, a 5xx is not |
| `Replay.RunKeepsFlags` | internal/infrastructure/database/va_repository.go:1562-1609 | no call removes or replaces a recorded flag |
| `Replay.ReplayOnTheWire` | internal/adapter/delivery/http/handler/va_handler.go:206-230 | a replay shows the first flag status; it shows the first reason too, except for a non-advice replay of a 4042513 that stored no data |
| `Replay.FirstOutcomeStays` | internal/infrastructure/database/va_repository.go:1562-1609 | whoever files an outcome for a pair second changes nothing |
| `NoBillNumbers.NoBillNumberAddsUp` | internal/infrastructure/database/va_repository.go:1657-1662 | a number first registered as no-bill keeps its billing class, its settled rows count and sum to its accepted payments, and those have distinct payment ids, in every later state |
| `NoBillNumbers.EarlierPaymentsUnaltered` | internal/infrastructure/database/va_repository.go:1439-1507 | no later call alters a payment row of a no-bill number |
| `NoBillNumbers.DeletedTakesNoCredit` | internal/usecase/merchant_va_usecase.go:448-458 | after DeleteVA no payment of a no-bill number is recorded until CreateVA names it again |
| `NoBillNumbers.OwnPayment` | internal/usecase/va_usecase.go:410-534 | a payment of a no-bill number adds one row and one credit, or leaves its rows, credits and class alone |
| `NoBillNumbers.RegistrationStarts` | internal/infrastructure/database/va_repository.go:1353-1361 | registering an unknown number without a bill leaves it active, with the expiry sent, in the state the totals are kept from |
| `Registrations.RegistrationStored` | internal/usecase/merchant_va_usecase.go:226-256 | a successful CreateVA with a VA type or for a reserved partner leaves its number active with the trxId, URL and expiry sent, a new one of the request's partner, customer, type and billing class, a known one as it was, and touches no other registration |
| `Registrations.CreatedExactlyWhen` | internal/usecase/merchant_va_usecase.go:47-316 | CreateVA succeeds exactly when the request is complete, a number available, every value goes into its column, the customer is free and no bill is open on the number |
| `Registrations.CreateAnswers` | internal/usecase/merchant_va_usecase.go:47-300 | which refusal CreateVA answers: incomplete request, customer already registered, open bill, or no number |
| `Registrations.RegisteredNumberTakesPayments` | internal/usecase/merchant_va_usecase.go:226-263 | a number registered without a bill, new or again, accepts an inquiry and a payment of any positive amount before its expiry, and credits it |
| `Registrations.DeletedUntilRegisteredAgain` | internal/usecase/merchant_va_usecase.go:448-458 | a deleted no-bill number refuses inquiry and payment through any run that does not register it, and takes them again once CreateVA does |
| `Agreement.RankIsPayable` | internal/infrastructure/database/va_repository.go:716-725 | the CASE expression of the ranking and the Go predicate IsPayable agree on every row |
| `Agreement.OpenBillNeverHidden` | internal/domain/va.go:713-726 | the row returned for a number is payable exactly when some row of the number is |
| `Agreement.PaymentExpiresOnlyThePast` | internal/usecase/va_usecase.go:927-939 | a payment moves a pending row to '02' only when that row's own expiry has passed |
| `Agreement.InquiryExpiresExactlyWhen` | internal/usecase/va_usecase.go:161-176 | an inquiry expires a pending row exactly when it resolves to an expired row of the same number |
| `Agreement.InquiryExpiresTheValidExactlyWhen` | internal/usecase/va_usecase.go:1392-1399 | a bill still valid is expired by an inquiry exactly when the inquiry's id belongs to an already expired row of the number |
| `Agreement.InquiryAndPaymentAgree` | internal/usecase/va_usecase.go:161-226 | at one instant, with fresh ids and, while the bill can take a payment, the owed amount, inquiry and payment both accept, or both answer paid (fully paid variable bills included), expired or not found |
| `Agreement.PaymentUnderItsInquiryId` | internal/infrastructure/database/va_repository.go:403-421 | a payment reusing the id its inquiry just claimed is taken as a first payment |
| `Agreement.OpenVariableBillAccepts` | internal/usecase/va_usecase.go:1224-1246 | an open variable bill accepts exactly the positive amounts within its remainder |
| `Expiry.PaymentExpiresExactlyWhen` | internal/usecase/va_usecase.go:927-939 | a payment moves a pending row to 02 exactly when it is for that row's number, repeats nothing and the row's expiry has passed |
| `Expiry.RegistrationLapsesExactlyWhen` | internal/usecase/va_usecase.go:1448-1483 | a registration lapses exactly when an inquiry, or a payment that repeats nothing, finds it active past its expiry |
| `Expiry.StepAnnounces` | internal/usecase/va_usecase.go:1392-1433 | any call adds a va.expired callback for a number exactly when it expires it for the first time with an address, and then exactly one, to the address of what the call was about |
| `Expiry.AnnouncedExactlyWhen` | internal/usecase/va_usecase.go:1392-1483 | in every run a number's expiry is announced exactly when some call expired its open bill or registration with an address to call |
| `Lifecycle.CreatedBillAnswers` | internal/usecase/merchant_va_usecase.go:263-305 | a created bill is the open row that answers for its number, with the total, URL and expiry asked for; every other row is untouched |
| `Lifecycle.RefusedCreateOpensNothing` | internal/usecase/merchant_va_usecase.go:199-272 | a refused CreateVA writes no table but the registrations; a number answered 4092700 has an open bill |
| `Lifecycle.RefusedCreateWritesExactlyWhen` | internal/usecase/merchant_va_usecase.go:199-300 | a refused CreateVA has changed a table exactly when it was a managed bill past the duplicate check whose registration was stored with something new, on a number with an open bill or with a total the column cannot hold |
| `Lifecycle.BillCreatedExactlyWhen` | internal/usecase/merchant_va_usecase.go:103-305 | CreateVA writes a bill exactly when the fields are valid, the number resolves, the values fit their columns, the customer number is free and the number has no open bill |
| `Lifecycle.SavedRow` | internal/infrastructure/database/va_repository.go:134-185 | the upsert keeps keys unique and touches one row: a new one, or the row of the bill's key, which keeps its number, key, paid amount and payment id |
| `Lifecycle.ClaimReplacesPlaceholderOnly` | internal/infrastructure/database/va_repository.go:248-271 | claiming changes at most the row's key, and that exactly when the row still holds a placeholder |
| `Lifecycle.AcceptedSettlementPaysInFull` | internal/usecase/va_usecase.go:1040-1100 | a first payment accepted on a non-instalment bill tenders exactly its total and changes only that row's status, paid amount and payment id |
| `Lifecycle.AcceptedInstalmentStaysWithin` | internal/usecase/va_usecase.go:960-1001 | an accepted instalment stays within the remainder, adds one instalment row, changes one transaction row and settles it exactly when the total is reached |
| `Lifecycle.DeletedNumberIsClosed` | internal/usecase/merchant_va_usecase.go:434-486 | when DeleteVA succeeds, and its exact effect: the open bill is 04, or the active registration inactive, and nothing else changed |
| `Uniqueness.OneNumberPerCustomer` | internal/infrastructure/database/va_repository.go:1176-1191 | in every run no two numbers are registered to one partner's customer |
| `Uniqueness.ExpiryAnnouncedOnce` | internal/infrastructure/database/va_repository.go:1090-1103 | in every run a number gets at most one automatic va.expired callback |
| `PaymentIds.CreditedOncePerNumber` | internal/usecase/va_usecase.go:834-850 | in every run two payments with one id on one number are both credited only if some call between them settled the row holding that id again under another one |
| `PaymentIds.OverwrittenExactlyWhen` | internal/infrastructure/database/va_repository.go:314-326 | a row's payment id is overwritten exactly when a call settles that row again under another id, in terms of the state before the call |
| `PaymentIds.CreditedExactlyWhen` | internal/usecase/va_usecase.go:816-1141 | a payment adds a credit exactly when, before the call, its pair is not flagged, no row is settled under its id, and the number takes it: an open registration without a bill, or an open bill, as a new instalment within the remainder or as the exact total |
| `PaymentIds.RepeatCreditedExactlyWhen` | internal/usecase/va_usecase.go:834-850 | in every run a later payment with a credited id on the same number is credited exactly when it can be credited by then and some call in between overwrote the id |
| `PaymentIds.ReopenedBillForgetsItsId` | internal/infrastructure/database/va_repository.go:140-160 | a reachable run in which a bill paid and reopened without an inquiry credits a payment id twice |
| `Resettlement.ReopenedExactlyWhen` | internal/infrastructure/database/va_repository.go:1247-1275 | a settled row under a vendor id stays settled under every call but an instalment that leaves its instalments short of the total |
| `Resettlement.SettledAgainOnlyIfReopened` | internal/infrastructure/database/va_repository.go:1927-1956 | in every run a row the vendor settled is open to a second settlement only if such an instalment came between |
| `Reconciliation.SettlesExactlyWhenConfirmed` | internal/usecase/reconciliation_usecase.go:152-298 | a record is settled exactly when it was read pending and inquired, the answer is 2002600 with flag 00 or 02 and an amount, and a row is still pending; otherwise only the audit row is written |
| `Reconciliation.SettlesOwnRow` | internal/infrastructure/database/va_repository.go:1927-1956 | a settlement changes exactly the record's own row, records one credit and sends one callback |
| `Reconciliation.SweepAuditsEach` | internal/usecase/reconciliation_usecase.go:89-117 | a sweep returns one result and writes one audit row per candidate, in order |
| `Reconciliation.SweepIsReconcileEach` | internal/usecase/reconciliation_usecase.go:89-117 | a sweep over records read up front does what reconciling each number on demand, one after the other, would do |
| `Reconciliation.StalePendingComplete` | internal/infrastructure/database/va_repository.go:1813-1868 | the candidates are exactly the pending, unexpired rows created before the cut-off |
| `Reconciliation.SettledAtMostOnce` | internal/usecase/reconciliation_usecase.go:302-342 | over any number of sweeps and on-demand reconciliations no row is settled twice |
| `Reconciliation.SelectedExactlyWhen` | internal/infrastructure/database/va_repository.go:1813-1868 | a sweep selects a row exactly when it is pending, unexpired and before the cut-off, and fewer than the limit of such rows are older |
| `Reconciliation.OldestFirst` | internal/infrastructure/database/va_repository.go:1823-1829 | a sweep starts with the oldest stale row |
| `Reconciliation.OutcomeExactlyWhen` | internal/usecase/reconciliation_usecase.go:152-298 | each outcome that settles nothing, exactly when, on the row as read and the vendor's code, flag and amount |
| `Findings.StaleInquiryExpiresNewBill` | internal/usecase/va_usecase.go:170-174 | a reachable run in which a repeated old inquiry id expires the number's new, never expiring bill |
| `Findings.ReopenedBillRefusesEveryAmount` | internal/infrastructure/database/va_repository.go:140-159 | a bill paid without an inquiry and created again keeps its paid amount: inquiry accepts it, every payment is refused |
| `Findings.InstalmentAddsUpExactlyWhen` | internal/infrastructure/database/va_repository.go:1247-1275 | an instalment raises the paid amount by what was tendered exactly when the row recorded the sum of its instalments before |
| `Findings.VendorAmountForgotten` | internal/infrastructure/database/va_repository.go:1932-1942 | a reachable run in which a partial vendor settlement of a variable bill is forgotten by the next instalment |
| `Findings.VendorSettlesTwice` | internal/infrastructure/database/va_repository.go:1927-1942 | a reachable run in which the vendor settles one row twice with an instalment in between: credits of 60, 40 and 60 on a bill of 100 |
| `Interleaving.OneWinnerPerEntry` | internal/infrastructure/database/va_repository.go:647-662 | in every interleaving of expirers, deleters, reconcilers and CreateVA writes: entries into '03' (or ACTIVE) and exits alternate, and a closed row or registration holds the status of the write that closed it |
| `Interleaving.OnlyWinnersAnnounce` | internal/usecase/va_usecase.go:1392-1433 | a caller sends at most one callback, and only if its own conditional write changed a row |
| `Interleaving.CallbacksNeverExceedEntries` | internal/usecase/va_usecase.go:1448-1483 | entries are exits plus what is still open, and callbacks never outnumber exits |
| `Interleaving.WriteEffect` | internal/infrastructure/database/va_repository.go:1412-1426 | a conditional write puts its status on the open rows of its number and leaves every other row alone |
| `Interleaving.GoesOnExactlyWhen` | internal/usecase/va_usecase.go:1392-1399 | a caller goes on from its read to its write exactly when the row read warrants it: past its date for an expirer, open for a deleter, open and claimed for a reconciler, a registration without a bill for the registration jobs |
| `Interleaving.SentExactlyWhen` | internal/usecase/va_usecase.go:1403-1432 | in every schedule a caller has sent its callback exactly when it announced a win with an address to call and, for an expiry, no earlier announcement on file |
| `Money.EqualExactly` | internal/usecase/va_usecase.go:48-52 | half a cent of tolerance on binary64 values decides equality of cents for amounts of up to 13 integer digits |
| `Money.OverpaysExactly` | internal/usecase/va_usecase.go:1242 | the rounded sum exceeds the rounded ceiling exactly when settled plus tendered cents exceed the total, for totals of up to 13 integer digits |
| `Money.LessExactly` | internal/domain/va.go:725 | paid < total on rounded values is the order of their cents |
| `Amounts.AmountsEqualIsCentsEqual` | internal/usecase/va_usecase.go:1209-1216 | amountsEqual holds of two accepted amount strings exactly when they denote the same cents |
| `Amounts.OverpaymentIsCentsOver` | internal/usecase/va_usecase.go:1224-1246 | the overpayment test refuses exactly the instalments that take a bill with a positive total past it, an empty paid amount counting as zero |
| `Amounts.StillOwedIsCentsBelow` | internal/domain/va.go:720-725 | the paid/total comparison of IsPayable is the comparison of cents |
| `Amounts.LedgerComparesAsTheProgram` | internal/usecase/va_usecase.go:1042-1050 | the ledger's comparisons on cents are the program's comparisons on the strings that hold them |
| `Amounts.AssumptionsAreMet` | internal/usecase/va_usecase.go:1209-1216 | the assumptions on rounding and on parsing can be met together |
| `Amounts.PaidAmountAcceptedExactlyWhen` | internal/domain/va_validation.go:309-318 | paidAmount is accepted exactly when it has 1 to 13 digits, two decimals, a known currency and is not zero |
| `Amounts.ColumnTextReadsBack` | internal/domain/va_validation.go:510-531 | a stored amount, written with two decimals, fits the accepted pattern and reads back as the same cents |
| `Amounts.AmountRefusedExactlyWhen` | internal/domain/va_validation.go:510-531 | which part of an amount is refused, and whether as missing or malformed |
| `Amounts.UnreadableAmounts` | internal/usecase/va_usecase.go:1203-1246 | amounts that cannot be read are equal only as texts, and refuse no instalment |
| `Sequence.GeneratedNumbersDistinct` | internal/infrastructure/database/va_repository.go:1120-1161 | in every interleaving, whenever the Redis lock expires, generated customer numbers are pairwise distinct, and 18 characters long for a two-character type |
| `Sequence.ScheduleIsSound` | internal/infrastructure/database/va_repository.go:79-107 | the row lock keeps read, increment and commit of a counter together |
| `Sequence.CustomerNoInjective` | internal/infrastructure/database/va_repository.go:1154 | customer numbers determine the VA type and the sequence |
| `Sequence.ExpiredLockAdmitsTwo` | internal/infrastructure/database/va_repository.go:89-97 | the Redis lock alone does not serialise the section: after it expires two callers are inside |
| `Sequence.ReadsExactlyWhen` | internal/infrastructure/database/va_repository.go:1120-1141 | a caller reads the counter exactly when it exists, its row is free and it has at most 16 digits; it waits while the row is held and otherwise gives up |
| `Identity.DerivedNumberPasses` | internal/usecase/merchant_va_usecase.go:186-200 | a number CreateVA derives from a generated customer number passes the check of inquiry, payment and status exactly when the partner id is not blank |
| `Identity.StaticNumberPassesExactlyWhen` | internal/domain/va_validation.go:470-506 | a static number CreateVA stored passes, under the partner id as stored, exactly when neither half is blank; under the id as sent, the id must also not have been cut |
| `Identity.LongPartnerRefused` | db/migrations/000003_create_va_transactions.up.sql:3 | a partner id with more than 8 characters that are not trailing blanks is refused at creation |
| `Identity.ConcatenationPassesExactlyWhen` | internal/domain/va_validation.go:499-504 | trimming keeps the prefix and suffix agreement of a concatenated number |
| `Identity.IdentityPassesExactlyWhen` | internal/domain/va_validation.go:470-506 | the check passes exactly when no part is blank or too long and the trimmed number starts with the partner id and ends with the customer number |
| `Identity.IdentityRefusedExactlyWhen` | internal/domain/va_validation.go:470-506 | which part is refused, and whether as missing or malformed |
| `Idempotency.Middleware.Handle` | internal/adapter/delivery/http/middleware/idempotency.go:187-301 | one request: answer, record and lock afterwards, for every method, header, record and lock state |
| `Idempotency.HandledExactlyWhen` | internal/adapter/delivery/http/middleware/idempotency.go:245-258 | over a sequence of requests, one reaches the handler exactly when it is the double flag of every earlier request that consumed its key |
| `Idempotency.RecordsAreAnswers` | internal/adapter/delivery/http/middleware/idempotency.go:284-295 | a key is on record exactly when a request with it was handled and answered below 500 |
| `Idempotency.RecordedIdIsFinal` | internal/adapter/delivery/http/middleware/idempotency.go:163-168 | the payment id recorded for a key never changes |
| `Idempotency.KeysAreDayScoped` | internal/adapter/delivery/http/middleware/idempotency.go:211 | two keys coincide exactly when day and external id do |
| `Idempotency.NeverTwoInTheHandler` | internal/adapter/delivery/http/middleware/idempotency.go:261-270 | interleaved, two requests with one key are in the handler together only if a request with that key was inside for longer than its lock lives |
| `Idempotency.SlowHandlerIsJoined` | internal/adapter/delivery/http/middleware/idempotency.go:261-270 | without that condition a second request joins a slow handler |
| `Idempotency.EarlyChecksRunInTurn` | internal/adapter/delivery/http/middleware/idempotency.go:245-261 | because the record is read before the lock is taken, two early readers are both handled, in turn |
| `Idempotency.PassesThroughExactlyWhen` | internal/adapter/delivery/http/middleware/idempotency.go:187-199 | a request passes whatever is stored, leaving the store alone, exactly when its verb is GET, HEAD or OPTIONS |
| `Idempotency.ServedExactlyWhen` | internal/adapter/delivery/http/middleware/idempotency.go:211-301 | a request that writes reaches the handler exactly when nobody holds its key and no record forbids it, and what the record then holds |
| `Idempotency.MissingHeaderExactlyWhen` | internal/adapter/delivery/http/middleware/idempotency.go:195-210 | the header is missed exactly when a request that writes has no external id |
| `Idempotency.FlightsAreGuarded` | internal/adapter/delivery/http/middleware/idempotency.go:187-211 | in every schedule each request under way writes, has an external id, and is keyed by day and id |
| `Admission.AdmittedExactlyWhen` | internal/adapter/delivery/http/middleware/idempotency.go:245-270 | over every schedule: an attempt on the lock reaches the handler exactly when the request's record check passed, however long ago, and every lock taken for the key has expired or been deleted; what is on record by now plays no part |
| `Admission.CheckedExactlyWhen` | internal/adapter/delivery/http/middleware/idempotency.go:245-258 | a request waits for the lock exactly when its check ran while the key was not on record, or found a double flag, and it has not tried since |
| `Admission.LockedExactlyWhen` | internal/adapter/delivery/http/middleware/idempotency.go:261-270 | a key is locked exactly while some admission's lock has neither expired nor been deleted, by whomever |
| `Admission.JoinedOnlyWhen` | internal/adapter/delivery/http/middleware/idempotency.go:261-270 | a second request enters beside one inside only when that one's lock has expired or a release of the key has deleted it |
| `Admission.RecordedExactlyWhen` | internal/adapter/delivery/http/middleware/idempotency.go:284-295 | in every schedule a key is on record exactly when some request with it was answered below 500 |
| `RuleCache.AnsweredListsWereHeld` | internal/infrastructure/cache/va_type_rule_provider.go:137-202 | under any Redis or database failures, outside edits and restarts, every list a lookup works on is one the table held at some earlier moment |
| `RuleCache.CleanLookupsScanTheTable` | internal/infrastructure/cache/va_type_rule_provider.go:98-119 | without failures and outside edits every lookup works on the current table, whatever Redis drops |
| `RuleCache.TypesChangeVisibleExactlyWhen` | internal/infrastructure/cache/va_type_rule_provider.go:248-271 | a change of the VA types is visible to the next lookup exactly when the refresh wrote it to Redis, or Redis held nothing or the same list |
| `RuleCache.PartnersChangeVisibleExactlyWhen` | internal/infrastructure/cache/va_type_rule_provider.go:275-298 | the same for the partner ids |
| `RuleCache.MissedTypesServedUntilRenewed` | internal/infrastructure/cache/va_type_rule_provider.go:137-171 | after a missed change, calls without failures serve the old list exactly until one of them refreshes, another instance fills Redis, or Redis drops the key |
| `RuleCache.MissedPartnersServedUntilRenewed` | internal/infrastructure/cache/va_type_rule_provider.go:173-202 | the same for the partner ids |
| `RuleCache.PaddingIsInvisible` | internal/infrastructure/cache/va_type_rule_provider.go:211-213 | space padding of the partner id changes no lookup |
| `RuleCache.ScanFindsFirst` | internal/infrastructure/cache/va_type_rule_provider.go:216-228 | a lookup answers the first matching rule, and nothing exactly when none matches |
| `RuleCache.CachedVATypeRuleProvider.RefreshNow` | internal/infrastructure/cache/va_type_rule_provider.go:98-119 | both lists are read before any copy is replaced; the new state of every copy |
| `RuleCache.CachedVATypeRuleProvider.CurrentVATypes` | internal/infrastructure/cache/va_type_rule_provider.go:137-171 | the list returned and the copies left, for every combination of failing calls |
| `RuleCache.CachedVATypeRuleProvider.CurrentPartnerIDs` | internal/infrastructure/cache/va_type_rule_provider.go:173-202 | the list returned and the copies left, for every combination of failing calls |
| `RuleCache.CachedVATypeRuleProvider.LookupVATypeRule` | internal/infrastructure/cache/va_type_rule_provider.go:216-228 | the loop answers a scan of the list the read returns |
| `RuleCache.CachedVATypeRuleProvider.IsReservedPartnerServiceID` | internal/infrastructure/cache/va_type_rule_provider.go:231-243 | true exactly when the list the read returns holds the partner id, trimmed |
| `RuleCache.CachedVATypeRuleProvider.SaveVATypes` | internal/infrastructure/cache/va_type_rule_provider.go:248-271 | a mutation of the VA types followed by the refresh |
| `RuleCache.CachedVATypeRuleProvider.SavePartnerServiceIDs` | internal/infrastructure/cache/va_type_rule_provider.go:275-298 | a mutation of the partner ids followed by the refresh |
| `RuleCache.NoListExactlyWhen` | internal/infrastructure/cache/va_type_rule_provider.go:137-171 | a read finds no list exactly when Redis or the table failed at first, no copy is in memory and the last attempt on the table failed too |
| `RuleCache.AnswerOutlivesAnOutage` | internal/infrastructure/cache/va_type_rule_provider.go:137-171 | a list Redis or the table answered is served again from memory when Redis is out, and from Redis when it could be stored there |
| `RuleCache.RefreshReachesMemory` | internal/infrastructure/cache/va_type_rule_provider.go:98-119 | a refresh that read both lists reaches the copies in memory; one that missed either changes no copy of either |
| `Delivery.RowsTellTheTruth` | internal/adapter/delivery/worker/payment_notification_worker.go:70-106 | in every schedule of dispatchers and attempts, with writes late, lost or out of order, "success" only if the merchant was reached, "failed" only after the last attempt or for a task never enqueued, and the count stays within maxRetry + 1 |
| `Delivery.DispatcherSettlesItsOwn` | internal/usecase/notification_dispatch.go:25-71 | the dispatcher only rewrites a row whose task was never enqueued and that nothing else has written |
| `Delivery.SuccessIsFinal` | internal/infrastructure/database/va_repository.go:813-834 | in any schedule a "success" row never changes again and no attempt count goes down |
| `Delivery.WritesInAnyOrder` | internal/infrastructure/database/va_repository.go:824-830 | the final status and count of a row, for any order of the worker's writes |
| `Delivery.AlwaysFailingEndsFailed` | internal/adapter/delivery/worker/payment_notification_worker.go:84-94 | a task that always fails ends "failed" after maxRetry + 1 attempts |
| `Delivery.LateRetryHidesFailure` | internal/infrastructure/database/va_repository.go:824-830 | out of order, a late "retrying" hides the final failure |
| `Delivery.OutcomesReportTheirAttempts` | internal/adapter/delivery/worker/payment_notification_worker.go:72-106 | in every schedule an outcome waiting to be written says success exactly when its attempt was good, retrying exactly when it failed with retries left, failed exactly when it failed as the last |
| `Delivery.SucceededExactlyWhen` | internal/adapter/delivery/worker/payment_notification_worker.go:72-106 | in every schedule a row reads success exactly when a good attempt of its task has been recorded; otherwise it shows the attempt recorded last |
| `Delivery.RowsHoldWhatWasInserted` | internal/usecase/notification_dispatch.go:25-45 | in every schedule a row holds the number, event, trigger, time and payload it was inserted with |
| `Delivery.RefusedRowReadsAsRefused` | internal/usecase/notification_dispatch.go:46-71 | in every schedule the row of a task never enqueued is still queued, or reads duplicate or failed as the queue refused it |
| `Resend.AllOrRefused` | internal/usecase/resend_callback_usecase.go:106-113 | a range with more than 500 originals is refused and changes nothing; any other gets one item per original in order, and exactly the payloads the originals carried are enqueued |
| `Resend.ResendsNeverFeedResends` | internal/infrastructure/database/va_repository.go:889-908 | after any number of resends a range selects exactly the originals it selected before |
| `Resend.ByTimeSorts` | internal/infrastructure/database/va_repository.go:910 | the selection holds exactly the matching rows, in the order of attempted_at |
| `Resend.ItemsAnswerOriginals` | internal/usecase/resend_callback_usecase.go:115-147 | what each item says of its original: skipped, queued or neither |
| `Resend.EnqueuesExactlyTheTasks` | internal/usecase/resend_callback_usecase.go:140-147 | one task per queued item, in the order of the originals, and no other |
| `Resend.Deliveries.DispatchNotification` | internal/usecase/notification_dispatch.go:25-71 | row before enqueue; the row is rewritten only when the enqueue failed |
| `Resend.ResendCallbackUsecase.Range` | internal/usecase/resend_callback_usecase.go:106-152 | the loop produces the items and the store of the specification |
| `Resend.SelectsExactlyTheAskedFor` | internal/infrastructure/database/va_repository.go:889-910 | a range selects every automatic row of the window, of the number asked for whatever its padding, and of the statuses asked for, as often as it is stored, and no other |
| `ShellQuote.CommandSplitsBack` | internal/adapter/gateway/snap/curl_log.go:72-101 | the shell splits the logged command back into exactly the intended arguments, for every NUL-free URL, header and body and a plain method word |
| `ShellQuote.QuoteReads` | internal/adapter/gateway/snap/curl_log.go:106-108 | a quoted string is read as one word with the original contents |
| `ShellQuote.CurlCommand` | internal/adapter/gateway/snap/curl_log.go:72-101 | the loop over the header names builds the specified command |
| `ShellQuote.CredentialNeverPrinted` | internal/adapter/gateway/snap/curl_log.go:25-31 | the command does not depend on the Authorization value |
| `ShellQuote.PlaceholderIsNotExpanded` | internal/adapter/gateway/snap/curl_log.go:86-94 | among any header names and with any body, an Authorization header in any case of its name reads back as the literal placeholder: the quotes keep the shell from expanding it |
| `ShellQuote.HeaderReadsBack` | internal/adapter/gateway/snap/curl_log.go:80-94 | every other header reads back under its listed name with the first value stored for it |
| `ShellQuote.CredentialInAnyCase` | internal/adapter/gateway/snap/curl_log.go:84-88 | the placeholder replaces the value under every spelling of Authorization that differs in case only, and under no other name |
| `Usecases.VAUsecase.Notify` | internal/usecase/va_usecase.go:1528-1556 | the payment callback row written, none without a URL |
| `Usecases.VAUsecase.AnnounceExpiry` | internal/usecase/va_usecase.go:1403-1432 | one automatic va.expired per number, none without a URL |
| `Usecases.VAUsecase.MarkExpiredAndNotify` | internal/usecase/va_usecase.go:1392-1433 | the number's pending row expired, announced only if a row changed |
| `Usecases.VAUsecase.MarkRegistrationExpiredAndNotify` | internal/usecase/va_usecase.go:1448-1483 | the active registration expired, announced only if it changed |
| `Usecases.VAUsecase.InquiryNoBill` | internal/usecase/va_usecase.go:362-400 | answer and tables for a no-bill number |
| `Usecases.VAUsecase.Inquiry` | internal/usecase/va_usecase.go:111-238 | answer and tables for every inquiry |
| `Usecases.VAUsecase.PaymentNoBill` | internal/usecase/va_usecase.go:410-534 | answer and tables for a payment of a no-bill number |
| `Usecases.VAUsecase.PayBilled` | internal/usecase/va_usecase.go:919-1115 | answer and tables for a payment of a billed number |
| `Usecases.VAUsecase.PayInstalment` | internal/usecase/va_usecase.go:960-1007 | the instalment branch |
| `Usecases.VAUsecase.PaySettlement` | internal/usecase/va_usecase.go:1040-1115 | the single-settlement branch |
| `Usecases.VAUsecase.Decide` | internal/usecase/va_usecase.go:816-1141 | answer and tables of the payment decision |
| `Usecases.VAUsecase.RecordPaymentFlag` | internal/usecase/va_usecase.go:776-809 | which outcome is filed under the pair |
| `Usecases.VAUsecase.Payment` | internal/usecase/va_usecase.go:697-710 | answer and tables for every payment, double flag included |
| `Usecases.MerchantVAUsecase.CreateNumbered` | internal/usecase/merchant_va_usecase.go:203-316 | registration and bill for a resolved number |
| `Usecases.MerchantVAUsecase.CreateVA` | internal/usecase/merchant_va_usecase.go:47-316 | answer and tables for every create-va |
| `Usecases.MerchantVAUsecase.DeleteVA` | internal/usecase/merchant_va_usecase.go:434-486 | answer and tables for every delete-va |
| `Usecases.ReconciliationUsecase.Settle` | internal/usecase/reconciliation_usecase.go:302-342 | settlement and callback, or none when another writer was first |
| `Usecases.ReconciliationUsecase.ReconcileRecord` | internal/usecase/reconciliation_usecase.go:152-264 | decision and audit row for one record |
| `Usecases.ReconciliationUsecase.Reconcile` | internal/usecase/reconciliation_usecase.go:120-145 | reconciliation on demand |
| `Usecases.ReconciliationUsecase.Sweep` | internal/usecase/reconciliation_usecase.go:89-117 | the loop over the candidates equals the specified sweep, settled count included |
| `Repository.VARepository.FindVAInstalment` | internal/infrastructure/database/va_repository.go:1198-1223 | the instalment under the id |
| `Repository.VARepository.UpdateVAStatus` | internal/infrastructure/database/va_repository.go:647-662 | conditional on status 03; false when no row changed |
| `Repository.VARepository.UpdateVAAccountStatus` | internal/infrastructure/database/va_repository.go:1412-1426 | conditional on ACTIVE; false when no row changed |
| `Repository.VARepository.SaveInquiry` | internal/infrastructure/database/va_repository.go:110-185 | insert, or reopen the row of the key; refused when a value does not fit its column |
| `Repository.VARepository.SavePayment` | internal/infrastructure/database/va_repository.go:274-368 | settles the row of the key |
| `Repository.VARepository.SaveVAPayment` | internal/infrastructure/database/va_repository.go:1225-1283 | adds the instalment once and recomputes the row |
| `Repository.VARepository.SaveNoBillPayment` | internal/infrastructure/database/va_repository.go:1439-1507 | plain insert, refused on a repeated id |
| `Repository.VARepository.RecordPaymentFlag` | internal/infrastructure/database/va_repository.go:1562-1609 | first outcome wins |
| `Repository.VARepository.SaveVAAccount` | internal/infrastructure/database/va_repository.go:1336-1381 | upsert on the number, billing class kept; refused when a value does not fit its column or the customer is taken |
| `Repository.VARepository.SettlePendingFromVendor` | internal/infrastructure/database/va_repository.go:1927-1956 | settles the pending rows of the number |
| `Tables.FindKey` | internal/infrastructure/database/va_repository.go:188-237 | the row holding the key, none exactly when no row does |
| `Tables.FindPaid` | internal/infrastructure/database/va_repository.go:416-421 | a row settled under the id, none exactly when no row is |
| `Tables.Best` | internal/infrastructure/database/va_repository.go:691-725 | the newest payable row of the number, else its newest row, else none |
| `Tables.UpdateVAStatus` | internal/infrastructure/database/va_repository.go:647-662 | exactly the pending rows of the number change status |
| `Tables.SettlePending` | internal/infrastructure/database/va_repository.go:1927-1956 | exactly the pending rows of the number are settled |
| `Tables.ListStalePending` | internal/infrastructure/database/va_repository.go:1813-1868 | at most limit pending rows, oldest first; which ones, `Reconciliation.SelectedExactlyWhen` |

## Left out

- HTTP binding, signatures, tokens, JSON, logging and the vendor's HTTP client: plumbing around the modelled state; the vendor's answers are parameters.
- Field-length, name, channel and bill-detail validation of requests, response field copying and the bilingual reason texts: single-branch facts; the reason is modelled by the table entry it comes from.
- Storage errors in ledger runs: a call that fails midway is not modelled; in `RuleCache`, `Delivery`, `Resend` and `Sequence` failing calls are.
- SavePayment and SaveVAPayment interleaved with other writers: both write without a status guard, so a payment is atomic in every run here, and `Interleaving` covers the guarded writers and CreateVA only.
- Placeholders of earlier releases (NULL, empty or trxId) and the lookup key SavePayment falls back to for them: runs start from tables created by the current CreateVA.
- Status inquiries by the bank, listings other than the settled totals, and the single-number resend: they read, or repeat one dispatch.
- ReconstructPayload: its answer is a parameter of the resend, because its match by time window promises no exact result.
- NormalizeBillDetails, SaveBillDetails and free texts: they do not bear on payability, amounts or callbacks.
- UUIDs, SHA hashes and sort.Strings: ids are drawn from a counter, `ShellQuote.CurlCommand` takes the sorted header names as a parameter.
- loggableHeaders: the same loop as the header part of `ShellQuote.CurlCommand`, without the quoting.
- Lengths in bytes: the identity and amount checks count characters, which are bytes for the ASCII values the bank sends.
- ParseFloat's wider grammar: the parser is a parameter that reads accepted amounts to the nearest float and fails on the empty string; the comparisons are stated for accepted amounts.
- RuleCache.CachedVATypeRuleProvider.SaveVATypes: does not model the INSERT, UPDATE and DELETE one by one; whatever the statement leaves in the table is its parameter.
- RuleCache.CachedVATypeRuleProvider.SavePartnerServiceIDs: as for SaveVATypes.
- Column widths outside CreateVA: the bank's requests are capped to them before the use cases run, and callbacks, audit rows and flags hold values already stored or capped.
- Holder names, e-mail addresses and phone numbers of a registration, their column widths included: stored and returned, never decided on.
- Calls of the rule provider that overlap inside one refresh: each provider call is one step.
- Idempotency record expiry within a day, and Redis errors in the interleaved protocol: assumed away as the middleware's own comments do.
