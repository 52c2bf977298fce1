# Tutoring session lifecycle of galaksi-server, in Dafny

This project models the core of a tutoring back end:

- An approved order (`approveOrder`) becomes a subscription, an `Unpaid` invoice and a batch of weekly sessions (`jadwal`). The generator places them on the requested Indonesian weekdays (`minggu` … `sabtu`).
- Attendance is two-phase. A session goes `Absent → PresentRequest → Present` (`requestPresentJadwal`, `confirmPresentJadwal`).
- Each confirmation credits the tutor's wallet one `honorPrice` and counts the subscription down. The confirmation that reaches zero renews the subscription: honoraria per tutor, an optional revenue share (`proshare`) for the student's partner (`mitra`), a new invoice and a new batch.
- Sessions can be moved, or handed to another tutor through a request/approve/reject protocol.
- Orders are validated and receive generated ids `OR-<siswaId>-<serial>`. A change of tutor or package on an order is copied onto the linked subscription.
- Invoices, honoraria and revenue shares are paid. The reporting windows (day, Monday-to-Sunday week, calendar month) are computed around `now`.

Every workflow is a pure function from a `State` to `Result<State, Error>`. An error carries no state: that is the database transaction's rollback.

Modelling choices:

- Dates are integer day numbers, day 0 being Thursday 1 January 1970. `WeekdayOf` numbers weekdays as `Date.getDay()` does (0 = Sunday).
- A moment is a day number and a millisecond of the day. A session starts at its `date` plus its `time` in seconds.
- `now` and `today` are parameters.
- Database-generated keys come from a counter `nextKey` in the state. `WellFormed` says that every key in use lies below it.

| file | module | what |
|---|---|---|
| wrappers.dfy | Wrappers | `Option`, `Result` |
| dates.dfy | Dates | day numbers, weekdays, moments, the proleptic Gregorian calendar |
| day_mapping.dfy | DayMapping | the weekday-name table and `nextMatchingDate` |
| entities.dfy | Entities | the entities, their status enums, the state, errors |
| schedule.dfy | Schedule | `generateJadwal` |
| attendance.dfy | Attendance | request, confirmation, renewal |
| reschedule.dfy | Reschedule | the four reschedule operations |
| order_ids.dfy | OrderIds | the `beforeValidate` id generator, `parseInt`, `padStart` |
| orders.dfy | Orders | validation, creation, approval, listing, the `afterUpdate` sync |
| payments.dfy | Payments | invoice creation and payment, registration fee, payouts |
| ledger.dfy | Ledger | conservation of money across a billing cycle |
| reporting.dfy | Reporting | `getDateRange` |
| findings.dfy | Findings | the three defects below, as written and corrected |

The model follows the code as written, including where it departs from what its names suggest:

- The order payload may set `status` itself, so `createOrder` can store an order that is already `Approve` or `Reject`.
- No code path moves an order to `Reject`, and `approveOrder` does not refuse a `Reject` order.
- The invoice price does not include the registration fee. The fee appears only in the PDF arithmetic.
- Nothing ever sets a subscription's `currentOrderId` (Finding 1).
- `requestPresentJadwal` reads the student before it checks that the session exists. The model reports a missing session as `SessionNotFound`; the source fails there too, only with a different message.

## Model

| member | source | states |
|---|---|---|
| DayMapping.NameTableIsBijection | helper/dayMapping.js:2-6 | the table maps exactly the seven lower-case Indonesian names onto 0..6, one name per number |
| DayMapping.LookupDay | main/services/JadwalService.js:45-48 | a name is found, case-insensitively, iff its lower-case form is in the table, and then maps to that entry |
| DayMapping.NextMatchingDate | helper/dayMapping.js:12-24 | the result has a listed weekday; it is `start` itself when same-day is allowed and matches, otherwise strictly after `start` and at most 7 days on; no listed weekday is skipped |
| DayMapping.NextMatchingDateIsUnique | helper/dayMapping.js:16-21 | any day with the three defining properties is the search result, so the contract pins the result down completely |
| Schedule.NameTableInvertsWeekdayNames | main/services/JadwalService.js:23-31 | `WEEKDAY_STR` and the lookup table are inverse: each stored day name looks up to its own weekday and back |
| Schedule.ResolveNames | main/services/JadwalService.js:45-48 | every name resolves and the result lists their weekdays in order, or the failure names the first unknown name |
| Schedule.ResolveDays | main/services/JadwalService.js:38-48 | succeeds iff the list is non-empty and every name is known; the empty list fails with `InvalidMeetingDays` |
| Schedule.GenerateDatesAreFirstMatching | main/services/JadwalService.js:56-77 | the dates are strictly increasing, fall on listed weekdays, the first may be today, and no listed day after today is skipped: they are the first `count` matching days |
| Schedule.MondayWednesdayFromThursday | helper/dayMapping.js:12-24 | from a Thursday, `senin`/`rabu` with four sessions gives the next Monday, Wednesday, Monday, Wednesday |
| Schedule.Generate | main/services/JadwalService.js:33-79 | fails, creating nothing, iff the meeting days do not resolve (or a tutor is missing for a non-empty batch); otherwise the batch has `totalSession` `Absent` sessions copying the order's student, tutor and time, on the first matching days, each named after its weekday |
| Attendance.RequestPresent | main/services/JadwalService.js:85-131 | succeeds iff the session exists, its student exists, it is `Absent` and has started; then only that session changes, to `PresentRequest` |
| Attendance.TutorsOfTaught | main/services/JadwalService.js:219-237 | a tutor gets an honorarium entry iff the tutor taught a `Present` session of the invoice |
| Attendance.RenewalHonors | main/services/JadwalService.js:219-251 | one `Pending` honorarium per tutor who taught under the invoice, worth the tutor's session count times `honorPrice` |
| Attendance.RenewedKeepsWellFormed | main/services/JadwalService.js:208-293 | a renewal keeps every existing session and takes only fresh keys |
| Attendance.Renew | main/services/JadwalService.js:198-293 | succeeds iff the current order, its package and a schedulable batch exist; the result is the renewal's writes for a batch generated from the order |
| Attendance.ConfirmPresent | main/services/JadwalService.js:133-304 | succeeds iff every lookup succeeds and, when the counter reaches zero, the renewal can run; the tutor gets `honorPrice`; otherwise the counter drops by one; at zero the subscription renews with a fresh `Unpaid` invoice |
| Attendance.ConfirmKeepsWellFormed | main/services/JadwalService.js:133-304 | confirmation marks only the confirmed session `Present`, keeps all other sessions and takes only fresh keys |
| Attendance.ConfirmNotExhaustingCredits | main/services/JadwalService.js:188-196 | a confirmation that leaves sessions to go is exactly the credit plus the decremented counter |
| Attendance.ConfirmExhaustingRenews | main/services/JadwalService.js:198-296 | the confirmation that exhausts the counter is the credit followed by the renewal on the old package |
| Reschedule.RescheduleSession | main/services/JadwalService.js:480-496 | succeeds iff the session exists and has not started; then only its date, time and day name change, the name matching the new date |
| Reschedule.RequestTutorChange | main/services/JadwalService.js:498-510 | whatever the prior status, a session that has not started becomes `RescheduleRequest` |
| Reschedule.ApproveTutorChange | main/services/JadwalService.js:512-530 | succeeds iff session and new tutor exist, it has not started and a change is pending; then it is `Absent` under the new tutor |
| Reschedule.RejectTutorChange | main/services/JadwalService.js:532-547 | succeeds iff a change is pending on a session that has not started; then it is `Absent` under its old tutor |
| Reschedule.StartedSessionIsFrozen | main/services/JadwalService.js:480-547 | all four operations refuse a session that has started, with `PastSession` |
| Reschedule.RejectUndoesRequest | main/services/JadwalService.js:498-547 | request then reject restores an `Absent` session's state exactly |
| Reschedule.ApprovedRequestHandsOver | main/services/JadwalService.js:498-530 | request then approve changes only the session's tutor |
| Reschedule.RescheduleIsReversible | main/services/JadwalService.js:480-496 | moving a session and moving it back restores the state |
| Orders.ValidateOrderPayload | main/services/OrderService.js:27-54 | succeeds iff the student exists, the package is `Aktif`, a given tutor is `active` and `meetingDay` and `mapel` are non-empty; a missing student is reported first, an unavailable package next |
| Orders.AssignedId | main/models/OrderModel.js:49-76 | a truthy id is kept; otherwise the id is generated |
| Orders.CreateOrder | main/services/OrderService.js:59-72 | inserts exactly the new order iff the payload is valid, has a `time` and its id is free; an invalid payload fails with the validation's error, a valid one without `time` with `TimeRequired` (the NOT NULL column at main/models/OrderModel.js:26-29) |
| Orders.GeneratedIdNeverCollides | main/models/OrderModel.js:65-75 | a generated id never collides: with a `time`, creation succeeds with an id `OR-<siswaId>-<serial>`; without one it fails with `TimeRequired` |
| Orders.CheckApproval | main/services/OrderService.js:79-90 | passes iff the order exists, is not yet approved, has an `Aktif` package and an `active` tutor; a missing order is reported first, an approved one next |
| Orders.ApproveOrder | main/services/OrderService.js:75-126 | succeeds iff the checks pass and the batch can be generated; creates one subscription counting the package's sessions, one `Unpaid` invoice and the batch |
| Orders.ApproveOrderOnce | main/services/OrderService.js:79-81 | approving again fails with `AlreadyApproved`, so nothing is created twice |
| Orders.ApproveOrderKeepsWellFormed | main/services/OrderService.js:92-118 | approval adds subscription and invoice under fresh keys and keeps every session |
| Orders.GetAllOrder | main/services/OrderService.js:128-136 | `"all"` lists every order, anything else the orders whose status matches it ignoring letter case, as the column's collation compares; an empty listing is an error |
| Orders.ApproveFilterIgnoresCase | main/services/OrderService.js:129-130 | `"approve"`, `"Approve"` and `"APPROVE"` give the same listing, exactly the approved orders |
| Orders.AllIsUnionOfStatuses | main/services/OrderService.js:128-136 | the `"all"` listing is the union of the three status listings |
| Orders.SubscriptionOfOrder | main/models/OrderModel.js:83-86 | finds a subscription whose `currentOrderId` is the order, iff one exists |
| Orders.SyncSubscription | main/models/OrderModel.js:88-93 | the linked subscription takes the order's tutor and package and nothing else changes; with no link nothing changes |
| Orders.SaveOrder | main/models/OrderModel.js:79-98 | the order update stands; tutor or package changes are copied to the linked subscription; a failing sync is swallowed |
| Orders.StatusOnlySaveSkipsSync | main/models/OrderModel.js:81 | saving an approval, which changes only the status, leaves the subscriptions alone |
| OrderIds.NatToStringValue | main/models/OrderModel.js:69 | `String(n)` denotes `n` |
| OrderIds.PadStart | main/models/OrderModel.js:69 | `padStart` gives the width, keeps the string as suffix and fills with the pad |
| OrderIds.LeadingZerosValue | main/models/OrderModel.js:69 | zero padding does not change the denoted number |
| OrderIds.TrimStart | main/models/OrderModel.js:62 | `parseInt` skips exactly the leading white space |
| OrderIds.DigitPrefix | main/models/OrderModel.js:62 | the digits `parseInt` reads are the longest digit prefix |
| OrderIds.ParseInt | main/models/OrderModel.js:62 | `parseInt(…, 10)` is `NaN` for blank input and for input starting with neither digit nor sign, and negative only after a `-` |
| OrderIds.LastSegment | main/models/OrderModel.js:61-62 | `split('-').pop()` is the longest suffix without `-` |
| OrderIds.DigitsParse | main/models/OrderModel.js:62 | a string of digits parses as the number it denotes |
| OrderIds.SerialRoundTrip | main/models/OrderModel.js:59-69 | reading back the serial of a generated id gives the number it was built from |
| OrderIds.OrderIdForInjective | main/models/OrderModel.js:69 | distinct serials give distinct ids |
| OrderIds.FirstFreeSerial | main/models/OrderModel.js:68-73 | the loop stops at the first serial whose id is free, and every serial before it is taken |
| OrderIds.FreeSerialWithin | main/models/OrderModel.js:68-73 | a free serial exists within `|taken| + 1` steps, so the loop terminates |
| OrderIds.NewOrderId | main/models/OrderModel.js:49-76 | the generated id is not taken and is the first free one from the start serial on |
| OrderIds.NewOrderIdContinuesSerial | main/models/OrderModel.js:59-69 | after an order with serial `n`, the next generated serial is larger than `n` |
| Payments.InvoiceTotal | main/services/InvoiceService.js:178-179 | total minus package price is the registration fee |
| Payments.CreateInvoice | main/services/InvoiceService.js:9-31 | fails iff the package is missing; otherwise adds one `Unpaid` invoice for the given order, subscription and package, priced at the package, with no student, proof or payment date, under a fresh key |
| Payments.CreatedInvoiceCannotBePaid | main/services/InvoiceService.js:18-26 | an invoice `createInvoice` stores names no student, so paying it fails with `StudentNotFound` |
| Payments.PayInvoice | main/services/InvoiceService.js:113-144 | fails with no change when invoice or student is missing; otherwise the invoice is `Paid` with proof and date, and the student's first-purchase flag is cleared |
| Payments.PayInvoiceNeverSetsFirstPurchase | main/services/InvoiceService.js:128-131 | payment never sets a first-purchase flag |
| Payments.PaymentDropsRegistrationFee | main/services/InvoiceService.js:128-131 | after a payment the student's next invoice total carries no fee |
| Payments.PayInvoiceIdempotent | main/services/InvoiceService.js:117-136 | paying again with the same proof and moment changes nothing further |
| Payments.PayHonor | main/services/HonorService.js:5-29 | fails with no change when honorarium or tutor is missing; otherwise it is paid with the proof and the tutor's wallet loses exactly its total |
| Payments.PayHonorTwiceDebitsTwice | main/services/HonorService.js:9-21 | a second payment of the same honorarium succeeds and debits the wallet again |
| Payments.PayProshare | main/services/ProshareService.js:5-30 | fails with no change when share or partner is missing; otherwise it is paid with the proof and the partner's wallet loses exactly its total |
| Payments.PayProshareTwiceDebitsTwice | main/services/ProshareService.js:10-21 | a second payment of the same share succeeds and debits the wallet again |
| Ledger.TaughtByAfterCredit | main/services/JadwalService.js:188-193 | the credit adds the confirmed session to its tutor's confirmed sessions and changes no one else's |
| Ledger.TaughtByAfterRenew | main/services/JadwalService.js:284-293 | a renewal adds only `Absent` sessions, so no tutor's confirmed sessions change |
| Ledger.ConfirmKeepsBalance | main/services/JadwalService.js:188-193 | every tutor's wallet minus `honorPrice` per confirmed session of the invoice is the same before and after a confirmation |
| Ledger.PerSessionTotalsSum | main/services/JadwalService.js:235-251 | honoraria worth `honorPrice` per session of their tutor sum to `honorPrice` times the sessions of all those tutors |
| Ledger.HonorTotalsMatchPresentSessions | main/services/JadwalService.js:219-251 | the renewal's honoraria sum to `Present` sessions of the invoice times `honorPrice` |
| Ledger.RenewalHonorTotal | main/services/JadwalService.js:219-251 | after an exhausting confirmation, each new honorarium belongs to its tutor and is worth that tutor's confirmed sessions times `honorPrice` |
| Ledger.HonorPaymentSettlesCycle | main/services/HonorService.js:12-21 | paying a tutor's renewal honorarium leaves the wallet at its value before the confirmation less `honorPrice` per session the tutor had already been credited for: credits and payout cancel |
| Ledger.ProsharePaymentRestoresPartner | main/services/ProshareService.js:17-21 | paying the renewal's revenue share returns the partner's wallet to its value before the confirmation |
| Reporting.WeekStart | main/controllers/TransactionController.js:18-20 | the week starts on the Monday on or before the day, at most six days back |
| Reporting.GetDateRange | main/controllers/TransactionController.js:6-35 | `day`, `week` and `month` succeed and every other period fails; each window runs from 00:00:00.000 to 23:59:59.999 and contains `now`; the week runs Monday to Sunday, seven days |
| Reporting.MonthBounds | main/controllers/TransactionController.js:26-30 | the month window runs from day 1 to the month's last day (leap years included) and has `DaysInMonth` days |
| Reporting.WeekIsNowsWeek | main/controllers/TransactionController.js:17-25 | a day is in the week window iff it lies in the same Monday-to-Sunday week as `now` |
| Reporting.MonthIsNowsMonth | main/controllers/TransactionController.js:26-30 | a day is in the month window iff it lies in the same calendar month as `now` |
| Dates.DateRoundTrip | main/controllers/TransactionController.js:27-28 | converting a calendar date to its day number and back gives the date again |
| Dates.FirstOfNextMonth | main/controllers/TransactionController.js:28 | the first of the next month is a valid date one day after the month's last day, so day 0 of the next month is that last day |
| Findings.ExhaustingConfirmNeedsCurrentOrder | main/services/JadwalService.js:202-206 | a confirmation that would exhaust a subscription without a current order fails with `OrderNotFound` |
| Findings.ApprovedSubscriptionCannotRenew | main/services/OrderService.js:95-103 | the subscription an approval creates has no current order and can never renew |
| Orders.ApproveOrderIntended | main/services/OrderService.js:95-111 | the approval with `currentOrderId` and the invoice's student recorded; same checks and writes otherwise |
| Findings.IntendedSubscriptionCanRenew | main/services/OrderService.js:95-103 | with the order recorded, the renewal has everything it needs |
| Findings.FirstInvoiceCannotBePaid | main/services/OrderService.js:105-113 | the first invoice lacks its student, so paying it fails with `StudentNotFound` |
| Findings.IntendedFirstInvoiceCanBePaid | main/services/InvoiceService.js:124-125 | with the student recorded, the first invoice can be paid |
| Findings.LookupAsWritten | main/services/JadwalService.js:46-47 | the plain-object lookup also finds the inherited names `constructor` and `__proto__` |
| Findings.ResolveAsWritten | main/services/JadwalService.js:41-48 | the check refuses only empty lists and `undefined` lookups |
| Findings.InheritedNamePassesCheck | helper/dayMapping.js:19-21 | every non-empty list of inherited names (`["constructor"]`, say) passes the check, yet holds no weekday and no day ever matches it, so the search cannot stop |
| Findings.RealDays | helper/dayMapping.js:19-21 | the weekdays among the looked-up entries are exactly the `Day` entries; inherited entries contribute none |
| Findings.StopsAtRealDays | helper/dayMapping.js:19-21 | the as-written search stops on a day iff its weekday is among the real weekdays looked up |
| Findings.MixedListStopsOnRealDays | main/services/JadwalService.js:45-48 | for any list that passes the as-written check, the search stops on a day iff one of the list's real names (by the corrected lookup) names that day's weekday: inherited names are silently dropped |
| Findings.MondayAndConstructor | main/services/JadwalService.js:45-48 | `["senin", "constructor"]` passes the as-written check and stops on Mondays only, while the corrected lookup refuses it with `UnknownDayName("constructor")` |
| Findings.OwnNamesOnly | main/services/JadwalService.js:41-48 | corrected lookup refuses the inherited names, and every accepted list stops the search within a week |

## Findings

| source | as written | input that shows it | evidently intended | confidence | as-written member | corrected member |
|---|---|---|---|---|---|---|
| main/services/OrderService.js:95-103 | the approval creates the subscription without `currentOrderId`, and the renewal reads it at main/services/JadwalService.js:203-206 | any approved order: the confirmation that brings its subscription to zero | the subscription records the approved order | high, not executed | Findings.ApprovedSubscriptionCannotRenew | Findings.IntendedSubscriptionCanRenew |
| main/services/OrderService.js:105-113 | the first invoice is created without `siswaId`, and the payment looks the student up through it at main/services/InvoiceService.js:124-125 | paying the invoice of any freshly approved order | the invoice records the order's student, as the renewal's invoice creation at main/services/JadwalService.js:271-282 passes it (the invoice model declares no `siswaId` column, so as deployed no invoice keeps it; see Left out) | high, not executed | Findings.FirstInvoiceCannotBePaid | Findings.IntendedFirstInvoiceCanBePaid |
| main/services/JadwalService.js:46-47 | the weekday table is a plain object, so `constructor` and `__proto__` are found through the prototype and pass the `undefined` test | `meetingDay = ["constructor"]`: no date ever matches, and the loop at helper/dayMapping.js:19-21 never ends; `meetingDay = ["senin", "constructor"]` is accepted and schedules on Mondays only | only the table's own names resolve | medium, not executed | Findings.InheritedNamePassesCheck | Findings.OwnNamesOnly |

The renewal and payment parts of the model keep reading `currentOrderId` and `siswaId` as the source does. `Orders.ApproveOrderIntended` is the approval under which they work. `DayMapping.LookupDay` is the corrected lookup that `Schedule.Generate` uses.

## Left out

- HTTP routing, authentication, e-mail, file upload and PDF rendering are I/O and are not modelled. Only the fee arithmetic of the invoice PDF is.
- Read-only queries (`getAllJadwal`, `getJadwalBy*`, `getAllInvoices`, `getInvoiceDetails`, the transaction and dashboard services) fetch and merge rows; they change nothing.
- Database transactions, row locks and concurrency are not modelled: each workflow is atomic. `amount` in the payout services is an implicit global, which only matters under concurrency.
- The host time zone, the parsing of `` `${date}T${time}` `` and of `new Date(newDate)`, and a `meetingDay` stored as a JSON string are out of scope. Days are local day numbers, times seconds of the day.
- `toLowerCase` is modelled on ASCII letters only. Non-ASCII case mappings and non-string `meetingDay` elements are not modelled.
- `parseInt` is modelled on unbounded integers. Precision loss beyond 2^53 is not modelled.
- Package prices (`honorPrice`, `prosharePrice`) are given integers. Their `Math.round` derivation from floating-point products is not modelled.
- Wallet arithmetic is unbounded integer arithmetic.
- The single-phase `presentJadwal` is commented out in the source and is not modelled.
- Id hooks of models other than the order are not modelled: they rely on `Date.now()` and `Math.random()`.
- Fields the services write but the models do not declare are kept as the services write them. main/models/InvoiceModel.js declares no `price`, `siswaId`, `transferProof` or `paymentDate`. main/models/HonorModel.js and main/models/ProshareModel.js declare no `siswaId` or `invoiceId`. Sequelize neither stores nor reads back undeclared attributes, so as deployed none of these persists; the model follows the service code instead.
- `Orders.GetAllOrder`: string comparisons the database performs are modelled as exact equality, except the status filter, which is compared by ASCII lower-casing. Collation rules beyond letter case (trailing-space padding, accents) are not modelled. Id lookups (`findByPk`, `where: { id }`) are exact map lookups here, though the collation would also match ids differing in case.
- The Sequelize `NOT NULL` declaration on `Subscription.currentOrderId` is not enforced. The model follows the service code, which leaves the field empty.
- The latest-order query of the id hook (`findOne … ORDER BY createdAt DESC`) becomes the parameter `latest`, because it depends on database ordering.
- `Orders.SubscriptionOfOrder`: the `findOne` for a linked subscription picks the smallest key among several matches, because the database's choice is unspecified.
- `Schedule.Generate`: a session batch that needs a tutor fails when the order has none. This stands in for the `NOT NULL` column of the session table.
- `OrderIds.ParseInt`: the contract does not give the value of every parse; `OrderIds.DigitsParse` gives it for the digit strings that generated ids end in.
- `DayMapping.NextMatchingDate`: requires a non-empty weekday list; on an empty list the source's loop never ends, and its only caller refuses empty lists first.
- `DayMapping.LookupDay`: finds only the table's own names. The source's plain-object lookup also finds the inherited `constructor` and `__proto__` (Finding 3); the model uses the corrected lookup.
- `Schedule.ResolveNames`: refuses `constructor` and `__proto__`, which the source's map-and-check accepts (Finding 3).
- `Schedule.ResolveDays`: refuses every list holding `constructor` or `__proto__`, though the source accepts it. The source then loops forever on a list of only such names, and on a mixed list schedules on its real weekdays alone (`Findings.MixedListStopsOnRealDays`).
- `Schedule.Generate`: through `Schedule.ResolveDays`, fails with `UnknownDayName` on lists holding `constructor` or `__proto__`, where the source generates sessions on the list's real weekdays or never returns.
- Order operations the routes call but `OrderService.js` does not define (reject, update, delete) have no implementation to model.
