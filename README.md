# Hotel booking screens: ledger, lifecycle, availability and room status

This project models the logic of three screens of a hotel and apartment booking front end and
proves properties of it in Dafny.

- **Booking details** (`frontend/src/components/bookings/BookingDetails.tsx`). The screen summarises a booking's journal entries. It classifies
  each entry, folds the entries into the paid amount and derives the remaining balance. It types
  and describes new payments and validates the payment form. It drives the booking lifecycle:
  issue invoice, check in, check out, cancel and record payment. Modules: `Ledger` (the pure
  rules), `Lifecycle` (the status machine and the button guards) and `BookingDesk` (a class
  `Desk` whose methods are the handlers, updating the booking status, unit status, invoice,
  stored journal and the screen's own copy of the journal).
- **Unit selection step of the booking wizard** (`frontend/src/components/bookings/steps/UnitSelectionStep.tsx`). It covers the half-open overlap test,
  the available-unit filter, date validation, the contract-length clamp, yearly pricing and the
  price preview. Module `Availability` holds these pure rules. Module `UnitSelection` holds a
  class `Wizard`: its setters run the component's effects (the yearly departure sync and the
  start of the unit fetch), `LoadUnits` is the fetch's reply and `Next` is `handleNext`.
- **Room status panel** (`frontend/src/components/dashboard/RoomStatusGrid.tsx`): status styles and labels, the header counts and the tiles, in
  module `RoomStatus`.

`Text` models the JavaScript string operations the screens use: `includes`, `trim` with
the full ECMAScript white-space set, `slice`, `filter(Boolean)`, `join` and ASCII
`toUpperCase`. `Wrappers` holds `Option`.

Modelling conventions:
- Dates are integer day numbers. `isBefore` is `<` and `differenceInCalendarDays` is subtraction.
- Money is `real`.
- A JavaScript string that is absent or empty is `""`; the screens only ever test such strings for truthiness.
- A value that may be missing is an `Option`, and `x || 0` is `GetOr(0)`.
- A database call's failure is chosen by a `Fault` parameter.
- The user's answer to a confirmation prompt is the `approved` parameter.
- The journal lines that the `post_transaction` procedure writes are a parameter.
- The nightly price engine `calculateStayPrice` and date-fns `addMonths` are not part of this
  model. They are function-valued constants of `Wizard`, constrained only where a contract
  says so (`CountsNights`, `Advances`).
- Statuses and transaction types stay strings, as in the source, so unknown values flow through.

When the booking screen reloads its entries, it orders them newest first. A new entry is
therefore added at the front of the journal, and `Ledger.PaidPrepend` shows that this is
consistent with the paid amount's left fold.

A negative `annual_price` passes the yearly check (only 0 and a missing price are refused); the
model follows the code.

## Model

| member | source | states |
|---|---|---|
| Ledger.Classify | frontend/src/components/bookings/BookingDetails.tsx:40-54 | an explicit type is returned unchanged; otherwise invoice_issue exactly when an invoice reference or keyword is present, credit_note exactly when no invoice test holds but a cancellation/credit-note keyword does, advance_payment exactly when neither holds and the first line mentions Advance, payment otherwise |
| Ledger.ClassifyStable | frontend/src/components/bookings/BookingDetails.tsx:40-54 | writing the inferred type into an entry does not change its classification |
| Ledger.EntryDebit | frontend/src/components/bookings/BookingDetails.tsx:64-65 | an entry's amount is 0 without lines or with an empty list, otherwise the largest debit line (an upper bound that is attained) |
| Ledger.EntryCredit | frontend/src/components/bookings/BookingDetails.tsx:64-65 | a refund's amount is 0 without lines or with an empty list, otherwise the largest credit line (upper bound, attained); the fold as written gives -Infinity for the empty list (see Findings) |
| Ledger.EntryDebitMatchesHistory | frontend/src/components/bookings/BookingDetails.tsx:709-710 | the paid amount counts each entry at the amount the history table shows |
| Ledger.HistoryAmount | frontend/src/components/bookings/BookingDetails.tsx:709-710 | definition: the history table shows the largest debit line, or 0 when there are no lines; EntryDebitMatchesHistory relates it to the fold |
| Ledger.EntryDebitAsWritten | frontend/src/components/bookings/BookingDetails.tsx:64 | definition of the fold's debit as written: 0 without lines, -Infinity for an empty list, else the largest debit; related to EntryDebit by EntryDebitAsWrittenAgrees |
| Ledger.EntryCreditAsWritten | frontend/src/components/bookings/BookingDetails.tsx:65 | definition of the fold's credit as written, with the same treatment of line lists; related to EntryCredit by EntryDebitAsWrittenAgrees |
| Ledger.EntryDebitAsWrittenAgrees | frontend/src/components/bookings/BookingDetails.tsx:64-65 | the fold's own Math.max over debits and over credits agrees with the corrected amounts on every entry except one with an empty line list |
| Ledger.EmptyLinesAsWrittenIsNegInfinity | frontend/src/components/bookings/BookingDetails.tsx:64-65 | a payment with journal_lines = [] contributes -Infinity to the fold as written while the table shows 0 |
| Ledger.ContributionAsWritten | frontend/src/components/bookings/BookingDetails.tsx:58-77 | definition: one step of the fold as written over JavaScript numbers, a refund subtracting its credit |
| Ledger.PaidAsWritten | frontend/src/components/bookings/BookingDetails.tsx:56-78 | definition: the fold as written, whose sums follow IEEE rules for infinities and NaN |
| Ledger.ContributionAsWrittenAgrees | frontend/src/components/bookings/BookingDetails.tsx:58-77 | an entry with lines that are not an empty list contributes the same finite amount to the fold as written and to the corrected fold |
| Ledger.PaidAsWrittenAgrees | frontend/src/components/bookings/BookingDetails.tsx:56-78 | when no entry has an empty line list, the fold as written computes exactly the corrected paid amount |
| Ledger.EmptyRefundAsWrittenIsPosInfinity | frontend/src/components/bookings/BookingDetails.tsx:65-74 | a refund with journal_lines = [] makes the paid amount as written +Infinity, where the corrected amount is 0 |
| Ledger.EmptyPaymentAndRefundAsWrittenIsNaN | frontend/src/components/bookings/BookingDetails.tsx:64-74 | an empty-lined payment followed by an empty-lined refund leaves the paid amount as written at NaN, where the corrected amount is 0 |
| Ledger.Contribution | frontend/src/components/bookings/BookingDetails.tsx:58-77 | definition: invoice issues add 0, payments and advance payments their debit, refunds minus their credit, everything else 0; PaidIsReceivedMinusRefunded sums it up |
| Ledger.Paid | frontend/src/components/bookings/BookingDetails.tsx:56-78 | definition: the left fold of Contribution over the entries from 0; PaidPrepend and PaidIsReceivedMinusRefunded state its properties |
| Ledger.Received | frontend/src/components/bookings/BookingDetails.tsx:67-68 | definition: the sum of the debit amounts of payment and advance-payment entries |
| Ledger.Refunded | frontend/src/components/bookings/BookingDetails.tsx:69-74 | definition: the sum of the credit amounts of refund entries |
| Ledger.PaidPrepend | frontend/src/components/bookings/BookingDetails.tsx:56-78 | prepending an entry adds its contribution to the left-fold paid amount |
| Ledger.PaidIsReceivedMinusRefunded | frontend/src/components/bookings/BookingDetails.tsx:56-78 | paid = sum of payment and advance-payment debits minus sum of refund credits; invoice issues, credit notes and other types count 0 |
| Ledger.PaidIgnoresNonCash | frontend/src/components/bookings/BookingDetails.tsx:60-77 | a journal with no payment, advance or refund entries has paid amount 0 |
| Ledger.NoCashReceived | frontend/src/components/bookings/BookingDetails.tsx:67-76 | with no payment, advance or refund entries nothing is received and nothing refunded |
| Ledger.Remaining | frontend/src/components/bookings/BookingDetails.tsx:37-80 | remaining = (total_price or 0) minus receipts plus refunds |
| Ledger.PanelShowsExactlyOne | frontend/src/components/bookings/BookingDetails.tsx:795-812 | the pay button shows exactly while the money kept (received less refunded) is short of the total, the fully-paid banner exactly once it covers it, and never both |
| Ledger.SettlingPaymentShowsBanner | frontend/src/components/bookings/BookingDetails.tsx:795-812 | paying exactly the pre-filled remaining amount brings remaining to 0, so the banner replaces the button |
| Ledger.RemainingAsWritten | frontend/src/components/bookings/BookingDetails.tsx:80 | definition: the total less the paid amount as the fold writes it, in JavaScript numbers |
| Ledger.ShowsPayButtonAsWritten | frontend/src/components/bookings/BookingDetails.tsx:795-806 | definition: the screen's `> 0` test on the as-written balance, false for NaN |
| Ledger.ShowsPaidBannerAsWritten | frontend/src/components/bookings/BookingDetails.tsx:808-812 | definition: the screen's `<= 0` test on the as-written balance, false for NaN |
| Ledger.PanelAsWrittenAgrees | frontend/src/components/bookings/BookingDetails.tsx:795-812 | without empty line lists the as-written balance is the corrected one and the screen shows the same panel |
| Ledger.PanelAsWrittenWithEmptyLines | frontend/src/components/bookings/BookingDetails.tsx:795-812 | an empty-lined refund shows the fully-paid banner on an unpaid booking; an empty-lined payment shows the pay button on a booking with nothing owed; both together show neither panel |
| Ledger.HasInvoiceIssue | frontend/src/components/bookings/BookingDetails.tsx:404 | true exactly when some entry classifies as invoice_issue |
| Ledger.NewPaymentType | frontend/src/components/bookings/BookingDetails.tsx:404-406 | payment if and only if some entry classifies as invoice_issue, advance_payment if and only if none does |
| Ledger.DefaultDescription | frontend/src/components/bookings/BookingDetails.tsx:412 | the default description is never empty |
| Ledger.PaymentDescription | frontend/src/components/bookings/BookingDetails.tsx:409-412 | without a reference: the trimmed description, or the type's default when it is blank; with one: "(Ref: r)" alone after a blank description, else the description without leading spaces, a space and the tag; never empty |
| Ledger.CheckPaymentForm | frontend/src/components/bookings/BookingDetails.tsx:373-381 | accepted exactly when an amount and a payment method are entered; a missing amount is reported first, then a missing method |
| Ledger.InvoiceNumber | frontend/src/components/bookings/BookingDetails.tsx:104 | "INV-" followed by the booking number, or when there is none by the first eight characters of the booking id upper-cased |
| Ledger.Issue | frontend/src/components/bookings/BookingDetails.tsx:98-130 | definition: a missing invoice becomes a new posted one, a draft is posted, any other invoice is unchanged; IssueKeepsIdentity, IssuePosts and IssueIdempotent state its properties |
| Ledger.ShowsIssueButton | frontend/src/components/bookings/BookingDetails.tsx:570-588 | definition: the issue-invoice button is shown only while the booking has no invoice |
| Ledger.IssueKeepsIdentity | frontend/src/components/bookings/BookingDetails.tsx:119-130 | issuing an existing invoice keeps its id and number |
| Ledger.IssuePosts | frontend/src/components/bookings/BookingDetails.tsx:98-130 | a missing or draft invoice ends up posted, a posted one unchanged, any other status left alone |
| Ledger.IssueIdempotent | frontend/src/components/bookings/BookingDetails.tsx:98-130 | issuing an already issued invoice changes nothing |
| Ledger.HasInvoiceTxn | frontend/src/components/bookings/BookingDetails.tsx:227-230 | the guard holds exactly when some entry references the invoice and classifies as invoice_issue, i.e. the count of such entries is positive |
| Ledger.InvoiceIssueCountPrepend | frontend/src/components/bookings/BookingDetails.tsx:227-230 | prepending an entry raises an invoice's posting count by one exactly when the entry posts that invoice |
| Ledger.PostInvoiceKeepsPostedOnce | frontend/src/components/bookings/BookingDetails.tsx:232-246 | posting an invoice's issue only when the guard finds none keeps every invoice posted at most once |
| Ledger.PostOtherKeepsPostedOnce | frontend/src/components/bookings/BookingDetails.tsx:414-423 | recording a payment entry keeps every invoice posted at most once |
| Ledger.PostPaymentKeepsPostedOnce | frontend/src/components/bookings/BookingDetails.tsx:404-423 | a payment entry typed by NewPaymentType never posts an invoice, so every invoice stays posted at most once |
| Ledger.PostInvoiceKeepsPaid | frontend/src/components/bookings/BookingDetails.tsx:61 | posting an invoice's issue changes neither the paid amount nor the balance |
| Ledger.PostPaymentRaisesPaid | frontend/src/components/bookings/BookingDetails.tsx:67-80 | a recorded payment raises the paid amount by its debit and lowers the balance by the same amount |
| Lifecycle.OfferedFollowsLifecycle | frontend/src/components/bookings/BookingDetails.tsx:537-567 | every action the buttons offer keeps the status or follows pending→confirmed, confirmed→checked_in, checked_in→checked_out, or an open status→cancelled |
| Lifecycle.UnitChangesOnlyAtStay | frontend/src/components/bookings/BookingDetails.tsx:249-259 | only check-in and check-out change the unit's status |
| Lifecycle.RunNeverGoesBack | frontend/src/components/bookings/BookingDetails.tsx:537-567 | a run of offered actions never lowers the lifecycle rank and never leaves checked_out or cancelled |
| Lifecycle.CheckInNeedsDeposit | frontend/src/components/bookings/BookingDetails.tsx:448-456 | without a payment a pending booking can only stay pending or be cancelled, never be checked in |
| Lifecycle.Offered | frontend/src/components/bookings/BookingDetails.tsx:537-567 | definition: cancel is offered for confirmed, pending_deposit and checked_in bookings, check-in for confirmed, check-out for checked_in, a payment always; OfferedFollowsLifecycle states where they lead |
| Lifecycle.StatusAfter | frontend/src/components/bookings/BookingDetails.tsx:448-456 | definition: the status each action writes (check-in at lines 248-251, check-out at 297-302, cancellation through the procedure at 353-358), a payment confirming a pending booking only for a positive amount; OfferedFollowsLifecycle and RunNeverGoesBack state its properties |
| Lifecycle.UnitStatusAfter | frontend/src/components/bookings/BookingDetails.tsx:256-306 | definition: check-in makes the unit occupied, check-out cleaning, other actions leave it; UnitChangesOnlyAtStay states it |
| BookingDesk.Desk.constructor | frontend/src/components/bookings/BookingDetails.tsx:21-24 | the screen opens with its copy of the entries equal to the stored journal |
| BookingDesk.Desk.PaidAmount | frontend/src/components/bookings/BookingDetails.tsx:56-78 | definition: the paid amount computed from the screen's copy of the entries; IssueInvoice and SubmitPayment state how they change it |
| BookingDesk.Desk.RemainingAmount | frontend/src/components/bookings/BookingDetails.tsx:80 | definition: the balance computed from the screen's copy of the entries |
| BookingDesk.Desk.Reload | frontend/src/components/bookings/BookingDetails.tsx:82-86 | after a reload the screen's entries are the stored journal |
| BookingDesk.Desk.IssueInvoice | frontend/src/components/bookings/BookingDetails.tsx:88-179 | when declined or the invoice write fails nothing changes; otherwise the invoice becomes Issue(invoice); when the procedure succeeds one invoice_issue entry for it is prepended, the screen reloads, the journal holds the invoice's posting, and paid amount and balance are those of the old journal; started where the screen shows the button, which lines 570-588 render only while there is no invoice, every invoice stays posted once |
| BookingDesk.Desk.CheckInWith | frontend/src/components/bookings/BookingDetails.tsx:181-287 | the whole new state for each failure point: the invoice issued, the invoice_issue entry posted only when the given view has none for it, the booking checked_in and the unit occupied (unless its own write fails), and a reload only on success |
| BookingDesk.Desk.CheckInAsWritten | frontend/src/components/bookings/BookingDetails.tsx:225-246 | check-in with the guard reading the screen's copy of the entries, stated as the full new state |
| BookingDesk.Desk.CheckIn | frontend/src/components/bookings/BookingDetails.tsx:181-287 | check-in with the guard reading the stored journal: same state changes, never a second posting (PostedOnce preserved), and a successful check-in leaves the invoice posted in the journal |
| BookingDesk.Desk.CheckOut | frontend/src/components/bookings/BookingDetails.tsx:289-346 | on approval and a successful booking write the booking is checked_out and the unit cleaning (unless its write fails); otherwise nothing changes |
| BookingDesk.Desk.CancelBooking | frontend/src/components/bookings/BookingDetails.tsx:348-367 | on success the booking is cancelled and its invoice and journal entries are archived; on failure nothing changes |
| BookingDesk.Desk.SubmitPayment | frontend/src/components/bookings/BookingDetails.tsx:370-513 | a rejected form or a failed period check or post changes nothing; otherwise exactly one entry is prepended, typed by NewPaymentType, described by PaymentDescription, a pending booking with a positive amount becomes confirmed, the paid amount rises and the balance falls by the entry's debit, and PostedOnce is preserved |
| BookingDesk.RetriedCheckInAsWritten | frontend/src/components/bookings/BookingDetails.tsx:225-246 | a check-in that fails at the booking write, then is retried, posts the same invoice twice |
| BookingDesk.RetriedCheckIn | frontend/src/components/bookings/BookingDetails.tsx:225-246 | the same retry with the corrected guard posts it once |
| Availability.OverlapMeansSharedNight | frontend/src/components/bookings/steps/UnitSelectionStep.tsx:103-111 | for stays of at least one night, check_in < end and check_out > start holds exactly when some night belongs to both |
| Availability.Overlaps | frontend/src/components/bookings/steps/UnitSelectionStep.tsx:103-111 | definition: the booking checks in before the requested departure and checks out after the requested arrival; OverlapMeansSharedNight states what that means |
| Availability.Blocks | frontend/src/components/bookings/steps/UnitSelectionStep.tsx:109-111 | definition: the booking is confirmed, checked in or pending a deposit and overlaps the stay |
| Availability.IsCandidate | frontend/src/components/bookings/steps/UnitSelectionStep.tsx:89-94 | definition: the unit has the requested type and status available |
| Availability.BookedIds | frontend/src/components/bookings/steps/UnitSelectionStep.tsx:103-116 | definition: the unit ids of blocking bookings on units of the type; BookedIdsAreBlockedUnits characterises it |
| Availability.AvailableUnits | frontend/src/components/bookings/steps/UnitSelectionStep.tsx:88-119 | definition: the filter as written, an empty candidate list short-circuiting; AvailableUnitsAreFree characterises it |
| Availability.FreeUnits | frontend/src/components/bookings/steps/UnitSelectionStep.tsx:88-119 | definition: the reference filter, unit by unit; FreeUnitsSpec characterises it |
| Availability.FinishedBookingsNeverBlock | frontend/src/components/bookings/steps/UnitSelectionStep.tsx:109 | cancelled and checked-out bookings never block |
| Availability.OverlapBoundaries | frontend/src/components/bookings/steps/UnitSelectionStep.tsx:110-111 | a confirmed booking for days 10-15 blocks 12-13 and 5-11 but not a stay starting on day 15; cancelled it blocks nothing |
| Availability.FreeUnitsSpec | frontend/src/components/bookings/steps/UnitSelectionStep.tsx:115-117 | the reference filter keeps, in order, exactly the candidates that no holding booking meets |
| Availability.BookedIdsAreBlockedUnits | frontend/src/components/bookings/steps/UnitSelectionStep.tsx:105-116 | for a unit of the requested type, its id is among the booked ids exactly when one of its bookings blocks the stay; the join on unit type changes nothing |
| Availability.WithoutBookedIsFree | frontend/src/components/bookings/steps/UnitSelectionStep.tsx:88-117 | removing the booked ids from the candidates equals the reference filter |
| Availability.WithoutIdsAppend | frontend/src/components/bookings/steps/UnitSelectionStep.tsx:117 | removing ids distributes over concatenation |
| Availability.AvailableUnitsAreFree | frontend/src/components/bookings/steps/UnitSelectionStep.tsx:88-119 | the offered units are an order-preserving subsequence of the unit table, and a unit is offered exactly when it has the type, status available and no blocking booking |
| Availability.CheckStay | frontend/src/components/bookings/steps/UnitSelectionStep.tsx:136-140 | a stay is accepted exactly when the departure is at least one day after the arrival |
| Availability.ClampMonths | frontend/src/components/bookings/steps/UnitSelectionStep.tsx:301 | the contract length is always at least 1, equals the typed number when that is at least 1, and is 1 for 0, negatives or text that is not a number |
| Availability.YearlyTotal | frontend/src/components/bookings/steps/UnitSelectionStep.tsx:151-153 | total × 12 = annual price × months |
| Availability.YearlyCalculation | frontend/src/components/bookings/steps/UnitSelectionStep.tsx:151-164 | base price is the annual price, nights the day difference, one breakdown entry on the arrival day carrying the whole total, breakdown sum equal to the total |
| Availability.YearlyTotalExamples | frontend/src/components/bookings/steps/UnitSelectionStep.tsx:151-153 | 12 months cost the annual price; 6 months of 12000 cost 6000 |
| Availability.PriceDisplayFor | frontend/src/components/bookings/steps/UnitSelectionStep.tsx:179-227 | the yearly display shows exactly in yearly mode, with the months, a monthly rate of a twelfth of the annual price, and the total or '-' exactly when it is not positive; the nightly preview shows exactly in daily mode with a stay of at least one night, its per-night figure times the nights being the engine's total, with no division by zero; the default nightly rate shows exactly in daily mode without such a stay |
| UnitSelection.Wizard.constructor | frontend/src/components/bookings/steps/UnitSelectionStep.tsx:26-45 | initial dates, mode, 12-month length and type from the initial data or today; no unit selected; the mount effects applied |
| UnitSelection.Wizard.SyncYearlyEnd | frontend/src/components/bookings/steps/UnitSelectionStep.tsx:41-45 | in yearly mode with an arrival, the departure is the arrival plus the contract length in months; nothing else changes |
| UnitSelection.Wizard.StartFetch | frontend/src/components/bookings/steps/UnitSelectionStep.tsx:76-86 | when the type or dates changed, the selection is cleared and either the list emptied (inputs missing) or a fetch started; otherwise nothing changes |
| UnitSelection.Wizard.SetMode | frontend/src/components/bookings/steps/UnitSelectionStep.tsx:243-264 | the mode is set, the yearly departure resynchronised, the unit fetch restarted when its inputs changed, the invariant kept |
| UnitSelection.Wizard.SetStartDate | frontend/src/components/bookings/steps/UnitSelectionStep.tsx:272-278 | the arrival is set, the yearly departure follows it, the fetch restarts, the invariant is kept |
| UnitSelection.Wizard.SetEndDate | frontend/src/components/bookings/steps/UnitSelectionStep.tsx:285-292 | in daily mode the departure is set and the fetch restarts |
| UnitSelection.Wizard.SetDuration | frontend/src/components/bookings/steps/UnitSelectionStep.tsx:293-303 | the length becomes ClampMonths of the input, the departure follows, the invariant is kept |
| UnitSelection.Wizard.SelectType | frontend/src/components/bookings/steps/UnitSelectionStep.tsx:315-320 | the type is set and the fetch restarts when it differs |
| UnitSelection.Wizard.SelectUnit | frontend/src/components/bookings/steps/UnitSelectionStep.tsx:391-409 | only a unit of the shown list can be selected, and it becomes the selection |
| UnitSelection.Wizard.LoadUnits | frontend/src/components/bookings/steps/UnitSelectionStep.tsx:87-124 | on success the list is exactly the free units of the type for the dates; on a query error it is kept; loading ends |
| UnitSelection.Wizard.Next | frontend/src/components/bookings/steps/UnitSelectionStep.tsx:130-177 | not ready without type, unit or dates; stops on a departure less than a day after the arrival, then on a zero annual price in yearly mode; otherwise hands on the shown unit with the yearly calculation (end = addMonths(start, months)) or the engine's; with a forward-moving addMonths yearly dates never fail the date check |
| RoomStatus.StyleOf | frontend/src/components/dashboard/RoomStatusGrid.tsx:13-51 | a known status gets its own tone and Arabic label; any other status is grey and labelled with itself, and only the available and unknown statuses get the bed icon |
| RoomStatus.StylesDistinguishStatuses | frontend/src/components/dashboard/RoomStatusGrid.tsx:13-51 | different statuses get different styles |
| RoomStatus.Count | frontend/src/components/dashboard/RoomStatusGrid.tsx:56-58 | the count is at most the number of units, equals it exactly when every status is in the set, and is 0 exactly when none is |
| RoomStatus.CountUnknown | frontend/src/components/dashboard/RoomStatusGrid.tsx:43-49 | the number of units with a status outside the four known ones is 0 exactly when all are known |
| RoomStatus.StatsOf | frontend/src/components/dashboard/RoomStatusGrid.tsx:54-59 | total is the number of units; available, occupied and not-ready (maintenance or cleaning) are the counts of those statuses, each at most the total |
| RoomStatus.StatsPartition | frontend/src/components/dashboard/RoomStatusGrid.tsx:56-58 | available + occupied + not-ready + unknown = total, so the three header counts sum to at most the total |
| RoomStatus.CountsCoverAllIffKnown | frontend/src/components/dashboard/RoomStatusGrid.tsx:56-58 | the three header counts sum to the total if and only if every status is one of the four known values |
| RoomStatus.TileOf | frontend/src/components/dashboard/RoomStatusGrid.tsx:84-114 | the tile shows the unit's number and style; its title is the guest name or else the label; an occupied unit carries the guest name or 'ضيف' |
| RoomStatus.Render | frontend/src/components/dashboard/RoomStatusGrid.tsx:77-119 | the header counts are StatsOf the units; no units gives the empty state; otherwise one tile per unit, in order, each exactly TileOf that unit and so keyed by its id |
| Text.Contains | frontend/src/components/bookings/BookingDetails.tsx:44-53 | true exactly when the substring occurs at some index |
| Text.Trim | frontend/src/components/bookings/BookingDetails.tsx:412 | the result is no longer than the input, has white space at neither end, and is empty exactly when the input is all white space |
| Text.TrimCutsOnlySpace | frontend/src/components/bookings/BookingDetails.tsx:412 | trimming keeps the slice of the input that starts after its leading white space, and everything cut off before and after that slice is white space |
| Text.Upper | frontend/src/components/bookings/BookingDetails.tsx:104 | definition: ASCII letters upper-cased, every other character kept |
| Text.Take | frontend/src/components/bookings/BookingDetails.tsx:104 | the first n characters, or the whole string when it is shorter |
| Text.NonEmpty | frontend/src/components/bookings/BookingDetails.tsx:409-412 | keeps exactly the non-empty parts, never more parts than given, and a list without empty parts whole |
| Text.NonEmptyAppend | frontend/src/components/bookings/BookingDetails.tsx:409-412 | the filter works piece by piece, so it keeps the parts in their order |
| Text.Join | frontend/src/components/bookings/BookingDetails.tsx:412 | definition: the parts with the separator between neighbours; JoinTwo states the two-part case the description uses |

## Left out

- Rendering, CSS classes, icons beyond their identity, and the WhatsApp and mail links: presentation only.
- The users' answers to `confirm`, and which `alert` shows: the answer is the `approved` parameter, and an alert changes no state.
- `system_events` logging: best effort, it catches its own errors and changes no modelled state.
- The row inserted into `payments` after a payment is posted: its error is only logged, and it does not feed back into the screen.
- The `payment_settled` event check: it reads a stale closure value of the remaining amount.
- The database procedures `post_transaction` and `cancel_booking_fully` are not part of this model. The lines the first one writes are a parameter. The second one is modelled as the effect its confirmation prompt announces: the booking is cancelled, and its journal entries and invoice are archived, so the journal and invoice become empty.
- BookingDesk.Desk.IssueInvoice: the id of a newly inserted invoice row is required to be one no stored entry refers to, as the database generates it; an id collision is not modelled.
- BookingDesk.Desk.SubmitPayment: the amount is the parsed number; `parseFloat` of the text, the accounting-period query's date range and the payment date are not modelled.
- The fields of the invoice other than id, number and status (subtotal, tax, discount, extras, dates): they are copied from the booking and never read again by these screens.
- Network failures of the reload queries: the reloads are modelled as succeeding, since their errors are ignored.
- Concurrent handlers, and replies to the unit fetch arriving out of order: `LoadUnits` is the reply to the latest fetch. The availability list is only a pre-check.
- The loading of unit types and pricing rules when the step opens: the rules are a constructor parameter.
- `calculateStayPrice` and the contents of pricing rules: the engine is a parameter. Its only stated property is `CountsNights`, its night count.
- `addMonths` and `parseISO`: calendar arithmetic is a parameter on day numbers.
- Math.round, toFixed and toLocaleString: display formatting, so the per-night and monthly figures are exact reals.
- JavaScript floating point: money is `real`; only the infinities and NaN that the paid-amount fold can produce are modelled, in `Ledger.Extended`.
- Text.Upper: only ASCII letters are upper-cased; booking ids are hexadecimal UUIDs.
- The server code under `backend/`: Express routes and the database client, with no logic of the screens.

## Findings

| source | as written | input that shows it | evidently intended | confidence | as-written member | corrected member |
|---|---|---|---|---|---|---|
| frontend/src/components/bookings/BookingDetails.tsx:64-74 | `Math.max(...(t.journal_lines?.map(...) \|\| [0]))` replaces only a missing line list by [0]; an empty list is spread as no arguments and yields -Infinity, for the debit and for the credit alike | a payment entry with `journal_lines: []` makes the paid amount -Infinity; a refund with `journal_lines: []` makes it +Infinity (its -Infinity credit is subtracted); both together make it NaN. On screen: the empty refund shows "fully paid" on an unpaid booking, the empty payment a pay button pre-filled with Infinity, and both together neither panel | count the entry as 0, as the history table does at lines 709-710 | medium, not executed | Ledger.EntryDebitAsWritten, Ledger.EntryCreditAsWritten, Ledger.PaidAsWritten, Ledger.EmptyLinesAsWrittenIsNegInfinity, Ledger.EmptyRefundAsWrittenIsPosInfinity, Ledger.EmptyPaymentAndRefundAsWrittenIsNaN, Ledger.PanelAsWrittenWithEmptyLines | Ledger.EntryDebit, Ledger.EntryCredit, Ledger.Paid, Ledger.EntryDebitMatchesHistory, Ledger.PaidAsWrittenAgrees, Ledger.PanelAsWrittenAgrees, Ledger.PanelShowsExactlyOne |
| frontend/src/components/bookings/BookingDetails.tsx:227-232 | the check-in guard looks for an existing invoice_issue entry in the screen's copy of the entries, which is reloaded only after a successful check-in | check-in of a confirmed booking without an invoice where the booking status update fails after the invoice was posted, then retried: the invoice is posted twice | never post an invoice's issue twice: look the entry up in the stored journal | medium, not executed | BookingDesk.Desk.CheckInAsWritten, BookingDesk.RetriedCheckInAsWritten | BookingDesk.Desk.CheckIn, BookingDesk.RetriedCheckIn |
