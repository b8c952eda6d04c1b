# Parking reservations: a verified model

A model, in Dafny, of the reservation, billing and payment protocol of the parking
system, and of four smaller cores around it: pricing, the search cache, the usage
forecast and the rate limiter. `dafny verify dfyconfig.toml` checks everything.

## How the protocol is modelled

Each of the three services is modelled twice.

- **As a state machine** (`PaymentMachine`, `BillingMachine`, `ReservationMachine`).
  A state holds the service's table, and for each request in flight its program
  counter and the locals it carries (the possibly stale copy of a row above all).
  Every SQL statement outside a transaction, every transaction that locks its row,
  and every gateway call is one atomic step. Steps are functions of an action that
  carries all that the code does not decide: which request moves, fresh ids, the
  clock, lookups that fail, writes that fail, writes that take effect while their
  reply is lost, gateway answers, crashes. A run is any list of actions, so a
  theorem about runs covers every interleaving of any number of requests.
- **In its own form** (`PaymentService`, `BillingService`, `ReservationService`): a
  class with the tables as fields, the repository's statements as methods, and the
  use cases as straight-line code with their retry loops and transactions. Between
  any two statements stands `Interference`, whose contract lets other requests do
  anything that requests can do. Each use case is proved to take only steps of the
  machine, so that the theorems about reachable states hold of the code. This alone
  would allow a use case to give up at once; so each is also proved to do exactly what
  `PaymentContracts`, `BillingContracts` and `ReservationContracts` write out, without
  the machines' terms: which rows it changes and how, which calls with which arguments
  it makes to the other services, and what it answers, for a request that is alone,
  whatever of its own statements fails or takes effect unnoticed, and whatever the other
  services answer. Where it matters the contracts also speak of requests that are not
  alone: who may be served, what is refunded, who wins a race on a key.

`ParkingSystem` composes the three machines: a request of the reservation service
that waits for billing or payment starts a request there, may be answered or see an
error at any time, and may crash while the request it started goes on.

Unique constraints are those of `db/migrations/000001_init.up.sql`: reservation key
(line 49), one active reservation per driver and per spot (lines 62-65), billing
reservation and key (88, 96), payment key (116). The distributed lock is an
arbitrary boolean; nothing proved here needs it.

What stands for the code, function by function:

- `internal/payment/usecase/usecase.go:33-135` is `PaymentMachine.PayStep`, `146-219`
  is `RefundStep`; `internal/payment/repository/repository.go:59-100` is `UpdateRow`
  and `UpdateRowIfStatus`; one attempt of `pkg/retry/retry.go:24-43` is `DoCharge` or
  `DoRefund`.
- `internal/billing/usecase/usecase.go:20-154` is `BillingMachine.Step`, with what the
  requests do to a record in `NewRecord`, `Applies`, `AlreadyDone` and `Modified`.
- `internal/reservation/usecase/usecase.go:100-689` is `ReservationMachine.ThreadStep`:
  `DoCreate` (153-178), `DoReadLocked` (218-239, 531-552), `DoConfirm` (262-294),
  `DoUndo` (314-339), `DoMove` (the five transactions at 350-379, 395-424, 472-498,
  615-639, 658-682) and `DoComplete` (569-593).
- `internal/billing/pricing/pricing.go:18-63` is the module `Pricing`.

## What is proved

- **Money.** In every reachable state a payment row's status tells the charges and
  refunds behind it; per idempotency key there is at most one charge and never a
  refund without one. Every unconditional UPDATE is issued by the only owner of the
  row and equals a full compare-and-set; the status check cannot be fooled by
  success-refunding-success.
- **Compensation.** A confirming transaction that finds its reservation no longer
  waiting leaves the request bound to refund exactly the payment it was answered.
- **Ownership.** Over whole runs a driver's requests touch only that driver's
  reservations and their spots.
- **Billing** is a refinement: the table of any run is the result of executing its
  committed requests atomically, one after the other.
- **Reservations.** No double booking, conservation of spots, every status change an
  edge of the transition table, at most four changes, ordered timestamps, idempotent
  creation, one active reservation per driver, and a write-back of a stale copy that
  is never stale.
- **End to end.** A completed reservation has one invoice for its own stay and one
  checkout payment over exactly that amount; a check-out is answered only once its
  invoice stands, and with that invoice; no stay of 715 days or more completes.
- **Progress.** From every reachable state each free spot can still serve a new
  reservation from creation to completion; and it is settled exactly when a
  checked-out reservation can still be completed.
- **Pricing** laws, **search cache** coherence (exactly which cached answers an update
  makes wrong) and staleness (15 seconds, a tight bound), **least squares** (the
  computed line is the unique optimum, and a trend is continued where it left off), and **rate limiting** (exactly when eviction
  of idle keys can be noticed, and the bound per window).

Some claims that one might expect are false of the code, and the model shows it:

- An invoiced total is not frozen: `InvoiceChangesAfterwards` gives the run, and
  `InvoiceIsFinalIff` the exact condition: it never changes again iff the record is
  marked overnight already.
- The documentation (`docs/services/payment.md:63-65`) describes refunds through the
  status `refunding`, but the shipped schema's CHECK on `payments.status` (line 117 of
  the migration) does not list it, so every refund fails at its status lock:
  `ShippedSchemaNeverRefunds`. Everything else about refunds is proved for a schema
  with that status as well.
- "Confirmed, or completed, means charged." A failed charge is not an error: when the
  retry loop gives up, that is, after three declined attempts or a cancellation
  (`internal/payment/usecase/usecase.go:78-110`), a payment marked failed is the answer
  to this request or to the next one under its key, and the caller keeps only its id
  (`internal/reservation/gateway/grpc/payment.go:52`). `CompletedWithoutCharge` is a run
  in which a reservation is confirmed and completed and the gateway never accepts
  anything. `ConfirmedMoney` and `CompletedMoney` say exactly when the claim holds, for
  the one booking payment and the one checkout payment of every reservation: it is
  charged, once and in every continuation, iff one of its at most three attempts was
  accepted; once it is no longer pending, iff the retry loop did not give up, and iff its
  status is success, refunding or refunded; and it never will be charged iff it failed. A
  pending payment has at most one charge, and its status cannot tell which:
  `PendingTellsNothing` has a run for either.
- "Every checked-out reservation can be completed." Check-out commits before its fee is
  computed: from every state with a checked-in reservation a lost call strands it, with
  its spot, for good (`CheckOutCanStrand`). `CompletionPossibleIff` is the exact condition.
- Invalidation does not keep the whole cache coherent: the key of the unfiltered
  availability query is never deleted. `UpsertKeepsExactly` and `WhatGoesStale` say
  which cached answers survive which update. The service's own handler refuses the
  empty filter (`internal/search/handler/grpc/handler.go:30-32`).

## Model

| member | source | states |
|---|---|---|
| PaymentTheorems.MoneySafety | internal/payment/usecase/usecase.go:33-219 | in every reachable state, pending means at most one charge and no refund, failed none at all, success one charge and no refund, refunding one charge and at most one refund, refunded one of each |
| PaymentTheorems.OneChargePerKey | internal/payment/usecase/usecase.go:33-135 | per idempotency key at most one row and one charge, and never more refunds than charges, in every run |
| PaymentTheorems.ReturnedPaymentIsTrue | internal/payment/usecase/usecase.go:33-135 | a payment handed to a caller as paid stands for exactly one charge of its amount, one handed out as failed for none |
| PaymentTheorems.SamePaymentForKey | internal/payment/usecase/usecase.go:34-64 | any two answered payments under one key are the same payment with the same amount |
| PaymentTheorems.BlindWritesAreCompareAndSet | internal/payment/repository/repository.go:59-77 | each unconditional update comes from the row's only owner, finds the version that owner last wrote, and equals a compare-and-set on the entire row |
| PaymentTheorems.StatusCheckSuffices | internal/payment/repository/repository.go:81-100 | when the status check passes, the row differs from the copy read earlier at most in its time stamp and nobody owns it, so nothing is overwritten, success-refunding-success included |
| PaymentTheorems.StepEvolves | internal/payment/repository/repository.go:59-100 | one step changes a row only along pending-success, pending-failed, success-refunding, refunding-success, refunding-refunded, and never its key, amount, or a reference once set |
| PaymentTheorems.PaidIsFrozen | internal/payment/usecase/usecase.go:112-118 | over any run rows are never lost, reference and payment time of a paid row never change, failed and refunded are final |
| PaymentTheorems.ShippedSchemaNeverRefunds | db/migrations/000001_init.up.sql:117 | under the shipped status constraint no run ever refunds anything |
| PaymentInvariant.StepInv | internal/payment/usecase/usecase.go:33-219 | every step keeps the ownership invariant: unique keys, at most one charge per row, one owner per row whose copy is the row itself |
| PaymentService.Service.ProcessPayment | internal/payment/usecase/usecase.go:33-135 | only machine steps, whatever interleaves; alone, a failed lookup ends it, a known key answers with its payment and changes nothing, a new key makes one row: charged once if one of three attempts is accepted, else failed without a charge, and answered unless the update's outcome is unknown or the request cancelled; if nothing fails it is answered whatever interleaves |
| PaymentService.Service.RefundPayment | internal/payment/usecase/usecase.go:146-219 | only machine steps, whatever interleaves; alone, a paid payment is refunded once, also if the last update fails, or given its status back, and any other is refused unchanged; an answered refund without a key is of that payment and has happened, whatever interleaves |
| PaymentService.Service.ChargeWithRetry | pkg/retry/retry.go:24-43 | at most three attempts, stopping at the first accepted one, which leaves exactly one ledger entry, or at an interruption |
| PaymentService.Service.CreatePayment | internal/payment/repository/repository.go:30-45 | inserts unless the key is taken, and reports a conflict exactly then |
| PaymentService.Service.UpdatePaymentWithStatusCheck | internal/payment/repository/repository.go:81-100 | writes, and reports success, only if the row still has the expected status |
| PaymentService.Service.CheckKey | pkg/idempotency/idempotency.go:18-27 | a found record ends the request with that record, a failed lookup ends it with an error, and only a miss lets it go on |
| BillingTheorems.RefinesAtomicRequests | internal/billing/repository/repository.go:73-100 | in any run the table equals the atomic execution of the committed requests in commit order, and each version counts the updates committed to its record |
| BillingTheorems.OnlyCommitsChangeTheTable | internal/billing/usecase/usecase.go:63-154 | each step either logs exactly the moving request's commit and changes the table, or changes neither |
| BillingInvariant.MatchingVersionIsAtomic | internal/billing/repository/repository.go:73-100 | a matching version means that the record is still the one read, so writing the changed copy back is the atomic request |
| BillingTheorems.RecordsBalance | internal/billing/usecase/usecase.go:37-47 | the total is always the sum of the three fees, and a record is marked overnight iff its overnight fee is positive |
| BillingTheorems.OncePerReservation | internal/billing/usecase/usecase.go:20-120 | one record per reservation, at most one CalculateFee and one GenerateInvoice ever take effect, an invoice only after a calculation |
| BillingTheorems.StepEvolves | internal/billing/usecase/usecase.go:63-154 | one step moves a record's status at most one stage forward, its version at most one up, and never its identity or booking fee |
| BillingTheorems.InvoicedTotalChangesIff | internal/billing/usecase/usecase.go:122-154 | a step changes an invoiced record iff it is an effective ApplyOvernightFee that read the record as it still is, not yet marked overnight; it then carries the amount asked for, or one night's fee if that is not positive, and the total with it |
| BillingTheorems.InvoiceChangesAsAsked | internal/billing/usecase/usecase.go:134-149 | over any run an invoiced record is unchanged, or was not marked overnight and carries the fee that one ApplyOvernightFee committed in that run asked for |
| BillingTheorems.MismatchReadsAgain | internal/billing/usecase/usecase.go:64-95 | in every run a write whose version no longer matches changes nothing and is tried again from the read, at most twice, and not at all for an invoice |
| BillingTheorems.OvernightInvoiceIsFrozen | internal/billing/usecase/usecase.go:130-132 | an invoiced record marked overnight never changes again |
| BillingTheorems.InvoiceIsFinalIff | internal/billing/usecase/usecase.go:130-142 | in every reachable state an invoiced record, and its total, is the same in every continuation iff it is marked overnight |
| BillingTheorems.InvoiceChangesAfterwards | internal/billing/usecase/usecase.go:122-154 | from any state with an invoice not marked overnight, three steps change its total by the nightly fee, in 64-bit arithmetic |
| BillingTheorems.AnswersAreVersions | internal/billing/usecase/usecase.go:20-154 | whatever a request returns is a version of the stored record, and the record itself while the versions agree |
| BillingService.Service.StartBilling | internal/billing/usecase/usecase.go:20-61 | only machine steps; alone it answers with the record under its key or else for its reservation, and creates a pending one of the given fee only if there is neither; if nothing fails it is refused only for a key that another reservation has taken, whatever interleaves |
| BillingService.Service.CalculateFee | internal/billing/usecase/usecase.go:63-96 | only machine steps, at most three attempts; alone, a pending record gets the fees of the stay and their total, any other status is refused unchanged |
| BillingService.Service.GenerateInvoice | internal/billing/usecase/usecase.go:98-120 | only machine steps; alone, a calculated record becomes invoiced, an invoiced one is returned as it is, a pending one is refused |
| BillingService.Service.ApplyOvernightFee | internal/billing/usecase/usecase.go:122-154 | only machine steps, at most three attempts; alone, a record not marked overnight, whatever its status, gets the amount if positive and 20000 otherwise, the total of the three fees, and the mark, and keeps all else; a marked one is returned as it is |
| BillingService.Service.UpdateBillingRecord | internal/billing/repository/repository.go:73-100 | writes iff id and version match; the in-memory version goes up on success and is set back on any failure |
| ReservationTheorems.NoDoubleBooking | internal/reservation/usecase/usecase.go:107-178 | in every reachable state, whatever the lock answered: available iff nobody holds the spot, reserved iff exactly one reservation waits or is confirmed on it, occupied iff exactly one is checked in or out |
| ReservationTheorems.VehicleTypesMatch | internal/reservation/usecase/usecase.go:109-161 | every reservation is for an existing spot of its own vehicle type |
| ReservationTheorems.SpotsAreConserved | internal/reservation/usecase/usecase.go:169-682 | the number of spots not available equals the number of reservations in the four active statuses |
| ReservationTheorems.EveryChangeIsAnEdge | internal/reservation/model/model.go:56-76 | every step leaves a row alone or moves it along an allowed transition, also in the three writers that do not consult the table |
| ReservationTheorems.AtMostFourChanges | internal/reservation/model/model.go:54-62 | a reservation changes status at most four times in a run, terminal rows never change at all |
| ReservationTheorems.TimestampsInOrder | internal/reservation/usecase/usecase.go:281-493 | confirmed, checked-in and checked-out times are in order wherever set, and the expiry is one hour after confirmation |
| ReservationTheorems.CheckOutGuardUnreachable | internal/reservation/usecase/usecase.go:501-503 | the transaction of a check-out on a checked-in row of the caller goes on to the fee with both timestamps set, on any other it ends; so the guard against missing timestamps never fires |
| ReservationTheorems.StaleWriteBackIsFresh | internal/reservation/usecase/usecase.go:262-289 | when ConfirmReservation writes back the copy of its first transaction, that copy is the row it has just locked |
| ReservationTheorems.IdempotentCreate | internal/reservation/usecase/usecase.go:102-178 | all successful creations with one key return the same reservation, the only row with that key, even if the first lookup fails |
| ReservationTheorems.OneReservationPerDriver | internal/reservation/usecase/usecase.go:163-168 | a driver never has two reservations that wait, are confirmed or are checked in |
| ReservationTheorems.SpotIndexNeverViolated | internal/reservation/usecase/usecase.go:155-169 | under the row lock an available spot has no indexed reservation, so the unique index on spots never refuses an insert |
| Ownership.OnlyOwnRowsChange | internal/reservation/usecase/usecase.go:228-543 | in every run, whatever a driver's request does changes only rows of that driver and their spots, and an operation on an existing reservation answers with one of that driver's |
| ReservationModel.EdgesDescend | internal/reservation/model/model.go:56-76 | the table in closed form: every edge lowers a rank, nothing leads back to waiting, terminal means rank 0 |
| ReservationInvariant.StepInv | internal/reservation/usecase/usecase.go:100-689 | every step keeps: one active reservation per taken spot in the matching status, timestamps fixed by status, copies that are earlier versions of their rows |
| ReservationService.Service.CreateReservation | internal/reservation/usecase/usecase.go:100-211 | only machine steps, whatever interleaves; alone, a known key answers with its reservation unless the lookup fails, otherwise the lowest free or the chosen spot is booked with one call for its bill, or refused unchanged, and given back if there is no bill; whatever interleaves, the answer carries the key, and a new one was billed the booking fee under its own key |
| ReservationService.Service.ConfirmReservation | internal/reservation/usecase/usecase.go:215-310 | only machine steps; alone, a waiting reservation of the caller is confirmed for one hour, left alone without a bill, and failed with its spot released without a payment, with exactly those calls, and nobody else's is touched; whatever interleaves, an answered payment that does not confirm is asked to be refunded, and no other is |
| ReservationService.Service.ConfirmTransaction | internal/reservation/usecase/usecase.go:262-289 | a row that still waits is confirmed; one that does not is left alone, and the payment is to be refunded |
| ReservationService.Service.FailReservationInternal | internal/reservation/usecase/usecase.go:314-339 | fails a row that still waits and frees its spot, and does nothing to any other |
| ReservationService.Service.CancelReservation | internal/reservation/usecase/usecase.go:347-386 | only machine steps; alone, cancels a waiting or confirmed reservation of the caller and frees its spot, changes nothing for another driver or status; whatever interleaves, what is answered is the caller's |
| ReservationService.Service.CheckIn | internal/reservation/usecase/usecase.go:392-462 | only machine steps; alone, checks a confirmed reservation of the caller in and occupies its spot; billing is told once, with fee 0, and whatever it answers does not matter |
| ReservationService.Service.CheckOut | internal/reservation/usecase/usecase.go:468-524 | only machine steps; alone, checks a checked-in reservation of the caller out, asks for the fee of its stay and then for the invoice, and answers with that invoice, or with an error if either fails, the row staying checked out; whatever interleaves, what is answered is the invoice asked for last |
| ReservationService.Service.CompleteCheckout | internal/reservation/usecase/usecase.go:528-608 | only machine steps; alone, completes a checked-out reservation of the caller and frees its spot iff invoice and payment are answered and the commit works; asks for the invoice, then for exactly its total under the reservation's key |
| ReservationService.Service.ExpireReservation | internal/reservation/usecase/usecase.go:612-650 | only machine steps; alone, expires a confirmed reservation at any time and frees its spot |
| ReservationService.Service.FailReservation | internal/reservation/usecase/usecase.go:655-689 | only machine steps; alone, fails a waiting reservation and frees its spot |
| ReservationService.Service.FindAvailableSpot | internal/reservation/repository/repository.go:46-62 | the spot returned is available, of the type, on the lowest floor that has such a spot and with the lowest number there; none is returned only if there is none |
| ReservationService.Service.EndTransaction | internal/reservation/repository/repository.go:164-181 | after a failed commit the tables are those of the beginning, after a successful one those of the body |
| EndToEndTheorems.CompletedAgrees | internal/reservation/usecase/usecase.go:556-587 | in every run of the three services a completed reservation has exactly one billing record, invoiced, over the booking fee plus the fees of its own stay, and exactly one checkout payment, for that record and that amount |
| EndToEndTheorems.CheckOutAnswersAgree | internal/reservation/usecase/usecase.go:509-608 | in every run, a check-out or completion answered with success has exactly one billing record, invoiced over its own stay, and the answered amounts are that record's; an answered payment is the only one for it; no other operation on an existing reservation answers with one that is checked out or completed |
| Compensation.UnconfirmedIsRefunded | internal/reservation/usecase/usecase.go:262-278 | in every run, a confirming transaction that works but finds its row no longer waiting leaves the request bound to refund exactly the booking payment it was answered: in every continuation it has asked or will next ask for that refund, unless it crashes or the call is lost, and is told of success only once the gateway has given the money back |
| Compensation.CanGiveBack | internal/reservation/usecase/usecase.go:272-276 | where the schema admits refunds, a request bound to refund a paid payment has a continuation in which the money is given back and the payment marked refunded |
| Settlement.ConfirmedMoney | internal/reservation/usecase/usecase.go:243-288 | every reservation ever confirmed has one payment under its booking key, of the booking fee on its own record; it is charged once and for ever iff one of at most three attempts was accepted, and settled uncharged iff all three were declined or the attempts cancelled |
| Settlement.CompletedMoney | internal/reservation/usecase/usecase.go:556-582 | the same for the one checkout payment of every completed reservation, over its invoice's total |
| Settlement.Fate | internal/payment/usecase/usecase.go:66-118 | for every payment of every run: charged in every continuation iff an attempt was accepted, in none iff there is no charge and nobody at the gateway; once settled, iff paid, and iff failed, by its status; pending, at most one charge |
| Settlement.TraceRuns | internal/reservation/usecase/usecase.go:251-563 | within a run of the whole system the payment service makes a run of its own, so that all theorems about its runs hold there |
| Charging.RepliesTell | pkg/retry/retry.go:24-43 | in every run of the payment service a payment is charged iff its last attempt was accepted, and a settled one is paid iff its retry loop did not give up |
| Charging.ChargedStep | internal/payment/usecase/usecase.go:66-118 | no step takes a charge back or adds a second one |
| Unsettled.PendingTellsNothing | internal/payment/usecase/usecase.go:34-40 | two runs complete a reservation on a payment left pending by a crashed request: one is charged for ever, the other never |
| EndToEndTheorems.CompletedStaysAreShort | internal/payment/handler/grpc/handler.go:33-38 | a reservation can only be completed if hours billed plus four times the nights is at most 19999, so never after 715 days |
| EndToEndTheorems.BookingFeeIsNeverLost | internal/reservation/usecase/usecase.go:427-430 | although check-in asks for a record with fee 0, every record has the booking fee of 5000, and everything ever confirmed has a record |
| EndToEndTheorems.StepInv | internal/reservation/usecase/usecase.go:180-563 | every step of any service, call or answer keeps the links between reservations, records, payments and requests in flight |
| Completion.CompletionPossibleIff | internal/reservation/usecase/usecase.go:472-593 | in every reachable state a checked-out reservation has a continuation that completes it iff its total is within the payment limits and its fee is calculated or a calculation is still on its way |
| Completion.StuckForEver | internal/reservation/usecase/usecase.go:496-507 | a checked-out reservation without a fee, and with none on its way, is never completed in any continuation |
| Completion.CanComplete | internal/reservation/usecase/usecase.go:528-593 | with its fee calculated and payable, a fresh CompleteCheckout can complete it from any reachable state |
| Serving.FreeSpotCanServe | internal/reservation/usecase/usecase.go:100-608 | from every reachable state of the three services each free spot can serve a new reservation from creation to completion |
| Serving.CheckOutCanStrand | internal/reservation/usecase/usecase.go:496-507 | from every reachable state with a checked-in reservation some run checks it out such that no continuation ever completes it |
| Uncharged.CompletedWithoutCharge | internal/payment/usecase/usecase.go:91-110 | with any spot there is a run that confirms and completes a reservation while the gateway never accepts a charge |
| EndToEnd.KeyNamesReservation | internal/reservation/usecase/usecase.go:181-427 | billing keys of different reservations, or of creation and check-in, never coincide |
| EndToEnd.PaymentKeyNamesReservation | internal/reservation/usecase/usecase.go:250-562 | checkout and booking payment keys each determine their reservation and never coincide |
| PricingLaws.SessionFeeIs | internal/billing/pricing/pricing.go:18-45 | for any two instants, every field of the fee by a definition of its own: ceiling of the hours times the rate, midnights walked one by one times the nightly fee, completed minutes, each as far as a 64-bit duration reaches |
| PricingLaws.BilledHoursIsCeiling | internal/billing/pricing/pricing.go:26-30 | billed hours are the unique ceiling of the duration whether the float conversion gives floor or ceiling, and the maximum with 1 never acts |
| PricingLaws.MidnightsAreThoseWalked | internal/billing/pricing/pricing.go:47-59 | the nights counted are the UTC+7 midnights after the start and up to the end, found by walking them one by one, up to the 106751 that a 64-bit duration can hold |
| PricingLaws.SplitSession | internal/billing/pricing/pricing.go:18-59 | splitting a stay never costs less; it keeps the nights, and costs at most one hourly rate more, iff the whole does not exceed what a 64-bit duration can hold |
| PricingLaws.FeeMonotone | internal/billing/pricing/pricing.go:18-59 | a stay within another never costs more |
| PricingLaws.FeeShiftByDays | internal/billing/pricing/pricing.go:18-59 | shifting a stay by whole days changes nothing in its fee |
| PricingLaws.StayTotalExact | internal/billing/pricing/pricing.go:61-63 | for any two instants the 64-bit total does not wrap around and is at least the booking fee |
| PricingLaws.PayableIff | internal/payment/handler/grpc/handler.go:33-38 | the payment handler accepts a stay's total iff hours billed plus four times the nights is at most 19999 |
| PricingLaws.PayableStays | internal/payment/handler/grpc/handler.go:33-38 | any stay of at most 714 days is accepted, any of 715 days or more exceeds the cap |
| SearchModel.UpsertKeepsExactly | internal/search/repository/repository.go:87-104 | an answer of a query is still right after an upsert iff the spot looks the same to that query as before |
| SearchModel.AvailabilityIsUnique | internal/search/repository/repository.go:30-56 | a table has only one answer to an availability query |
| SearchModel.QueryHasAnswer | internal/search/repository/repository.go:30-69 | every query has an answer on every table |
| SearchModel.SpotIsCounted | internal/search/repository/repository.go:30-56 | a new spot adds one to its floor's total of its type, and to the available ones if it is available, unless the filter names another type, and changes nothing else |
| SearchCache.SearchService.GetAvailability | internal/search/usecase/usecase.go:27-67 | answers from a live entry, else with the query's result, which it caches for five seconds; a coherent entry makes the answer the current query result, floors ascending, and no entry becomes incoherent |
| SearchCache.SearchService.GetFloorMap | internal/search/usecase/usecase.go:69-109 | the same for the map of a floor, spots by number |
| SearchCache.SearchService.HandleSpotUpdated | internal/search/usecase/spot_sync.go:12-29 | deletes exactly the entries of the spot's type and of its floor; what was coherent and not deleted stays coherent iff the query does not see the change; if everything succeeds and the spot stays in place, all entries a caller can be served stay coherent |
| SearchCache.SearchService.UpsertSpot | internal/search/repository/repository.go:87-104 | writes the row iff its floor is 1 to 5, type and status are known and no other row has its code |
| SearchCache.WhatGoesStale | internal/search/usecase/spot_sync.go:17-26 | after a fully successful update, exactly these remaining answers are wrong: the unfiltered one if the spot is new, moved or changed availability, and those of the floor and type it left |
| SearchStaleness.AnswersAreRecent | internal/search/usecase/usecase.go:15-67 | with any overlap, any number of replicas and any lost invalidation, every answer was the query's answer at some moment less than 15 seconds before |
| SearchStaleness.BoundIsTight | internal/search/usecase/usecase.go:15-16 | there is a run whose answer was last right 15 seconds less one nanosecond before it was given |
| Regression.DenominatorClosedForm | internal/analytics/usecase/usecase.go:189-192 | the denominator is n^2 (n^2 - 1) / 12 |
| Regression.DenominatorSign | internal/analytics/usecase/usecase.go:190-192 | it is positive for two days or more and zero for fewer, so the zero branch is never taken by the forecast |
| Regression.NormalIsBest | internal/analytics/usecase/usecase.go:194-196 | a line that satisfies the two normal equations has the least squared residuals, and is the only one that has |
| Regression.LinearRegression | internal/analytics/usecase/usecase.go:173-197 | for two days or more the result is the unique least-squares line; one day gives its value, none gives zero |
| Regression.ExactLineIsRecovered | internal/analytics/usecase/usecase.go:173-197 | a history that lies on a line is fitted by exactly that line |
| Regression.TrendContinues | internal/analytics/usecase/usecase.go:72-91 | a history on a line is continued: k days after its end the forecast is that line's value to three decimals, while it is between 0 and 1, with one instance more than its completed quarters |
| Regression.ForecastFollowsTheLine | internal/analytics/usecase/usecase.go:74-91 | on a rising line forecasts and instances never fall with the hour and confidence never rises, all within their bounds |
| Regression.PredictResources | internal/analytics/usecase/usecase.go:50-93 | each error exactly in its case; otherwise one forecast for each started hour of the horizon, hour i being the least-squares line i/24 days after the last day, cut to 0..1, with one instance more than completed quarters and as confidence the part of 30 days left, at least a tenth, all to three decimals |
| RateLimit.EvictionIsInvisibleIff | pkg/ratelimit/store.go:51-87 | the evicting store answers every run as one that never evicts iff a bucket refills within two clean-up intervals and a nanosecond, or there is no clean-up |
| RateLimit.WindowBound | pkg/ratelimit/store.go:51-87 | then at most burst + rate * T requests per key pass in any window of length T, evictions before and inside it included |
| RateLimit.RefillWithinTwoIntervals | pkg/ratelimit/store.go:12-24 | burst at most rate times twice the interval in seconds is enough for that |
| RateLimit.DefaultConfigRefills | pkg/ratelimit/store.go:18-24 | the default configuration satisfies it |
| RateLimit.Store.Allow | pkg/ratelimit/store.go:51-66 | takes a token iff the key's bucket holds one, a new key's being full and any other refilling at the rate up to the burst; answers as the store that never evicts if buckets refill in time |
| RateLimit.Store.Cleanup | pkg/ratelimit/store.go:68-87 | removes exactly the keys idle for more than two intervals |

## Left out

- gRPC, REST, NATS and Asynq plumbing, authentication, configuration, tracing and the frontend. Timers and event handlers appear as requests that may start at any time.
- Published events: they are best effort and no code relies on them.
- The gateway is honest: it keeps a charge or refund exactly for the calls it reports as successful. A charge whose success report is lost is outside the code's own reach (internal/payment/usecase/usecase.go:68-110).
- Release of row locks: the refund in ConfirmReservation is called while the row is still locked (internal/reservation/usecase/usecase.go:272); the model lets other requests in already then, which allows more runs.
- Columns that no decision depends on: payment method and gateway, creation times of payments and records, the cancellation's caller message, presence verification at check-in.
- Error kinds: a request that fails answers `None`; which error it was is not modelled, except in the forecast.
- Timestamps are integers in nanoseconds and survive the database unrounded; UTC+7 is a fixed offset; the reservation service's clock does not run backwards. One request's clock readings in billing and payment are one parameter.
- The circuit breaker is an error that may happen at any call. The distributed lock and its release are an arbitrary boolean at acquisition.
- EndToEndTheorems.CompletedAgrees: holds for runs in which nobody calls ApplyOvernightFee, StartBilling or CalculateFee on billing directly and nobody else pays under a key that starts with "payment-" or "booking-payment-"; such calls could change the invoice or take the key.
- Settlement.ConfirmedMoney: under the same assumption; a payment made by somebody else under the booking key could have another amount or record.
- Settlement.CompletedMoney: under the same assumption as EndToEndTheorems.CompletedAgrees.
- EndToEndTheorems.CheckOutAnswersAgree: under the same assumption.
- Completion.CompletionPossibleIff: under the same assumption; a CalculateFee that reaches billing from elsewhere could set the missing fee of a stuck reservation, and a StartBilling or ApplyOvernightFee could change its total.
- Completion.StuckForEver: under the same assumption; a CalculateFee from elsewhere would free the reservation.
- Serving.CheckOutCanStrand: under the same assumption; "for good" means as far as the reservation service itself and invoice requests go.
- PricingLaws.BilledHoursIsCeiling: the float conversion of minutes is taken to truncate exactly.
- Regression.LinearRegression: over reals, without the rounding errors of 64-bit floating point, so the computed line is the optimal one up to those errors.
- Regression.ExactLineIsRecovered: over reals; in floating point an exact trend is recovered up to rounding.
- Regression.ForecastFollowsTheLine: over reals; rounding errors below the third decimal could reorder two forecasts.
- Regression.PredictResources: over reals, as the line it extrapolates; the timestamp of a prediction is its hour counted from now.
- Regression.TrendContinues: over reals.
- Compensation.UnconfirmedIsRefunded: a transaction that cannot lock its row again, and so ends with an error after the payment, refunds nothing; the row then still waits or has been failed by its timer.
- RateLimit.Store.Allow: the token bucket's refill rule (golang.org/x/time/rate is not part of this model) is an assumption, and the bucket is consulted at the instant at which the key is marked as seen.
- Cache keys are values of a datatype rather than formatted strings; the cached value decodes to what was encoded or counts as unreadable.
- SearchCache.SearchService.HandleSpotUpdated: operations do not overlap there; overlapping ones are the subject of SearchStaleness.
- SearchStaleness.AnswersAreRecent: assumes that a flight has ended, with its cache write, when its ten seconds are over.
- Usage patterns, peak hours, listing and single-row reads: they would only add easy members.
