/** Calls between the services keep the links of EndToEnd, so those hold in every
    run of the whole system; what follows for a completed reservation. */
module EndToEndTheorems {
  import opened Wrappers
  import opened ParkingSystem
  import opened EndToEnd
  import Pricing
  import PricingLaws
  import RM = ReservationMachine
  import opened ReservationModel
  import RI = ReservationInvariant
  import BM = BillingMachine
  import BI = BillingInvariant
  import BT = BillingTheorems
  import PM = PaymentMachine
  import PI = PaymentInvariant

  // ------------------------------------------------------------------
  // Calls into billing
  // ------------------------------------------------------------------

  /** What a waiting request asks of billing is right for its reservation. */
  lemma BillingRequestLinked(s: System, t: nat)
    requires Inv(s) && t in s.r.threads && BillingRequest(s.r.threads[t]).Some?
    ensures ReqLinked(s.r.rows, s.b.rows, BillingRequest(s.r.threads[t]).value)
  {
    hide RI.RowsOk, RI.KeysUnique, RI.SpotsOk, BI.Inv, PI.Inv, TablesLinked, CallsLinked, Billed, PaidBy;
    var th := s.r.threads[t];
    assert RI.ThreadOk(s.r.rows, s.r.spots, th);
    assert RThreadLinked(s.b.rows, s.p.rows, th);
  }

  lemma CallBillingInv(s: System, t: nat, u: nat)
    requires Inv(s)
    ensures Inv(DoCallBilling(s, t, u))
  {
    hide RI.Inv, BI.Inv, PI.Inv, TablesLinked, RThreadLinked, BThreadLinked, PThreadLinked;
    if t in s.r.threads && BillingRequest(s.r.threads[t]).Some? && t !in s.billingCalls && u !in s.b.threads {
      var req := BillingRequest(s.r.threads[t]).value;
      BillingRequestLinked(s, t);
      BillingStepLinks(s, BM.Begin(u, req));
    }
  }

  /** A step that answers one waiting request and forgets its call. */
  lemma AnswerInv(s: System, t: nat, th: RM.Thread, a: RM.Action, s': System)
    requires Inv(s) && t in s.r.threads && RThreadLinked(s.b.rows, s.p.rows, th)
    requires RM.Step(s.r, a) == RM.Goto(s.r, t, th)
    requires s' == s.(r := RM.Step(s.r, a), billingCalls := s'.billingCalls, paymentCalls := s'.paymentCalls)
    requires s'.billingCalls == s.billingCalls - {t} && s'.paymentCalls == s.paymentCalls - {t}
    ensures Inv(s')
  {
    hide RM.Step, RI.Inv, BI.Inv, PI.Inv, TablesLinked, RThreadLinked, BThreadLinked, PThreadLinked,
         BillingRequest, ChargeRequest;
    RI.StepInv(s.r, a);
  }

  lemma RepliesMove(r: RM.State, t: nat, bill: Option<RM.Bill>, pid: Option<nat>)
    requires t in r.threads
    ensures RM.Step(r, RM.BillingReply(t, bill)) == RM.Goto(r, t, RM.AfterBilling(r.threads[t], bill))
    ensures RM.Step(r, RM.PaymentReply(t, pid)) == RM.Goto(r, t, RM.AfterPayment(r.threads[t], pid))
  {
    hide RM.AfterBilling, RM.AfterPayment;
  }

  lemma WaitsForOneService(s: System, t: nat)
    requires Inv(s) && t in s.r.threads
    ensures AwaitsBilling(s.r.threads[t]) ==> t !in s.paymentCalls
    ensures AwaitsPayment(s.r.threads[t]) ==> t !in s.billingCalls
  {
    hide RI.Inv, BI.Inv, PI.Inv, TablesLinked, ThreadsLinked;
    if t in s.paymentCalls {
      assert PaymentCallOk(s.r.threads, s.p.threads, t, s.paymentCalls[t]);
    }
    if t in s.billingCalls {
      assert BillingCallOk(s.r.threads, s.b.threads, t, s.billingCalls[t]);
    }
  }

  /** A bill that reaches the caller is a record of the caller's own reservation. */
  lemma BillIsOwn(s: System, t: nat)
    requires Inv(s) && t in s.r.threads && BillingRequest(s.r.threads[t]).Some? && BillingResult(s, t).Some?
    ensures var bill, req := BillingResult(s, t).value, BillingRequest(s.r.threads[t]).value;
            && bill.recordId in s.b.rows && s.b.rows[bill.recordId].reservationId == req.reservationId
            && (req.GenerateInvoice? ==> InvoicedBill(s.b.rows, bill, req.reservationId))
  {
    hide RI.Inv, BI.Inv, PI.Inv, TablesLinked, RThreadLinked, ReqLinked, PThreadLinked;
    assert BillingCallOk(s.r.threads, s.b.threads, t, s.billingCalls[t]);
    assert BThreadLinked(s.r.rows, s.b.rows, s.b.threads[s.billingCalls[t]]);
  }

  lemma AnsweredByBilling(s: System, t: nat, ok: bool)
    requires Inv(s) && t in s.r.threads && AwaitsBilling(s.r.threads[t]) && (ok ==> BillingResult(s, t).Some?)
    ensures RThreadLinked(s.b.rows, s.p.rows,
                          RM.AfterBilling(s.r.threads[t], if ok then BillingResult(s, t) else None))
  {
    hide RI.Inv, BI.Inv, PI.Inv, TablesLinked, ThreadsLinked, CallsLinked, BillingResult, PaidBy;
    if ok && BillingRequest(s.r.threads[t]).Some? {
      BillIsOwn(s, t);
    }
  }

  lemma BillingAnswerInv(s: System, t: nat, ok: bool)
    requires Inv(s)
    ensures Inv(DoBillingAnswer(s, t, ok))
  {
    hide Inv, RThreadLinked, BillingResult, AwaitsBilling, RM.AfterBilling, RM.Step, RM.Goto;
    if t in s.r.threads && AwaitsBilling(s.r.threads[t]) && (ok ==> BillingResult(s, t).Some?) {
      var bill := if ok then BillingResult(s, t) else None;
      AnsweredByBilling(s, t, ok);
      RepliesMove(s.r, t, bill, None);
      WaitsForOneService(s, t);
      assert s.paymentCalls - {t} == s.paymentCalls;
      AnswerInv(s, t, RM.AfterBilling(s.r.threads[t], bill), RM.BillingReply(t, bill), DoBillingAnswer(s, t, ok));
    }
  }

  // ------------------------------------------------------------------
  // Calls into payment
  // ------------------------------------------------------------------

  /** A charge under a checkout key is for the reservation's invoice, in range. */
  lemma ChargeRequestLinked(s: System, t: nat)
    requires Inv(s) && t in s.r.threads && ChargeRequest(s.r.threads[t]).Some?
    ensures var req := ChargeRequest(s.r.threads[t]).value;
            OwnPay(s.b.rows, req.key, req.billingId, req.amount)
  {
    hide RI.Inv, BI.Inv, PI.Inv, TablesLinked, CallsLinked, Billed, PaidBy;
    var th := s.r.threads[t];
    assert RThreadLinked(s.b.rows, s.p.rows, th);
    PaymentKeyNamesReservation(th.copy.id);
  }

  lemma CallPaymentInv(s: System, t: nat, u: nat)
    requires Inv(s)
    ensures Inv(DoCallPayment(s, t, u))
  {
    hide RI.Inv, BI.Inv, PI.Inv, TablesLinked, RThreadLinked, BThreadLinked, PThreadLinked, OwnPay;
    if t in s.r.threads && t !in s.paymentCalls && u !in s.p.threads {
      var th := s.r.threads[t];
      if ChargeRequest(th).Some? {
        ChargeRequestLinked(s, t);
        PaymentStepLinks(s, PM.BeginPay(u, ChargeRequest(th).value));
      } else if th.ConfirmRefund? {
        PaymentStepLinks(s, PM.BeginRefund(u, th.pid, ""));
      }
    }
  }

  /** A payment that reaches the caller is a row under the key it asked for. */
  lemma PaymentIsOwn(s: System, t: nat)
    requires Inv(s) && t in s.r.threads && ChargeRequest(s.r.threads[t]).Some? && PaymentResult(s, t).Some?
    ensures PaymentResult(s, t).value in s.p.rows
    ensures s.p.rows[PaymentResult(s, t).value].key == ChargeRequest(s.r.threads[t]).value.key
  {
    hide RI.Inv, BI.Inv, PI.RowsOk, PI.KeysUnique, PI.LedgerOk, PI.OwnersUnique, TablesLinked, ThreadsLinked;
    var u := s.paymentCalls[t];
    assert PaymentCallOk(s.r.threads, s.p.threads, t, u);
    assert PI.ThreadOk(s.p.rows, s.p.ledger, s.p.threads[u]);
  }

  lemma AnsweredByPayment(s: System, t: nat, ok: bool)
    requires Inv(s) && t in s.r.threads && AwaitsPayment(s.r.threads[t]) && (ok ==> PaymentResult(s, t).Some?)
    ensures RThreadLinked(s.b.rows, s.p.rows,
                          RM.AfterPayment(s.r.threads[t], if ok then PaymentResult(s, t) else None))
  {
    hide RI.Inv, BI.Inv, PI.Inv, TablesLinked, PaymentResult, Billed;
    var th := s.r.threads[t];
    assert RThreadLinked(s.b.rows, s.p.rows, th);
    if th.ConfirmPay? {
      RecordIsBill(s.b.rows, th.bill.recordId, th.copy.id);
    }
    if ok && ChargeRequest(th).Some? {
      PaymentIsOwn(s, t);
    } else if ok && th.CompletePay? {
      NoChargeNoAnswer(s, t);
    }
  }

  /** An amount out of range is turned away at the door, so no answer can arrive. */
  lemma NoChargeNoAnswer(s: System, t: nat)
    requires CallsLinked(s) && t in s.r.threads && s.r.threads[t].CompletePay? && ChargeRequest(s.r.threads[t]).None?
    ensures PaymentResult(s, t).None?
  {
    assert t in s.paymentCalls ==> PaymentCallOk(s.r.threads, s.p.threads, t, s.paymentCalls[t]);
  }

  lemma PaymentAnswerInv(s: System, t: nat, ok: bool)
    requires Inv(s)
    ensures Inv(DoPaymentAnswer(s, t, ok))
  {
    hide Inv, RThreadLinked, PaymentResult, AwaitsPayment, RM.AfterPayment, RM.Step, RM.Goto;
    if t in s.r.threads && AwaitsPayment(s.r.threads[t]) && (ok ==> PaymentResult(s, t).Some?) {
      var pid := if ok then PaymentResult(s, t) else None;
      AnsweredByPayment(s, t, ok);
      RepliesMove(s.r, t, None, pid);
      WaitsForOneService(s, t);
      assert s.billingCalls - {t} == s.billingCalls;
      AnswerInv(s, t, RM.AfterPayment(s.r.threads[t], pid), RM.PaymentReply(t, pid), DoPaymentAnswer(s, t, ok));
    }
  }

  // ------------------------------------------------------------------
  // Every run
  // ------------------------------------------------------------------

  lemma InitInv(s: System)
    requires IsInit(s)
    ensures Inv(s)
  {
    RI.InitInv(s.r);
    BI.InitInv();
    PI.InitInv(s.p.schemaHasRefunding);
  }

  lemma StepInv(s: System, a: Action)
    requires Inv(s)
    ensures Inv(Step(s, a))
  {
    hide Inv, DoCallBilling, DoBillingAnswer, DoCallPayment, DoPaymentAnswer;
    match a
    case R(ra) => if OwnStep(ra) { ReservationStepLinks(s, ra); }
    case B(ba) => if OutsideBilling(ba) { BillingStepLinks(s, ba); }
    case P(pa) => if OutsidePayment(pa) { PaymentStepLinks(s, pa); }
    case CallBilling(t, u) => CallBillingInv(s, t, u);
    case BillingAnswer(t, ok) => BillingAnswerInv(s, t, ok);
    case CallPayment(t, u) => CallPaymentInv(s, t, u);
    case PaymentAnswer(t, ok) => PaymentAnswerInv(s, t, ok);
  }

  lemma {:induction false} RunInv(s: System, schedule: seq<Action>)
    requires Inv(s)
    ensures Inv(Run(s, schedule))
    decreases |schedule|
  {
    if schedule != [] {
      StepInv(s, schedule[0]);
      RunInv(Step(s, schedule[0]), schedule[1..]);
    }
  }

  // ------------------------------------------------------------------
  // What holds at the end
  // ------------------------------------------------------------------

  /** The record with id `bid` is what reservation `row`, and no other record, owes:
      the booking fee and the fees of its own stay. */
  predicate IsInvoiceOf(b: BM.Rows, bid: nat, row: RM.Reservation) {
    && bid in b && b[bid].reservationId == row.id && b[bid].status.Invoiced?
    && (forall o :: o in b && b[o].reservationId == row.id ==> o == bid)
    && row.checkedInAt.Some? && row.checkedOutAt.Some?
    && var rec, fee := b[bid], Pricing.CalculateSessionFee(row.checkedInAt.value, row.checkedOutAt.value);
       && rec.bookingFee == Pricing.BOOKING_FEE
       && rec.parkingFee == fee.parkingFee && rec.overnightFee == fee.overnightFee
       && rec.billedHours == fee.billedHours && rec.durationMinutes == fee.durationMinutes
       && rec.totalAmount == PricingLaws.StayTotal(row.checkedInAt.value, row.checkedOutAt.value)
  }

  /** The payment `pid`, the only one under its key, is for exactly that invoice. */
  predicate IsPaymentOf(p: PI.Rows, pid: nat, row: RM.Reservation, bid: nat, total: int) {
    && pid in p && p[pid].key == "payment-" + row.id && p[pid].billingId == bid && p[pid].amount == total
    && forall q :: q in p && p[q].key == "payment-" + row.id ==> q == pid
  }

  lemma InvoiceIsOwn(s: System, id: string, bid: nat)
    requires Inv(s) && id in s.r.rows
    requires bid in s.b.rows && s.b.rows[bid].reservationId == id && s.b.rows[bid].status.Invoiced?
    ensures IsInvoiceOf(s.b.rows, bid, s.r.rows[id])
  {
    hide RI.KeysUnique, RI.SpotsOk, RI.ThreadsOk, RI.RowShape, PI.Inv, ThreadsLinked, CallsLinked,
         BI.ThreadsOk, BI.Replay, BI.HistoryOk, RowLinked, OwnPay;
    assert RecordLinked(s.r.rows, s.b.rows[bid]);
    assert BI.RecordOk(s.b.rows[bid]);
  }

  lemma CompletedIsPaid(s: System, id: string) returns (bid: nat, pid: nat)
    requires Inv(s) && id in s.r.rows && s.r.rows[id].status.Completed?
    ensures IsInvoiceOf(s.b.rows, bid, s.r.rows[id])
    ensures IsPaymentOf(s.p.rows, pid, s.r.rows[id], bid, s.b.rows[bid].totalAmount)
    ensures Pricing.AmountAccepted(s.b.rows[bid].totalAmount)
  {
    hide RI.KeysUnique, RI.SpotsOk, RI.ThreadsOk, RI.RowShape, BI.Inv, ThreadsLinked, CallsLinked, IsInvoiceOf,
         PI.RowsOk, PI.LedgerOk, PI.ThreadsOk, PI.OwnersUnique, RecordLinked, Billed;
    assert RowLinked(s.b.rows, s.p.rows, s.r.rows[id]);
    pid :| PaidBy(s.p.rows, pid, id);
    bid := s.p.rows[pid].billingId;
    PaymentKeyNamesReservation(id);
    assert OwnPay(s.b.rows, s.p.rows[pid].key, bid, s.p.rows[pid].amount);
    InvoiceIsOwn(s, id, bid);
  }

  /** The record `bid` is the reservation's only one, and the payment `pid`, the only one
      under its key, is for the booking fee on that record. */
  predicate IsBookingOf(b: BM.Rows, p: PI.Rows, bid: nat, pid: nat, row: RM.Reservation) {
    && RecordOf(b, bid, row.id) && (forall o :: o in b && b[o].reservationId == row.id ==> o == bid)
    && pid in p && p[pid].key == "booking-payment-" + row.id && p[pid].billingId == bid && p[pid].amount == Pricing.BOOKING_FEE
    && forall q :: q in p && p[q].key == "booking-payment-" + row.id ==> q == pid
  }

  lemma ConfirmedIsBooked(s: System, id: string) returns (bid: nat, pid: nat)
    requires Inv(s) && id in s.r.rows && s.r.rows[id].confirmedAt.Some?
    ensures IsBookingOf(s.b.rows, s.p.rows, bid, pid, s.r.rows[id])
  {
    hide RI.KeysUnique, RI.SpotsOk, RI.ThreadsOk, RI.RowShape, ThreadsLinked, CallsLinked, BI.RowsOk, BI.ThreadsOk, BI.Replay,
         PI.RowsOk, PI.LedgerOk, PI.ThreadsOk, PI.OwnersUnique, RecordLinked, Billed;
    assert RowLinked(s.b.rows, s.p.rows, s.r.rows[id]);
    pid :| BookedBy(s.p.rows, pid, id);
    bid := s.p.rows[pid].billingId;
    PaymentKeyNamesReservation(id);
    assert OwnPay(s.b.rows, s.p.rows[pid].key, bid, s.p.rows[pid].amount);
  }

  /** End to end: whatever requests, timers, retries, failures and crashes a run
      holds, a completed reservation has exactly one billing record, invoiced over
      the booking fee plus the fees of its own stay, and exactly one checkout
      payment, for that record and that amount, within the payment limits. */
  lemma CompletedAgrees(s: System, schedule: seq<Action>, id: string)
    requires IsInit(s)
    requires var z := Run(s, schedule); id in z.r.rows && z.r.rows[id].status.Completed?
    ensures var z := Run(s, schedule);
            exists bid, pid ::
              && IsInvoiceOf(z.b.rows, bid, z.r.rows[id])
              && IsPaymentOf(z.p.rows, pid, z.r.rows[id], bid, z.b.rows[bid].totalAmount)
              && Pricing.AmountAccepted(z.b.rows[bid].totalAmount)
  {
    hide Inv, IsInvoiceOf, IsPaymentOf;
    InitInv(s);
    RunInv(s, schedule);
    var bid, pid := CompletedIsPaid(Run(s, schedule), id);
  }

  /** The bill's amounts are the booking fee and the fees of the stay of `row`. */
  predicate BillsStay(bill: RM.Bill, row: RM.Reservation) {
    && row.checkedInAt.Some? && row.checkedOutAt.Some?
    && var fee := Pricing.CalculateSessionFee(row.checkedInAt.value, row.checkedOutAt.value);
       && bill.bookingFee == 5_000 && bill.parkingFee == fee.parkingFee && bill.overnightFee == fee.overnightFee
       && bill.totalAmount == PricingLaws.StayTotal(row.checkedInAt.value, row.checkedOutAt.value)
  }

  lemma CheckOutAnswered(s: System, t: nat)
    requires Inv(s) && t in s.r.threads && s.r.threads[t].CheckOutDone?
    ensures var copy := s.r.threads[t].copy;
            && copy.id in s.r.rows && RI.Later(copy, s.r.rows[copy.id])
            && copy.status == (if s.r.threads[t].payment.None? then CheckedOut else Completed)
            && copy.checkedInAt.Some? && copy.checkedOutAt.Some?
  {
    hide RI.RowsOk, RI.KeysUnique, RI.SpotsOk, BI.Inv, PI.Inv, TablesLinked, ThreadsLinked, CallsLinked, RI.Later;
    assert RI.ThreadOk(s.r.rows, s.r.spots, s.r.threads[t]);
  }

  lemma AnsweredPayment(s: System, id: string, pid: nat, bid: nat)
    requires Inv(s) && id in s.r.rows && PaidBy(s.p.rows, pid, id)
    requires forall o :: o in s.b.rows && s.b.rows[o].reservationId == id ==> o == bid
    ensures s.r.rows[id].id == id
    ensures bid in s.b.rows && IsPaymentOf(s.p.rows, pid, s.r.rows[id], bid, s.b.rows[bid].totalAmount)
  {
    hide RI.KeysUnique, RI.SpotsOk, RI.ThreadsOk, RI.RowShape, BI.Inv, ThreadsLinked, CallsLinked,
         PI.RowsOk, PI.LedgerOk, PI.ThreadsOk, PI.OwnersUnique, RecordLinked, Billed;
    PaymentKeyNamesReservation(id);
    assert OwnPay(s.b.rows, s.p.rows[pid].key, s.p.rows[pid].billingId, s.p.rows[pid].amount);
  }

  lemma CheckOutAnswerAgrees(s: System, t: nat)
    requires Inv(s) && t in s.r.threads && s.r.threads[t].CheckOutDone?
    ensures var th := s.r.threads[t];
            && IsInvoiceOf(s.b.rows, th.bill.recordId, th.copy) && BillsStay(th.bill, th.copy)
            && (th.payment.Some? ==>
                  IsPaymentOf(s.p.rows, th.payment.value, th.copy, th.bill.recordId, th.bill.totalAmount))
  {
    hide RI.Inv, BI.Inv, PI.Inv, TablesLinked, CallsLinked, BThreadLinked, PThreadLinked, RI.RowShape;
    var th := s.r.threads[t];
    CheckOutAnswered(s, t);
    assert RThreadLinked(s.b.rows, s.p.rows, th);
    InvoiceIsOwn(s, th.copy.id, th.bill.recordId);
    if th.payment.Some? {
      AnsweredPayment(s, th.copy.id, th.payment.value, th.bill.recordId);
    }
  }

  lemma OtherAnswers(s: System, t: nat)
    requires Inv(s) && t in s.r.threads && s.r.threads[t].Done? && s.r.threads[t].result.Some?
    ensures var r := s.r.threads[t].result.value; !r.status.CheckedOut? && !r.status.Completed?
  {
    hide RI.RowsOk, RI.KeysUnique, RI.SpotsOk, BI.Inv, PI.Inv, TablesLinked, ThreadsLinked, CallsLinked;
    assert RI.ThreadOk(s.r.rows, s.r.spots, s.r.threads[t]);
  }

  /** A check-out or its completion is answered with success only once the invoice
      stands: in every state from then on the reservation has exactly one billing
      record, invoiced, and what was answered is that record's, over the fees of the
      stay; an answered payment is the only one for it. No other request on an
      existing reservation is ever answered with a checked-out one. */
  lemma CheckOutAnswersAgree(s: System, schedule: seq<Action>, t: nat)
    requires IsInit(s) && t in Run(s, schedule).r.threads
    ensures var z := Run(s, schedule);
            match z.r.threads[t]
            case CheckOutDone(row, bill, payment) =>
              && row.status == (if payment.None? then CheckedOut else Completed)
              && IsInvoiceOf(z.b.rows, bill.recordId, row) && BillsStay(bill, row)
              && (payment.Some? ==> IsPaymentOf(z.p.rows, payment.value, row, bill.recordId, bill.totalAmount))
            case Done(Some(row)) => !row.status.CheckedOut? && !row.status.Completed?
            case _ => true
  {
    hide Inv, IsInvoiceOf, IsPaymentOf, BillsStay, Run;
    InitInv(s);
    RunInv(s, schedule);
    var z := Run(s, schedule);
    if z.r.threads[t].CheckOutDone? {
      CheckOutAnswered(z, t);
      CheckOutAnswerAgrees(z, t);
    } else if z.r.threads[t].Done? && z.r.threads[t].result.Some? {
      OtherAnswers(z, t);
    }
  }

  /** Which stays can be completed at all: hours billed plus four times the nights
      must not exceed 19999; so never a stay of 715 days or more. */
  lemma CompletedStaysAreShort(s: System, schedule: seq<Action>, id: string)
    requires IsInit(s)
    requires var z := Run(s, schedule); id in z.r.rows && z.r.rows[id].status.Completed?
    ensures var row := Run(s, schedule).r.rows[id];
            && row.checkedInAt.Some? && row.checkedOutAt.Some?
            && var a, b := row.checkedInAt.value, row.checkedOutAt.value;
               && a <= b < a + 715 * Pricing.DAY
               && var fee := Pricing.CalculateSessionFee(a, b); fee.billedHours + 4 * fee.nightsCrossed <= 19_999
  {
    hide Inv;
    InitInv(s);
    RunInv(s, schedule);
    var z := Run(s, schedule);
    var bid, pid := CompletedIsPaid(z, id);
    var row := z.r.rows[id];
    PricingLaws.PayableIff(row.checkedInAt.value, row.checkedOutAt.value);
    PricingLaws.PayableStays(row.checkedInAt.value, row.checkedOutAt.value);
    InOrder(z, id);
  }

  lemma InOrder(s: System, id: string)
    requires Inv(s) && id in s.r.rows && s.r.rows[id].status.Completed?
    ensures s.r.rows[id].checkedInAt.Some? && s.r.rows[id].checkedOutAt.Some?
    ensures s.r.rows[id].checkedInAt.value <= s.r.rows[id].checkedOutAt.value
  {
    hide RI.KeysUnique, RI.SpotsOk, RI.ThreadsOk, BI.Inv, PI.Inv, TablesLinked, ThreadsLinked, CallsLinked;
    assert RI.RowShape(s.r.rows[id], s.r.now);
  }

  /** Though every check-in asks billing for a record with booking fee 0, no record
      ever has another booking fee than the standard one; and whatever was ever
      confirmed has a record. */
  lemma BookingFeeIsNeverLost(s: System, schedule: seq<Action>)
    requires IsInit(s)
    ensures var z := Run(s, schedule);
            && (forall bid :: bid in z.b.rows ==>
                  z.b.rows[bid].bookingFee == Pricing.BOOKING_FEE && z.b.rows[bid].reservationId in z.r.rows)
            && (forall id :: id in z.r.rows && z.r.rows[id].confirmedAt.Some? ==> Billed(z.b.rows, id))
  {
    InitInv(s);
    RunInv(s, schedule);
    hide RI.KeysUnique, RI.SpotsOk, RI.ThreadsOk, RI.RowShape, BI.Inv, PI.Inv, ThreadsLinked, CallsLinked, Billed, Run;
    var z := Run(s, schedule);
    forall bid | bid in z.b.rows
      ensures z.b.rows[bid].bookingFee == Pricing.BOOKING_FEE && z.b.rows[bid].reservationId in z.r.rows
    {
      assert RecordLinked(z.r.rows, z.b.rows[bid]);
    }
    forall id | id in z.r.rows && z.r.rows[id].confirmedAt.Some?
      ensures Billed(z.b.rows, id)
    {
      assert RowLinked(z.b.rows, z.p.rows, z.r.rows[id]);
    }
  }
}
