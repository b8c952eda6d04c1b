/** What becomes of a booking payment whose reservation can no longer be confirmed. */
module Compensation {
  import opened Wrappers
  import opened ParkingSystem
  import opened EndToEnd
  import C = Completion
  import E2E = EndToEndTheorems
  import RMod = ReservationModel
  import RM = ReservationMachine
  import RI = ReservationInvariant
  import RT = ReservationTheorems
  import BI = BillingInvariant
  import PM = PaymentMachine
  import PI = PaymentInvariant
  import PT = PaymentTheorems

  // ------------------------------------------------------------------
  // The confirming transaction
  // ------------------------------------------------------------------

  /** The payment a confirming request was answered: for the booking fee, on a record
      of its own reservation, the only one under that reservation's key. */
  predicate IsBookingPayment(s: System, id: string, pid: nat) {
    && pid in s.p.rows && s.p.rows[pid].key == "booking-payment-" + id && s.p.rows[pid].amount == 5_000
    && RecordOf(s.b.rows, s.p.rows[pid].billingId, id)
    && forall q :: q in s.p.rows && s.p.rows[q].key == "booking-payment-" + id ==> q == pid
  }

  predicate Confirming(s: System, t: nat) {
    t in s.r.threads && s.r.threads[t].ConfirmTxn?
  }

  lemma AnsweredOwnPayment(s: System, t: nat)
    requires Inv(s) && Confirming(s, t)
    ensures IsBookingPayment(s, s.r.threads[t].copy.id, s.r.threads[t].pid)
  {
    hide RI.Inv, BI.Inv, PI.RowsOk, PI.LedgerOk, PI.ThreadsOk, PI.OwnersUnique, CallsLinked, RecordLinked, RowLinked, Billed,
         BThreadLinked, PThreadLinked;
    var th := s.r.threads[t];
    assert RThreadLinked(s.b.rows, s.p.rows, th);
    PaymentKeyNamesReservation(th.copy.id);
    var row := s.p.rows[th.pid];
    assert OwnPay(s.b.rows, row.key, row.billingId, row.amount);
  }

  lemma ConfirmingRow(s: System, t: nat)
    requires Inv(s) && Confirming(s, t)
    ensures var copy := s.r.threads[t].copy;
            && copy.id in s.r.rows && (s.r.rows[copy.id].status.WaitingPayment? ==> s.r.rows[copy.id] == copy)
  {
    hide RI.RowsOk, RI.KeysUnique, RI.SpotsOk, BI.Inv, PI.Inv, TablesLinked, ThreadsLinked, CallsLinked;
    assert RI.ThreadOk(s.r.rows, s.r.spots, s.r.threads[t]);
  }

  lemma ConfirmingHasNoCall(s: System, t: nat)
    requires Inv(s) && Confirming(s, t)
    ensures t !in s.paymentCalls
  {
    hide RI.Inv, BI.Inv, PI.Inv, TablesLinked, ThreadsLinked;
    assert t in s.paymentCalls ==> PaymentCallOk(s.r.threads, s.p.threads, t, s.paymentCalls[t]);
  }

  /** A transaction that finds the row no longer waiting writes nothing and leads to
      the refund; one that finds it waiting confirms it. */
  lemma ConfirmsOrRefunds(r: RM.State, t: nat, write: Write)
    requires t in r.threads && r.threads[t].ConfirmTxn? && write != NotApplied
    requires var copy := r.threads[t].copy;
             copy.id in r.rows && (r.rows[copy.id].status.WaitingPayment? ==> r.rows[copy.id] == copy)
    ensures var r', copy, pid := RM.Step(r, RM.Confirm(t, write)), r.threads[t].copy, r.threads[t].pid;
            if r.rows[copy.id].status.WaitingPayment?
            then copy.id in r'.rows && r'.rows[copy.id].status.Confirmed? && r'.rows[copy.id].confirmedAt == Some(r.now)
            else r' == r.(threads := r.threads[t := RM.ConfirmRefund(copy, pid)])
  {
  }

  // ------------------------------------------------------------------
  // The refund
  // ------------------------------------------------------------------

  /** The gateway has given the payment's charge back, once. */
  ghost predicate GivenBack(s: System, pid: nat) {
    PT.Charges(s.p.ledger, pid) == 1 && PT.Refunds(s.p.ledger, pid) == 1
  }

  /** Where a request that has set out to refund payment pid may be. */
  ghost predicate Compensates(s: System, t: nat, copy: RM.Reservation, pid: nat) {
    && t in s.r.threads
    && match s.r.threads[t]
       case ConfirmRefund(c, p) => c == copy && p == pid
       case Done(result) => result.None?
       case Crashed => true
       case _ => false
  }

  lemma EndsStay(r: RM.State, a: RM.Action, t: nat)
    requires t in r.threads && (r.threads[t] == RM.Done(None) || r.threads[t].Crashed?) && OwnStep(a)
    ensures t in RM.Step(r, a).threads && RM.Step(r, a).threads[t] == r.threads[t]
  {
    if a.Tick? || t != a.t {
      hide RM.Step;
      RT.OthersStay(r, a, t);
    }
  }

  lemma CompensatesStep(s: System, a: Action, t: nat, copy: RM.Reservation, pid: nat)
    requires Compensates(s, t, copy, pid)
    ensures Compensates(Step(s, a), t, copy, pid)
  {
    hide Compensates, RM.Step, PM.Step, BillingRequest, ChargeRequest, AwaitsPayment, AwaitsBilling, BillingResult, PaymentResult;
    match a
    case R(ra) => if OwnStep(ra) { OwnStepCompensates(s, ra, t, copy, pid); }
    case BillingAnswer(v, ok) =>
      if DoBillingAnswer(s, v, ok) != s {
        var bill := if ok then BillingResult(s, v) else None;
        E2E.RepliesMove(s.r, v, bill, None);
        AnswerCompensates(s, Step(s, a), v, bill, None, t, copy, pid);
      }
    case PaymentAnswer(v, ok) =>
      if DoPaymentAnswer(s, v, ok) != s {
        var payment := if ok then PaymentResult(s, v) else None;
        E2E.RepliesMove(s.r, v, None, payment);
        AnswerCompensates(s, Step(s, a), v, None, payment, t, copy, pid);
      }
    case _ => SameRequests(s, Step(s, a), t, copy, pid);
  }

  lemma SameRequests(s: System, s': System, t: nat, copy: RM.Reservation, pid: nat)
    requires Compensates(s, t, copy, pid) && s'.r == s.r
    ensures Compensates(s', t, copy, pid)
  {
  }

  lemma OwnStepCompensates(s: System, ra: RM.Action, t: nat, copy: RM.Reservation, pid: nat)
    requires Compensates(s, t, copy, pid) && OwnStep(ra)
    ensures Compensates(s.(r := RM.Step(s.r, ra)), t, copy, pid)
  {
    hide RM.Step;
    if s.r.threads[t].ConfirmRefund? {
      ReservationIsLocal(s.r, ra, t);
    } else {
      EndsStay(s.r, ra, t);
    }
  }

  /** An answer to another request changes nothing; one to this request ends it. */
  lemma AnswerCompensates(s: System, s': System, v: nat, bill: Option<RM.Bill>, payment: Option<nat>,
                          t: nat, copy: RM.Reservation, pid: nat)
    requires Compensates(s, t, copy, pid) && v in s.r.threads
    requires || s'.r == RM.Goto(s.r, v, RM.AfterBilling(s.r.threads[v], bill))
             || s'.r == RM.Goto(s.r, v, RM.AfterPayment(s.r.threads[v], payment))
    ensures Compensates(s', t, copy, pid)
  {
  }

  lemma {:induction false} CompensatesOn(s: System, more: seq<Action>, t: nat, copy: RM.Reservation, pid: nat)
    requires Compensates(s, t, copy, pid)
    ensures Compensates(Run(s, more), t, copy, pid)
    decreases |more|
  {
    hide Step, Compensates;
    if more != [] {
      CompensatesStep(s, more[0], t, copy, pid);
      CompensatesOn(Step(s, more[0]), more[1..], t, copy, pid);
    }
  }

  /** The next call of request t starts request u of the payment service, a refund. */
  ghost predicate AsksToRefund(s: System, t: nat, u: nat, pid: nat) {
    Step(s, CallPayment(t, u))
    == s.(p := s.p.(threads := s.p.threads[u := PM.RefundLookup(pid, "")]), paymentCalls := s.paymentCalls[t := u])
  }

  /** The call that refunds asks for that payment, by its id and without a key. */
  lemma AsksForRefund(s: System, t: nat, u: nat)
    requires t in s.r.threads && s.r.threads[t].ConfirmRefund? && t !in s.paymentCalls && u !in s.p.threads
    ensures AsksToRefund(s, t, u, s.r.threads[t].pid)
  {
  }

  /** Success is answered only once the money is back. */
  lemma AnsweredMeansGivenBack(s: System, t: nat)
    requires Inv(s) && t in s.r.threads && s.r.threads[t].ConfirmRefund? && PaymentResult(s, t).Some?
    ensures PaymentResult(s, t) == Some(s.r.threads[t].pid) && GivenBack(s, s.r.threads[t].pid)
  {
    hide RI.Inv, BI.Inv, PI.KeysUnique, PI.OwnersUnique, TablesLinked, ThreadsLinked;
    var pid, u := s.r.threads[t].pid, s.paymentCalls[t];
    assert PaymentCallOk(s.r.threads, s.p.threads, t, u);
    assert PI.ThreadOk(s.p.rows, s.p.ledger, s.p.threads[u]);
    var p := s.p.threads[u].result.value;
    assert PI.MoneyBack(s.p.ledger, p);
    RefundedOnce(s, p);
  }

  lemma RefundedOnce(s: System, p: PM.Payment)
    requires Inv(s) && PI.MoneyBack(s.p.ledger, p)
    ensures GivenBack(s, p.id)
  {
    hide RI.Inv, BI.Inv, PI.KeysUnique, PI.OwnersUnique, PI.ThreadsOk, TablesLinked, ThreadsLinked, CallsLinked;
    var refs := PT.ChargeRefs(s.p.ledger, p.id);
    assert p.id in s.p.rows && PI.RowMoney(s.p.schemaHasRefunding, s.p.ledger, s.p.rows[p.id]);
    PT.SingletonSum(s.p.ledger, refs, p.ref.value);
  }

  /** In every run: a confirming transaction that works, but finds its reservation no
      longer waiting, leaves the request bound to refund exactly the payment it was
      answered. From then on it has asked for that refund, or will ask for it next,
      unless it crashes or its call is lost; and success is reported to it only once
      the gateway has given the money back. */
  lemma UnconfirmedIsRefunded(s0: System, schedule: seq<Action>, t: nat, write: Write, more: seq<Action>)
    requires IsInit(s0) && Confirming(Run(s0, schedule), t) && write != NotApplied
    requires var s := Run(s0, schedule); var copy := s.r.threads[t].copy;
             copy.id in s.r.rows && s.r.rows[copy.id].status != RMod.WaitingPayment
    ensures var s := Run(s0, schedule); var copy, pid := s.r.threads[t].copy, s.r.threads[t].pid;
            var s1 := Step(s, R(RM.Confirm(t, write)));
            && IsBookingPayment(s, copy.id, pid)
            && s1 == s.(r := s.r.(threads := s.r.threads[t := RM.ConfirmRefund(copy, pid)])) && t !in s1.paymentCalls
            && var z := Run(s1, more);
               && t in z.r.threads
               && match z.r.threads[t]
                  case ConfirmRefund(_, p) =>
                    && p == pid
                    && (forall u :: t !in z.paymentCalls && u !in z.p.threads ==> AsksToRefund(z, t, u, pid))
                    && (t in z.paymentCalls ==> z.paymentCalls[t] in z.p.threads && RefundOf(z.p.threads[z.paymentCalls[t]], pid))
                    && (PaymentResult(z, t).Some? ==> GivenBack(z, pid))
                  case Done(result) => result.None?
                  case Crashed => true
                  case _ => false
  {
    hide Inv, Step, Run, RM.Step, IsBookingPayment, GivenBack, PaymentResult, AsksToRefund;
    E2E.InitInv(s0);
    E2E.RunInv(s0, schedule);
    var s := Run(s0, schedule);
    var copy, pid := s.r.threads[t].copy, s.r.threads[t].pid;
    AnsweredOwnPayment(s, t);
    ConfirmingRow(s, t);
    ConfirmingHasNoCall(s, t);
    ConfirmsOrRefunds(s.r, t, write);
    OwnStepIsStep(s, RM.Confirm(t, write));
    var s1 := Step(s, R(RM.Confirm(t, write)));
    E2E.StepInv(s, R(RM.Confirm(t, write)));
    E2E.RunInv(s1, more);
    CompensatesOn(s1, more, t, copy, pid);
    var z := Run(s1, more);
    if z.r.threads[t].ConfirmRefund? {
      CallIsRefund(z, t);
      forall u | t !in z.paymentCalls && u !in z.p.threads
        ensures AsksToRefund(z, t, u, pid)
      {
        AsksForRefund(z, t, u);
      }
      if PaymentResult(z, t).Some? {
        AnsweredMeansGivenBack(z, t);
      }
    }
  }

  lemma OwnStepIsStep(s: System, ra: RM.Action)
    requires OwnStep(ra)
    ensures Step(s, R(ra)) == s.(r := RM.Step(s.r, ra))
  {
    hide RM.Step;
  }

  lemma CallIsRefund(s: System, t: nat)
    requires Inv(s) && t in s.r.threads && s.r.threads[t].ConfirmRefund?
    ensures t in s.paymentCalls ==> s.paymentCalls[t] in s.p.threads && RefundOf(s.p.threads[s.paymentCalls[t]], s.r.threads[t].pid)
  {
    hide RI.Inv, BI.Inv, PI.Inv, TablesLinked, ThreadsLinked;
    if t in s.paymentCalls {
      assert PaymentCallOk(s.r.threads, s.p.threads, t, s.paymentCalls[t]);
    }
  }

  // ------------------------------------------------------------------
  // The refund can go through
  // ------------------------------------------------------------------

  predicate Paid(s: System, pid: nat) {
    pid in s.p.rows && s.p.rows[pid].status.Success?
  }

  /** A refund request, alone, runs to its end. */
  lemma Refunds(s: System, u: nat, pid: nat) returns (z: System)
    requires Inv(s) && Paid(s, pid) && s.p.schemaHasRefunding
    requires u in s.p.threads && s.p.threads[u] == PM.RefundLookup(pid, "")
    ensures Reaches(s, z) && Inv(z) && z == s.(p := z.p)
    ensures u in z.p.threads && z.p.threads[u].RefundDone? && z.p.threads[u].result.Some?
    ensures pid in z.p.rows && z.p.rows[pid].status.Refunded?
  {
    PaymentsCarryIds(s);
    hide Inv, Reaches, Step, PM.Refunded1;
    ReachesItself(s);
    var locked := s.p.rows[pid].(status := PM.Refunding, updatedAt := 0);
    LocksForRefund(s.p, u, pid);
    hide PM.Step;
    var s1 := C.NextP(s, s, PM.CheckRefundKey(u, false));
    var s2 := C.NextP(s, s1, PM.ReadForRefund(u, false));
    var s3 := C.NextP(s, s2, PM.LockForRefund(u, Applied, 0));
    z := RefundsLocked(s3, u, locked);
    ReachesOn(s, s3, z);
  }

  lemma LocksForRefund(p: PM.State, u: nat, pid: nat)
    requires pid in p.rows && p.rows[pid].status.Success? && p.rows[pid].id == pid && p.schemaHasRefunding
    requires u in p.threads && p.threads[u] == PM.RefundLookup(pid, "")
    ensures var p2 := PM.Step(PM.Step(p, PM.CheckRefundKey(u, false)), PM.ReadForRefund(u, false));
            var p3, locked := PM.Step(p2, PM.LockForRefund(u, Applied, 0)), p.rows[pid].(status := PM.Refunding, updatedAt := 0);
            && u in p3.threads && p3.threads[u] == PM.RefundCall(locked, 0)
            && pid in p3.rows && p3.rows[pid] == locked
  {
    hide PM.PayStep;
    var p1 := PM.Step(p, PM.CheckRefundKey(u, false));
    assert p1 == PM.Goto(p, u, PM.RefundRead(pid));
    var p2 := PM.Step(p1, PM.ReadForRefund(u, false));
    assert p2 == PM.Goto(p1, u, PM.RefundLock(p.rows[pid]));
  }

  lemma RefundsLocked(s: System, u: nat, locked: PM.Payment) returns (z: System)
    requires Inv(s) && locked.id in s.p.rows
    requires u in s.p.threads && s.p.threads[u] == PM.RefundCall(locked, 0)
    ensures Reaches(s, z) && Inv(z) && z == s.(p := z.p)
    ensures u in z.p.threads && z.p.threads[u].RefundDone? && z.p.threads[u].result.Some?
    ensures locked.id in z.p.rows && z.p.rows[locked.id].status.Refunded?
  {
    hide Inv, Reaches, Step, PM.Refunded1;
    ReachesItself(s);
    var s1 := C.NextP(s, s, PM.Refund(u, PM.Accepted(0)));
    assert s1.p.threads[u] == PM.RefundMark(locked);
    z := C.NextP(s, s1, PM.MarkRefunded(u, Applied, 0));
  }

  /** Where the schema admits refunds, a request bound to refund a paid payment has a
      continuation in which it does so. */
  lemma CanGiveBack(s: System, t: nat) returns (z: System)
    requires Inv(s) && s.p.schemaHasRefunding
    requires t in s.r.threads && s.r.threads[t].ConfirmRefund? && t !in s.paymentCalls && Paid(s, s.r.threads[t].pid)
    ensures var pid := s.r.threads[t].pid;
            && Reaches(s, z) && GivenBack(z, pid) && pid in z.p.rows && z.p.rows[pid].status.Refunded?
            && t in z.r.threads && z.r.threads[t] == RM.Done(None)
  {
    hide Inv, Reaches, GivenBack, RM.Step, AsksToRefund;
    var pid := s.r.threads[t].pid;
    ReachesItself(s);
    var u := Unused(s.p.threads);
    AsksForRefund(s, t, u);
    var s1 := C.Next(s, s, CallPayment(t, u));
    Asked(s, t, u);
    var s2 := Refunds(s1, u, pid);
    ReachesOn(s, s1, s2);
    assert PaymentResult(s2, t).Some?;
    AnsweredMeansGivenBack(s2, t);
    E2E.RepliesMove(s2.r, t, None, PaymentResult(s2, t));
    z := C.Next(s, s2, PaymentAnswer(t, true));
    SameLedger(s2, z, pid);
  }

  lemma Asked(s: System, t: nat, u: nat)
    requires t in s.r.threads && s.r.threads[t].ConfirmRefund? && u !in s.p.threads && AsksToRefund(s, t, u, s.r.threads[t].pid)
    ensures var s1 := Step(s, CallPayment(t, u));
            && s1.r == s.r && s1.p.rows == s.p.rows && s1.p.schemaHasRefunding == s.p.schemaHasRefunding
            && u in s1.p.threads && s1.p.threads[u] == PM.RefundLookup(s.r.threads[t].pid, "")
            && s1.paymentCalls == s.paymentCalls[t := u]
  {
    hide Step;
  }

  lemma SameLedger(s: System, s': System, pid: nat)
    requires GivenBack(s, pid) && s'.p == s.p
    ensures GivenBack(s', pid)
  {
  }
}
