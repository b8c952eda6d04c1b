/** Exactly when a checked-out reservation can still be completed. Check-out commits
    before the fee is computed, so a failure in between may leave it stuck for good. */
module Completion {
  import opened Wrappers
  import opened ParkingSystem
  import opened EndToEnd
  import E2E = EndToEndTheorems
  import Pricing
  import PricingLaws
  import RMod = ReservationModel
  import RM = ReservationMachine
  import RI = ReservationInvariant
  import RT = ReservationTheorems
  import BM = BillingMachine
  import BI = BillingInvariant
  import BT = BillingTheorems
  import PM = PaymentMachine
  import PI = PaymentInvariant

  // ------------------------------------------------------------------
  // The condition
  // ------------------------------------------------------------------

  /** A record of this reservation whose fee has been calculated. */
  predicate FeeIn(b: BM.Rows, bid: nat, id: string) {
    bid in b && b[bid].reservationId == id && !b[bid].status.Pending?
  }

  ghost predicate FeeKnown(b: BM.Rows, id: string) {
    exists bid :: FeeIn(b, bid, id)
  }

  /** A billing request that still may set the fee. */
  predicate Calculating(th: BM.Thread, id: string) {
    (th.ReadRecord? || th.WriteBack?) && th.req.CalculateFee? && th.req.reservationId == id
  }

  /** A check-out that has committed and is still to ask for its fee. */
  predicate WillAsk(s: System, t: nat, id: string) {
    t in s.r.threads && s.r.threads[t].CheckOutFee? && s.r.threads[t].copy.id == id && t !in s.billingCalls
  }

  ghost predicate FeeOnItsWay(s: System, id: string) {
    || (exists u :: u in s.b.threads && Calculating(s.b.threads[u], id))
    || (exists t :: WillAsk(s, t, id))
  }

  /** The payment service accepts the stay's total. */
  predicate Payable(row: RM.Reservation) {
    && row.checkedInAt.Some? && row.checkedOutAt.Some?
    && Pricing.AmountAccepted(PricingLaws.StayTotal(row.checkedInAt.value, row.checkedOutAt.value))
  }

  ghost predicate CompletedBy(s: System, more: seq<Action>, id: string) {
    id in Run(s, more).r.rows && Run(s, more).r.rows[id].status.Completed?
  }

  predicate CheckedOut(s: System, id: string) {
    id in s.r.rows && s.r.rows[id].status.CheckedOut?
  }

  // ------------------------------------------------------------------
  // Stuck is stuck
  // ------------------------------------------------------------------

  ghost predicate Stuck(s: System, id: string) {
    CheckedOut(s, id) && !FeeKnown(s.b.rows, id) && !FeeOnItsWay(s, id)
  }

  /** Without a fee there is no invoice, so no payment, so no completion. */
  lemma CompletedHasFee(s: System, id: string)
    requires Inv(s) && id in s.r.rows && s.r.rows[id].status.Completed?
    ensures FeeKnown(s.b.rows, id)
  {
    hide Inv;
    var bid, pid := E2E.CompletedIsPaid(s, id);
    RowId(s, id);
    assert FeeIn(s.b.rows, bid, id);
  }

  lemma RowId(s: System, id: string)
    requires Inv(s) && id in s.r.rows
    ensures s.r.rows[id].id == id
  {
  }

  /** A step of the reservation service leaves a checked-out row so, or completes it,
      and starts no new question for its fee. */
  lemma OwnStepAsksNoMore(s: System, ra: RM.Action, id: string)
    requires Inv(s) && OwnStep(ra) && Stuck(s, id)
    ensures Stuck(s.(r := RM.Step(s.r, ra)), id)
  {
    hide RI.KeysUnique, RI.SpotsOk, RI.RowShape, RI.ThreadsOk, BI.Inv, PI.Inv, TablesLinked, ThreadsLinked, CallsLinked,
         RM.Step, FeeKnown, RMod.ValidateTransition;
    var s' := s.(r := RM.Step(s.r, ra));
    ReservationStepLinks(s, ra);
    RT.EveryChangeIsAnEdge(s.r, ra, id);
    if s'.r.rows[id].status.Completed? {
      CompletedHasFee(s', id);
    }
    forall t | WillAsk(s', t, id)
      ensures WillAsk(s, t, id)
    {
      OwnStepsRely(s.r, ra, t);
      if t in s.r.threads && JustMoved(s.r, s.r.threads[t], s'.r.threads[t]) {
        RMod.EdgesDescend(s.r.rows[id].status, RMod.CheckedOut);
        RowId(s, s.r.threads[t].id);
      }
    }
  }

  /** A record with no calculation under way keeps its status. */
  lemma PendingStays(s: System, ba: BM.Action, bid: nat)
    requires Inv(s) && bid in s.b.rows && s.b.rows[bid].status.Pending?
    requires forall u :: u in s.b.threads ==> !Calculating(s.b.threads[u], s.b.rows[bid].reservationId)
    ensures bid in BM.Step(s.b, ba).rows && BM.Step(s.b, ba).rows[bid] == s.b.rows[bid]
  {
    hide RI.Inv, PI.Inv, TablesLinked, CallsLinked, BI.RowsOk, BI.Unique, BI.Replay, RThreadLinked, PThreadLinked, BThreadLinked,
         BM.NewRecord, BM.KeyTaken, BM.ReservationTaken;
    if ba.t in s.b.threads && ba.Update? && s.b.threads[ba.t].WriteBack? {
      var th := s.b.threads[ba.t];
      assert BI.ThreadOk(s.b.rows, th);
      NoOvernightRequests(s, ba.t);
      BillingIds(s, bid);
    }
  }

  lemma NoOvernightRequests(s: System, u: nat)
    requires Inv(s) && u in s.b.threads && s.b.threads[u].WriteBack?
    ensures !s.b.threads[u].req.ApplyOvernightFee?
  {
    hide RI.Inv, BI.Inv, PI.Inv, TablesLinked, CallsLinked, RThreadLinked, PThreadLinked;
    assert BThreadLinked(s.r.rows, s.b.rows, s.b.threads[u]);
  }

  lemma BillingIds(s: System, bid: nat)
    requires Inv(s) && bid in s.b.rows
    ensures s.b.rows[bid].id == bid
  {
  }

  lemma CalculationsBegin(b: BM.State, ba: BM.Action, u: nat, id: string)
    requires u in BM.Step(b, ba).threads && Calculating(BM.Step(b, ba).threads[u], id)
    ensures (u in b.threads && Calculating(b.threads[u], id)) || (ba.Begin? && ba.t == u && ba.req.CalculateFee? && ba.req.reservationId == id)
  {
    hide BM.FindByKey, BM.FindByReservation, BM.NewRecord, BM.Modified, BM.Written, BM.Applies, BM.AlreadyDone, BM.Matches;
  }

  lemma BillingStepCalculatesNoMore(s: System, ba: BM.Action, id: string)
    requires Inv(s) && Stuck(s, id)
    requires ba.Begin? ==> ReqLinked(s.r.rows, s.b.rows, ba.req) && !(ba.req.CalculateFee? && ba.req.reservationId == id)
    ensures Stuck(s.(b := BM.Step(s.b, ba)), id)
  {
    hide Inv, BM.Step, ReqLinked, FeeKnown;
    var s' := s.(b := BM.Step(s.b, ba));
    BillingStepLinks(s, ba);
    var bid := RecordExists(s, id);
    if !s.b.rows[bid].status.Pending? {
      FeeMakesKnown(s.b.rows, bid, id);
    }
    PendingStays(s, ba, bid);
    PendingIsNoFee(s', bid);
    forall u | u in s'.b.threads && Calculating(s'.b.threads[u], id)
      ensures u in s.b.threads && Calculating(s.b.threads[u], id)
    {
      CalculationsBegin(s.b, ba, u, id);
    }
    forall t | WillAsk(s', t, id)
      ensures WillAsk(s, t, id)
    {
    }
  }

  lemma FeeMakesKnown(b: BM.Rows, bid: nat, id: string)
    requires FeeIn(b, bid, id)
    ensures FeeKnown(b, id)
  {
  }

  lemma PendingIsNoFee(s: System, bid: nat)
    requires Inv(s) && bid in s.b.rows && s.b.rows[bid].status.Pending?
    ensures !FeeKnown(s.b.rows, s.b.rows[bid].reservationId)
  {
    hide Inv;
    forall other | other in s.b.rows && s.b.rows[other].reservationId == s.b.rows[bid].reservationId
      ensures other == bid
    {
      OneRecord(s, bid, other);
    }
  }

  lemma OneRecord(s: System, i: nat, j: nat)
    requires Inv(s) && i in s.b.rows && j in s.b.rows && s.b.rows[i].reservationId == s.b.rows[j].reservationId
    ensures i == j
  {
  }

  lemma RecordExists(s: System, id: string) returns (bid: nat)
    requires Inv(s) && CheckedOut(s, id)
    ensures bid in s.b.rows && s.b.rows[bid].reservationId == id
  {
    hide RI.KeysUnique, RI.SpotsOk, RI.ThreadsOk, BI.Inv, PI.Inv, ThreadsLinked, CallsLinked, RecordLinked, OwnPay;
    assert RI.RowShape(s.r.rows[id], s.r.now);
    assert RowLinked(s.b.rows, s.p.rows, s.r.rows[id]);
    bid :| bid in s.b.rows && s.b.rows[bid].reservationId == id;
  }

  lemma CallAsksNoMore(s: System, t: nat, u: nat, id: string)
    requires Inv(s) && Stuck(s, id)
    ensures Stuck(DoCallBilling(s, t, u), id)
  {
    hide Inv, FeeKnown, ReqLinked, BM.Step;
    if t in s.r.threads && BillingRequest(s.r.threads[t]).Some? && t !in s.billingCalls && u !in s.b.threads {
      var req := BillingRequest(s.r.threads[t]).value;
      E2E.BillingRequestLinked(s, t);
      assert !WillAsk(s, t, id);
      BillingStepCalculatesNoMore(s, BM.Begin(u, req), id);
      var s1, s' := s.(b := BM.Step(s.b, BM.Begin(u, req))), DoCallBilling(s, t, u);
      forall v | WillAsk(s', v, id)
        ensures WillAsk(s1, v, id)
      {
      }
    }
  }

  /** An answer, or an error, takes the waiting request to a point where it asks for no fee. */
  lemma AnswerAsksNoMore(s: System, s': System, t: nat, th: RM.Thread, id: string)
    requires Stuck(s, id) && !th.CheckOutFee?
    requires s'.r == RM.Goto(s.r, t, th) && s'.b == s.b
    requires forall v :: v != t ==> (v in s'.billingCalls <==> v in s.billingCalls)
    ensures Stuck(s', id)
  {
    forall v | WillAsk(s', v, id)
      ensures WillAsk(s, v, id)
    {
    }
  }

  lemma StuckStep(s: System, a: Action, id: string)
    requires Inv(s) && Stuck(s, id)
    ensures Stuck(Step(s, a), id)
  {
    hide Inv, Stuck, DoCallBilling, RM.Step, BM.Step, PM.Step;
    match a
    case R(ra) => if OwnStep(ra) { OwnStepAsksNoMore(s, ra, id); }
    case B(ba) => if OutsideBilling(ba) { BillingStepCalculatesNoMore(s, ba, id); }
    case P(pa) => PaymentsDoNotMatter(s, Step(s, a), id);
    case CallBilling(t, u) => CallAsksNoMore(s, t, u, id);
    case BillingAnswer(t, ok) =>
      if DoBillingAnswer(s, t, ok) != s {
        var bill := if ok then BillingResult(s, t) else None;
        E2E.RepliesMove(s.r, t, bill, None);
        AnswerAsksNoMore(s, Step(s, a), t, RM.AfterBilling(s.r.threads[t], bill), id);
      }
    case CallPayment(t, u) => PaymentsDoNotMatter(s, Step(s, a), id);
    case PaymentAnswer(t, ok) =>
      if DoPaymentAnswer(s, t, ok) != s {
        var pid := if ok then PaymentResult(s, t) else None;
        E2E.RepliesMove(s.r, t, None, pid);
        AnswerAsksNoMore(s, Step(s, a), t, RM.AfterPayment(s.r.threads[t], pid), id);
      }
  }

  lemma PaymentsDoNotMatter(s: System, s': System, id: string)
    requires Stuck(s, id) && s'.r == s.r && s'.b == s.b && s'.billingCalls == s.billingCalls
    ensures Stuck(s', id)
  {
    forall t | WillAsk(s', t, id)
      ensures WillAsk(s, t, id)
    {
    }
  }

  lemma {:induction false} StuckForEver(s: System, more: seq<Action>, id: string)
    requires Inv(s) && Stuck(s, id)
    ensures Stuck(Run(s, more), id)
    decreases |more|
  {
    hide Inv, Stuck, Step;
    if more != [] {
      E2E.StepInv(s, more[0]);
      StuckStep(s, more[0], id);
      StuckForEver(Step(s, more[0]), more[1..], id);
    }
  }

  // ------------------------------------------------------------------
  // What is not stuck can be completed
  // ------------------------------------------------------------------

  /** One more step of the continuation. */
  lemma Next(s: System, s1: System, a: Action) returns (s2: System)
    requires Reaches(s, s1) && Inv(s1)
    ensures s2 == Step(s1, a) && Reaches(s, s2) && Inv(s2)
  {
    hide Inv, Step;
    s2 := Step(s1, a);
    ReachesStep(s, s1, a);
    E2E.StepInv(s1, a);
  }

  lemma NextR(s: System, s1: System, ra: RM.Action) returns (s2: System)
    requires Reaches(s, s1) && Inv(s1) && OwnStep(ra)
    ensures s2 == s1.(r := RM.Step(s1.r, ra)) && Reaches(s, s2) && Inv(s2)
  {
    hide Inv, Reaches, RM.Step;
    s2 := Next(s, s1, R(ra));
  }

  lemma NextB(s: System, s1: System, ba: BM.Action) returns (s2: System)
    requires Reaches(s, s1) && Inv(s1) && !ba.Begin?
    ensures s2 == s1.(b := BM.Step(s1.b, ba)) && Reaches(s, s2) && Inv(s2)
  {
    hide Inv, Reaches, BM.Step;
    s2 := Next(s, s1, B(ba));
  }

  lemma NextP(s: System, s1: System, pa: PM.Action) returns (s2: System)
    requires Reaches(s, s1) && Inv(s1) && !pa.BeginPay?
    ensures s2 == s1.(p := PM.Step(s1.p, pa)) && Reaches(s, s2) && Inv(s2)
  {
    hide Inv, Reaches, PM.Step;
    s2 := Next(s, s1, P(pa));
  }

  lemma NextCallBilling(s: System, s1: System, t: nat, u: nat) returns (s2: System)
    requires Reaches(s, s1) && Inv(s1) && t in s1.r.threads && t !in s1.billingCalls && u !in s1.b.threads
    requires BillingRequest(s1.r.threads[t]).Some? && !BillingRequest(s1.r.threads[t]).value.StartBilling?
    ensures s2 == s1.(b := BM.Goto(s1.b, u, BM.ReadRecord(BillingRequest(s1.r.threads[t]).value, 0)),
                      billingCalls := s1.billingCalls[t := u])
    ensures Reaches(s, s2) && Inv(s2)
  {
    hide Inv, Reaches, BM.Step, BM.Goto, BillingRequest;
    BillingBegins(s1.b, u, BillingRequest(s1.r.threads[t]).value);
    s2 := Next(s, s1, CallBilling(t, u));
  }

  lemma NewCaller(s: System) returns (t: nat)
    requires Inv(s)
    ensures t !in s.r.threads && t !in s.billingCalls && t !in s.paymentCalls
  {
    t := Unused(s.r.threads);
  }

  /** A new request reads the checked-out reservation. */
  lemma ReadAgain(s: System, id: string) returns (t: nat, z: System)
    requires Inv(s) && CheckedOut(s, id)
    ensures Reaches(s, z) && Inv(z) && z == s.(r := RM.Goto(s.r, t, RM.CompleteInvoice(s.r.rows[id])))
    ensures t !in z.billingCalls && t !in z.paymentCalls
  {
    hide Inv, Reaches, Step, RM.Step, RM.Goto;
    t := NewCaller(s);
    ReachesItself(s);
    EntersAndReads(s.r, t, id);
    var s1 := NextR(s, s, RM.BeginComplete(t, id, None));
    z := NextR(s, s1, RM.ReadLocked(t, false));
  }

  lemma EntersAndReads(r: RM.State, t: nat, id: string)
    requires t !in r.threads && id in r.rows && r.rows[id].status.CheckedOut?
    ensures var r1 := RM.Step(r, RM.BeginComplete(t, id, None));
            RM.Step(r1, RM.ReadLocked(t, false)) == RM.Goto(r, t, RM.CompleteInvoice(r.rows[id]))
  {
    var r1 := RM.Goto(r, t, RM.CompleteRead(id, None));
    assert RM.Step(r, RM.BeginComplete(t, id, None)) == r1;
    assert r1.threads[t := RM.CompleteInvoice(r.rows[id])] == r.threads[t := RM.CompleteInvoice(r.rows[id])];
  }

  /** A billing request, alone, invoices a calculated record or finds it invoiced. */
  lemma Invoices(s: System, u: nat, id: string, bid: nat) returns (z: System)
    requires Inv(s) && FeeIn(s.b.rows, bid, id)
    requires u in s.b.threads && s.b.threads[u] == BM.ReadRecord(BM.GenerateInvoice(id), 0)
    ensures Reaches(s, z) && Inv(z) && z == s.(b := z.b)
    ensures u in z.b.threads && z.b.threads[u].Done? && z.b.threads[u].result.Some?
  {
    var rec, req := s.b.rows[bid], BM.GenerateInvoice(id);
    RecordFound(s, bid);
    hide Inv, Reaches, Step, BM.Step, BM.Goto, BM.FindByReservation;
    ReachesItself(s);
    BillingReads(s.b, u, rec);
    z := NextB(s, s, BM.Read(u, false));
    if rec.status.Calculated? {
      var s1 := z;
      BillingWrites(BM.Goto(s.b, u, BM.WriteBack(req, 0, rec)), u);
      z := NextB(s, s1, BM.Update(u, Applied, 0));
    }
    GotoIsThere(s.b, u, BM.Done(req, Some(rec)));
  }

  lemma RecordFound(s: System, bid: nat)
    requires Inv(s) && bid in s.b.rows
    ensures s.b.rows[bid].id == bid
    ensures BM.FindByReservation(s.b.rows, s.b.rows[bid].reservationId) == Some(s.b.rows[bid])
  {
    BillingIds(s, bid);
    BI.FoundIsUnique(s.b.rows, s.b.rows[bid]);
  }

  lemma GotoIsThere(b: BM.State, u: nat, th: BM.Thread)
    ensures u in BM.Goto(b, u, th).threads && BM.Goto(b, u, th).threads[u] == th
    ensures BM.Goto(b, u, th).rows == b.rows
  {
  }

  /** What a read leads to, when the record is the one of the request's reservation. */
  lemma BillingReads(b: BM.State, u: nat, rec: BM.Record)
    requires u in b.threads && b.threads[u].ReadRecord?
    requires BM.FindByReservation(b.rows, b.threads[u].req.reservationId) == Some(rec)
    ensures var th := b.threads[u];
            && (BM.AlreadyDone(th.req, rec) ==> BM.Step(b, BM.Read(u, false)) == BM.Goto(b, u, BM.Done(th.req, Some(rec))))
            && (!BM.AlreadyDone(th.req, rec) && BM.Applies(th.req, rec) ==>
                  BM.Step(b, BM.Read(u, false)) == BM.Goto(b, u, BM.WriteBack(th.req, th.attempt, rec)))
  {
    hide BM.FindByReservation, BM.AlreadyDone, BM.Applies, BM.Goto;
  }

  /** A write whose version still matches succeeds. */
  lemma BillingWrites(b: BM.State, u: nat)
    requires u in b.threads && b.threads[u].WriteBack? && BM.Matches(b.rows, b.threads[u].base)
    ensures var th, b' := b.threads[u], BM.Step(b, BM.Update(u, Applied, 0));
            && u in b'.threads && b'.threads[u].Done? && b'.threads[u].result.Some?
            && th.base.id in b'.rows && b'.rows[th.base.id].reservationId == b.rows[th.base.id].reservationId
            && (th.req.CalculateFee? ==> b'.rows[th.base.id].status.Calculated?)
  {
  }

  lemma BillingBegins(b: BM.State, u: nat, req: BM.Request)
    requires u !in b.threads && !req.StartBilling?
    ensures BM.Step(b, BM.Begin(u, req)) == BM.Goto(b, u, BM.ReadRecord(req, 0))
  {
  }

  lemma InvoiceAgain(s: System, t: nat, copy: RM.Reservation, bid: nat) returns (z: System)
    requires Inv(s) && t in s.r.threads && s.r.threads[t] == RM.CompleteInvoice(copy)
    requires t !in s.billingCalls && t !in s.paymentCalls && FeeIn(s.b.rows, bid, copy.id)
    ensures Reaches(s, z) && Inv(z) && z.r.rows == s.r.rows && z.p == s.p && t !in z.paymentCalls
    ensures t in z.r.threads && z.r.threads[t].CompletePay? && z.r.threads[t].copy == copy
  {
    hide Inv, Reaches, BM.Step;
    ReachesItself(s);
    var u := Unused(s.b.threads);
    var s1 := NextCallBilling(s, s, t, u);
    GotoIsThere(s.b, u, BM.ReadRecord(BM.GenerateInvoice(copy.id), 0));
    var s2 := Invoices(s1, u, copy.id, bid);
    ReachesOn(s, s1, s2);
    assert BillingResult(s2, t).Some?;
    z := Next(s, s2, BillingAnswer(t, true));
  }

  /** A payment request, alone, finds the payment of its key or makes one. */
  lemma Pays(s: System, u: nat, req: PM.PayRequest) returns (z: System)
    requires Inv(s) && u in s.p.threads && s.p.threads[u] == PM.PayLookup(req)
    ensures Reaches(s, z) && Inv(z) && z == s.(p := z.p)
    ensures u in z.p.threads && z.p.threads[u].PayDone? && z.p.threads[u].result.Some?
  {
    hide Inv, Reaches, Step;
    ReachesItself(s);
    z := NextP(s, s, PM.Lookup(u, false));
    if PM.FindByKey(s.p.rows, req.key).None? {
      var s1 := z;
      assert s1.p == PM.Goto(s.p, u, PM.PayInsert(req));
      var id := Unused(s.p.rows);
      var s2 := NextP(s, s1, PM.Insert(u, id, Applied, 0));
      z := ChargesNew(s2, u, req, PM.NewPayment(req, id, 0));
      ReachesOn(s, s2, z);
    }
  }

  lemma ChargesNew(s: System, u: nat, req: PM.PayRequest, payment: PM.Payment) returns (z: System)
    requires Inv(s) && u in s.p.threads && s.p.threads[u] == PM.PayCharge(req, payment, 0)
    ensures Reaches(s, z) && Inv(z) && z == s.(p := z.p)
    ensures u in z.p.threads && z.p.threads[u].PayDone? && z.p.threads[u].result.Some?
  {
    hide Inv, Reaches, Step;
    ReachesItself(s);
    var ref := Unused(s.p.ledger);
    var s1 := NextP(s, s, PM.Charge(u, PM.Accepted(ref)));
    assert s1.p.threads[u] == PM.PayMarkSuccess(req, payment, ref);
    z := NextP(s, s1, PM.MarkSuccess(u, Applied, 0));
  }

  lemma PayInvoice(s: System, t: nat) returns (z: System)
    requires Inv(s) && t in s.r.threads && s.r.threads[t].CompletePay? && t !in s.paymentCalls
    requires Pricing.AmountAccepted(s.r.threads[t].bill.totalAmount)
    ensures Reaches(s, z) && Inv(z) && z.r.rows == s.r.rows
    ensures t in z.r.threads && z.r.threads[t].CompleteTxn? && z.r.threads[t].copy == s.r.threads[t].copy
  {
    hide Inv, Reaches, RM.Step;
    ReachesItself(s);
    var u := Unused(s.p.threads);
    var req := ChargeRequest(s.r.threads[t]).value;
    var s1 := Next(s, s, CallPayment(t, u));
    assert s1.p == PM.Goto(s.p, u, PM.PayLookup(req));
    var s2 := Pays(s1, u, req);
    ReachesOn(s, s1, s2);
    assert PaymentResult(s2, t).Some?;
    E2E.RepliesMove(s2.r, t, None, PaymentResult(s2, t));
    z := Next(s, s2, PaymentAnswer(t, true));
  }

  lemma Finish(s: System, t: nat, id: string) returns (z: System)
    requires Inv(s) && CheckedOut(s, id)
    requires t in s.r.threads && s.r.threads[t].CompleteTxn? && s.r.threads[t].copy.id == id
    ensures Reaches(s, z) && z.p == s.p && id in z.r.rows && z.r.rows[id].status.Completed?
  {
    RowId(s, id);
    hide Inv, Reaches, Step, RM.Step;
    ReachesItself(s);
    Completes(s.r, t, id);
    z := NextR(s, s, RM.Complete(t, Applied));
  }

  lemma Completes(r: RM.State, t: nat, id: string)
    requires id in r.rows && r.rows[id].id == id && r.rows[id].status.CheckedOut?
    requires t in r.threads && r.threads[t].CompleteTxn? && r.threads[t].copy.id == id
    ensures var r' := RM.Step(r, RM.Complete(t, Applied)); id in r'.rows && r'.rows[id].status.Completed?
  {
  }

  /** With its fee known and payable, a checked-out reservation can be completed. */
  lemma CanComplete(s: System, id: string, bid: nat) returns (z: System)
    requires Inv(s) && CheckedOut(s, id) && FeeIn(s.b.rows, bid, id) && Payable(s.r.rows[id])
    ensures Reaches(s, z) && id in z.r.rows && z.r.rows[id].status.Completed?
  {
    hide Inv, Reaches;
    RowId(s, id);
    var row := s.r.rows[id];
    var t, s1 := ReadAgain(s, id);
    var s2 := InvoiceAgain(s1, t, row, bid);
    ReachesOn(s, s1, s2);
    BillIsStayTotal(s2, t, id);
    var s3 := PayInvoice(s2, t);
    ReachesOn(s, s2, s3);
    z := Finish(s3, t, id);
    ReachesOn(s, s3, z);
  }

  /** The bill that CompleteCheckout goes by is over the stay's total. */
  lemma BillIsStayTotal(s: System, t: nat, id: string)
    requires Inv(s) && id in s.r.rows && t in s.r.threads
    requires s.r.threads[t].CompletePay? && s.r.threads[t].copy.id == id
    ensures s.r.rows[id].checkedInAt.Some? && s.r.rows[id].checkedOutAt.Some?
    ensures s.r.threads[t].bill.totalAmount
            == PricingLaws.StayTotal(s.r.rows[id].checkedInAt.value, s.r.rows[id].checkedOutAt.value)
  {
    hide RI.Inv, BI.Inv, PI.Inv, TablesLinked, CallsLinked, BThreadLinked, PThreadLinked;
    assert RThreadLinked(s.b.rows, s.p.rows, s.r.threads[t]);
    E2E.InvoiceIsOwn(s, id, s.r.threads[t].bill.recordId);
  }

  // ------------------------------------------------------------------
  // A fee on its way can arrive
  // ------------------------------------------------------------------

  /** The calculation reads the pending record, or has read it already, and writes it. */
  lemma CalculationCommits(s: System, u: nat, id: string) returns (z: System)
    requires Inv(s) && CheckedOut(s, id) && !FeeKnown(s.b.rows, id)
    requires u in s.b.threads && s.b.threads[u].WriteBack? && Calculating(s.b.threads[u], id)
    ensures Reaches(s, z) && Inv(z) && z.r == s.r && z.p == s.p && FeeKnown(z.b.rows, id)
  {
    var th := s.b.threads[u];
    PendingVersion(s, u);
    hide Inv, Reaches, Step, FeeKnown, BM.Step;
    ReachesItself(s);
    BillingWrites(s.b, u);
    z := NextB(s, s, BM.Update(u, Applied, 0));
    FeeMakesKnown(z.b.rows, th.base.id, id);
  }

  /** Pending records are at version 0, so a copy of one is the record itself. */
  lemma PendingVersion(s: System, u: nat)
    requires Inv(s) && u in s.b.threads && s.b.threads[u].WriteBack? && s.b.threads[u].req.CalculateFee?
    requires !FeeKnown(s.b.rows, s.b.threads[u].req.reservationId)
    ensures var base := s.b.threads[u].base;
            BM.Matches(s.b.rows, base) && s.b.rows[base.id] == base && base.reservationId == s.b.threads[u].req.reservationId
  {
    hide RI.Inv, PI.Inv, ThreadsLinked, CallsLinked, BI.Unique, BI.RowsOk, RowLinked, OwnPay, FeeKnown;
    var th := s.b.threads[u];
    assert BI.ThreadOk(s.b.rows, th);
    assert RecordLinked(s.r.rows, s.b.rows[th.base.id]);
    if !s.b.rows[th.base.id].status.Pending? {
      FeeMakesKnown(s.b.rows, th.base.id, th.req.reservationId);
    }
  }

  lemma CalculationReads(s: System, u: nat, id: string) returns (z: System)
    requires Inv(s) && CheckedOut(s, id) && !FeeKnown(s.b.rows, id)
    requires u in s.b.threads && s.b.threads[u].ReadRecord? && Calculating(s.b.threads[u], id)
    ensures Reaches(s, z) && Inv(z) && z.r == s.r && z.p == s.p && FeeKnown(z.b.rows, id)
  {
    var th := s.b.threads[u];
    var bid := RecordExists(s, id);
    var rec := s.b.rows[bid];
    if !rec.status.Pending? {
      FeeMakesKnown(s.b.rows, bid, id);
    }
    RecordFound(s, bid);
    hide Inv, Reaches, Step, FeeKnown, BM.Step, BM.Goto, BM.FindByReservation;
    ReachesItself(s);
    BillingReads(s.b, u, rec);
    GotoIsThere(s.b, u, BM.WriteBack(th.req, th.attempt, rec));
    var s1 := NextB(s, s, BM.Read(u, false));
    z := CalculationCommits(s1, u, id);
    ReachesOn(s, s1, z);
  }

  lemma FeeArrives(s: System, id: string) returns (z: System)
    requires Inv(s) && CheckedOut(s, id) && !FeeKnown(s.b.rows, id) && FeeOnItsWay(s, id)
    ensures Reaches(s, z) && Inv(z) && z.r == s.r && z.p == s.p && FeeKnown(z.b.rows, id)
  {
    hide Reaches, FeeKnown;
    if u :| u in s.b.threads && Calculating(s.b.threads[u], id) {
      hide Inv;
      if s.b.threads[u].ReadRecord? {
        z := CalculationReads(s, u, id);
      } else {
        z := CalculationCommits(s, u, id);
      }
    } else {
      var t :| WillAsk(s, t, id);
      z := AsksForFee(s, t, id);
    }
  }

  lemma AsksForFee(s: System, t: nat, id: string) returns (z: System)
    requires Inv(s) && CheckedOut(s, id) && !FeeKnown(s.b.rows, id) && WillAsk(s, t, id)
    ensures Reaches(s, z) && Inv(z) && z.r == s.r && z.p == s.p && FeeKnown(z.b.rows, id)
  {
    hide Inv, Reaches, FeeKnown, BM.Step, BM.Goto;
    CheckOutHasTimes(s, t);
    ReachesItself(s);
    var u := Unused(s.b.threads);
    var req := BillingRequest(s.r.threads[t]).value;
    GotoIsThere(s.b, u, BM.ReadRecord(req, 0));
    var s1 := NextCallBilling(s, s, t, u);
    z := CalculationReads(s1, u, id);
    ReachesOn(s, s1, z);
  }

  lemma CheckOutHasTimes(s: System, t: nat)
    requires Inv(s) && t in s.r.threads && s.r.threads[t].CheckOutFee?
    ensures BillingRequest(s.r.threads[t]).Some? && BillingRequest(s.r.threads[t]).value.CalculateFee?
  {
    hide RI.RowsOk, RI.KeysUnique, RI.SpotsOk, BI.Inv, PI.Inv, TablesLinked, ThreadsLinked, CallsLinked;
    assert RI.ThreadOk(s.r.rows, s.r.spots, s.r.threads[t]);
  }

  // ------------------------------------------------------------------
  // The theorem
  // ------------------------------------------------------------------

  lemma RowsMove(s: System, a: Action, id: string)
    requires Inv(s) && id in s.r.rows
    ensures id in Step(s, a).r.rows && RI.Later(s.r.rows[id], Step(s, a).r.rows[id])
  {
    hide RI.Inv, BI.Inv, PI.Inv, TablesLinked, ThreadsLinked, CallsLinked, RM.Step, RI.Later, BM.Step, PM.Step, BillingResult,
         PaymentResult, AwaitsBilling, AwaitsPayment, BillingRequest, ChargeRequest;
    RT.EveryChangeIsAnEdge(s.r, RM.Tick(0), id);
    TickIsNothing(s.r);
    match a
    case R(ra) => RT.EveryChangeIsAnEdge(s.r, ra, id);
    case BillingAnswer(t, ok) =>
      RT.EveryChangeIsAnEdge(s.r, RM.BillingReply(t, if ok then BillingResult(s, t) else None), id);
    case PaymentAnswer(t, ok) =>
      RT.EveryChangeIsAnEdge(s.r, RM.PaymentReply(t, if ok then PaymentResult(s, t) else None), id);
    case _ =>
  }

  lemma TickIsNothing(r: RM.State)
    ensures RM.Step(r, RM.Tick(0)) == r
  {
  }

  lemma {:induction false} RowsMoveOn(s: System, more: seq<Action>, id: string)
    requires Inv(s) && id in s.r.rows
    ensures id in Run(s, more).r.rows && RI.Later(s.r.rows[id], Run(s, more).r.rows[id])
    decreases |more|
  {
    hide Inv, Step;
    if more != [] {
      E2E.StepInv(s, more[0]);
      RowsMove(s, more[0], id);
      RowsMoveOn(Step(s, more[0]), more[1..], id);
      hide RI.RowShape;
    }
  }

  lemma CompletedWasPayable(s: System, more: seq<Action>, id: string)
    requires Inv(s) && CheckedOut(s, id)
    requires id in Run(s, more).r.rows && Run(s, more).r.rows[id].status.Completed?
    ensures Payable(s.r.rows[id])
    ensures FeeKnown(s.b.rows, id) || FeeOnItsWay(s, id)
  {
    var z := Run(s, more);
    CheckedOutTimes(s, id);
    hide Inv, FeeKnown, FeeOnItsWay, Run;
    E2E.RunInv(s, more);
    RowsMoveOn(s, more, id);
    var bid, pid := E2E.CompletedIsPaid(z, id);
    if !FeeKnown(s.b.rows, id) && !FeeOnItsWay(s, id) {
      StuckForEver(s, more, id);
    }
  }

  lemma CheckedOutTimes(s: System, id: string)
    requires Inv(s) && CheckedOut(s, id)
    ensures s.r.rows[id].checkedInAt.Some? && s.r.rows[id].checkedOutAt.Some?
  {
    assert RI.RowShape(s.r.rows[id], s.r.now);
  }

  lemma CompletesSomehow(s: System, id: string) returns (more: seq<Action>)
    requires Inv(s) && CheckedOut(s, id) && Payable(s.r.rows[id]) && (FeeKnown(s.b.rows, id) || FeeOnItsWay(s, id))
    ensures var z := Run(s, more); id in z.r.rows && z.r.rows[id].status.Completed?
  {
    hide Inv, FeeOnItsWay, Payable, Run;
    ReachesItself(s);
    var s1 := s;
    if !FeeKnown(s.b.rows, id) {
      s1 := FeeArrives(s, id);
    }
    var bid :| FeeIn(s1.b.rows, bid, id);
    var z := CanComplete(s1, id, bid);
    ReachesOn(s, s1, z);
    more :| Run(s, more) == z;
  }

  /** In every reachable state: some continuation completes a checked-out reservation
      if and only if the payment service accepts its total and its fee has been
      calculated or a calculation is still on its way. */
  lemma CompletionPossibleIff(s0: System, schedule: seq<Action>, id: string)
    requires IsInit(s0) && CheckedOut(Run(s0, schedule), id)
    ensures var s := Run(s0, schedule);
            (exists more :: CompletedBy(s, more, id))
            <==> Payable(s.r.rows[id]) && (FeeKnown(s.b.rows, id) || FeeOnItsWay(s, id))
  {
    hide Inv, FeeOnItsWay, FeeKnown, Payable;
    E2E.InitInv(s0);
    E2E.RunInv(s0, schedule);
    var s := Run(s0, schedule);
    if Payable(s.r.rows[id]) && (FeeKnown(s.b.rows, id) || FeeOnItsWay(s, id)) {
      var more := CompletesSomehow(s, id);
      assert CompletedBy(s, more, id);
    }
    forall more | CompletedBy(s, more, id)
      ensures Payable(s.r.rows[id]) && (FeeKnown(s.b.rows, id) || FeeOnItsWay(s, id))
    {
      CompletedWasPayable(s, more, id);
    }
  }
}
