/** Why a pending payment tells nothing: a request that crashes at the gateway leaves its
    payment pending, charged or not; the next CompleteCheckout finds that payment under
    its key, and goes on. */
module Unsettled {
  import opened Wrappers
  import opened ParkingSystem
  import opened EndToEnd
  import opened Charging
  import opened Settlement
  import opened Completion
  import opened Serving
  import opened Uncharged
  import E2E = EndToEndTheorems
  import RM = ReservationMachine
  import RI = ReservationInvariant
  import BM = BillingMachine
  import BI = BillingInvariant
  import PM = PaymentMachine
  import PI = PaymentInvariant
  import PT = PaymentTheorems

  // ------------------------------------------------------------------
  // The first request crashes
  // ------------------------------------------------------------------

  /** With or without the gateway's acceptance. */
  lemma CrashesPending(p: PM.State, u: nat, req: PM.PayRequest, id: nat, ref: nat, accepted: bool)
    requires u in p.threads && p.threads[u] == PM.PayInsert(req) && id !in p.rows && !PM.KeyTaken(p.rows, req.key)
    requires ref !in p.ledger
    ensures var p1 := PM.Step(p, PM.Insert(u, id, Applied, 0));
            var p2 := if accepted then PM.Step(p1, PM.Charge(u, PM.Accepted(ref))) else p1;
            var p3 := PM.Step(p2, PM.Crash(u));
            && p3.rows == p.rows[id := PM.NewPayment(req, id, 0)]
            && p3.ledger == (if accepted then p.ledger[ref := PM.Txn(id, req.amount, 0)] else p.ledger)
            && p3.threads == p.threads[u := PM.Crashed]
  {
    hide PM.KeyTaken;
    var row := PM.NewPayment(req, id, 0);
    var p1 := PM.Step(p, PM.Insert(u, id, Applied, 0));
    assert p1 == PM.Goto(p.(rows := p.rows[id := row]), u, PM.PayCharge(req, row, 0));
    var p2 := if accepted then PM.Step(p1, PM.Charge(u, PM.Accepted(ref))) else p1;
    assert p2.threads == p.threads[u := p2.threads[u]];
  }

  lemma LeavesPending(s: System, u: nat, req: PM.PayRequest, accepted: bool) returns (z: System, pid: nat)
    requires Inv(s) && u in s.p.threads && s.p.threads[u] == PM.PayLookup(req) && !PM.KeyTaken(s.p.rows, req.key)
    ensures Reaches(s, z) && Inv(z) && z == s.(p := z.p)
    ensures pid in z.p.rows && z.p.rows[pid].key == req.key && z.p.rows[pid].status.Pending?
    ensures if accepted then ChargedForEver(z, pid) else NeverCharged(z, pid)
  {
    hide Inv, Reaches, Step, PM.Step, PM.KeyTaken, ChargedForEver, NeverCharged;
    MissesKey(s.p, u, req);
    ReachesItself(s);
    var s1 := NextP(s, s, PM.Lookup(u, false));
    z, pid := CrashesAtGateway(s1, u, req, accepted);
    ReachesOn(s, s1, z);
  }

  lemma CrashesAtGateway(s: System, u: nat, req: PM.PayRequest, accepted: bool) returns (z: System, pid: nat)
    requires Inv(s) && u in s.p.threads && s.p.threads[u] == PM.PayInsert(req) && !PM.KeyTaken(s.p.rows, req.key)
    ensures Reaches(s, z) && Inv(z) && z == s.(p := z.p)
    ensures pid in z.p.rows && z.p.rows[pid].key == req.key && z.p.rows[pid].status.Pending?
    ensures if accepted then ChargedForEver(z, pid) else NeverCharged(z, pid)
  {
    hide Inv, Reaches, Step, PM.Step, PM.KeyTaken, NotCharged, BeingCharged, ChargedForEver, NeverCharged;
    pid := Unused(s.p.rows);
    NotThere(s, pid);
    var ref := Unused(s.p.ledger);
    CrashesPending(s.p, u, req, pid, ref, accepted);
    ReachesItself(s);
    var s1 := NextP(s, s, PM.Insert(u, pid, Applied, 0));
    if accepted {
      var s2 := NextP(s, s1, PM.Charge(u, PM.Accepted(ref)));
      z := NextP(s, s2, PM.Crash(u));
    } else {
      z := NextP(s, s1, PM.Crash(u));
    }
    PendingFate(s, z, u, pid, ref, accepted);
  }

  /** A fresh payment id is in nobody's hands, and has no charge. */
  lemma NotThere(s: System, pid: nat)
    requires Inv(s) && pid !in s.p.rows
    ensures NotCharged(s.p, pid) && !BeingCharged(s.p, pid)
  {
    forall u | u in s.p.threads && s.p.threads[u].PayCharge?
      ensures s.p.threads[u].copy.id != pid
    {
      assert PI.ThreadOk(s.p.rows, s.p.ledger, s.p.threads[u]);
    }
  }

  lemma PendingFate(s: System, z: System, u: nat, pid: nat, ref: nat, accepted: bool)
    requires Inv(z) && pid in z.p.rows && NotCharged(s.p, pid) && !BeingCharged(s.p, pid) && ref !in s.p.ledger
    requires z.p.threads == s.p.threads[u := PM.Crashed]
    requires z.p.ledger == if accepted then s.p.ledger[ref := PM.Txn(pid, z.p.rows[pid].amount, 0)] else s.p.ledger
    ensures if accepted then ChargedForEver(z, pid) else NeverCharged(z, pid)
  {
    hide RI.Inv, BI.Inv, TablesLinked, ThreadsLinked, CallsLinked, PI.RowsOk, PI.LedgerOk, PI.ThreadsOk, ChargedForEver, NeverCharged;
    OnceOrNot(z.p, pid);
    ChargedForEverIff(z, pid);
    NeverChargedIff(z, pid);
    hide Inv, ChargedOnce;
    if accepted {
      assert ref in PT.ChargeRefs(z.p.ledger, pid);
    } else {
      assert NotCharged(z.p, pid) && !BeingCharged(z.p, pid);
    }
  }

  // ------------------------------------------------------------------
  // The second one finds what it left
  // ------------------------------------------------------------------

  lemma FindsKey(p: PM.State, u: nat, req: PM.PayRequest)
    requires u in p.threads && p.threads[u] == PM.PayLookup(req) && PM.KeyTaken(p.rows, req.key)
    ensures var p' := PM.Step(p, PM.Lookup(u, false));
            && p'.rows == p.rows && u in p'.threads && p'.threads[u].PayDone? && p'.threads[u].result.Some?
  {
  }

  lemma GoesOnKnown(s: System, t: nat) returns (z: System, pid: nat)
    requires Inv(s) && t in s.r.threads && t !in s.paymentCalls
    requires ChargeRequest(s.r.threads[t]).Some? && PM.KeyTaken(s.p.rows, ChargeRequest(s.r.threads[t]).value.key)
    ensures Reaches(s, z) && Inv(z) && z.r == RM.Goto(s.r, t, RM.AfterPayment(s.r.threads[t], Some(pid)))
    ensures z.p.rows == s.p.rows
  {
    hide Inv, Reaches, RM.Step, PM.KeyTaken;
    var u := Unused(s.p.threads);
    ReachesItself(s);
    var req := ChargeRequest(s.r.threads[t]).value;
    var s1 := Next(s, s, CallPayment(t, u));
    assert s1.p == PM.Goto(s.p, u, PM.PayLookup(req));
    FindsKey(s1.p, u, req);
    var s2 := NextP(s, s1, PM.Lookup(u, false));
    assert PaymentResult(s2, t).Some?;
    pid := PaymentResult(s2, t).value;
    E2E.RepliesMove(s2.r, t, None, PaymentResult(s2, t));
    z := Next(s, s2, PaymentAnswer(t, true));
  }

  /** CompleteCheckout by a new request; the payment is there already. */
  lemma CompletesKnown(s: System, id: string) returns (z: System)
    requires Inv(s) && CheckedOut(s, id) && FeeKnown(s.b.rows, id) && Payable(s.r.rows[id])
    requires PM.KeyTaken(s.p.rows, CheckoutKey(id))
    ensures Reaches(s, z) && id in z.r.rows && z.r.rows[id].status.Completed? && z.p.rows == s.p.rows
  {
    hide Inv, Reaches, Step, PM.KeyTaken;
    RowId(s, id);
    var bid :| FeeIn(s.b.rows, bid, id);
    var t, s1 := ReadAgain(s, id);
    var s2 := InvoiceAgain(s1, t, s.r.rows[id], bid);
    ReachesOn(s, s1, s2);
    BillIsStayTotal(s2, t, id);
    var s3, pid := GoesOnKnown(s2, t);
    ReachesOn(s, s2, s3);
    z := Finish(s3, t, id);
    ReachesOn(s, s3, z);
  }

  lemma KnownFee(b: BM.Rows, id: string) returns (bid: nat)
    requires FeeKnown(b, id)
    ensures FeeIn(b, bid, id)
  {
    bid :| FeeIn(b, bid, id);
  }

  lemma InvoiceIsIn(s: System, t: nat)
    requires Inv(s) && t in s.r.threads && s.r.threads[t].CompletePay?
    ensures FeeIn(s.b.rows, s.r.threads[t].bill.recordId, s.r.threads[t].copy.id)
  {
    assert RThreadLinked(s.b.rows, s.p.rows, s.r.threads[t]);
  }

  /** The first CompleteCheckout, whose payment request crashes. */
  lemma FirstTry(s: System, id: string, accepted: bool) returns (z: System, pid: nat)
    requires Inv(s) && CheckedOut(s, id) && FeeKnown(s.b.rows, id) && Payable(s.r.rows[id])
    requires !PM.KeyTaken(s.p.rows, CheckoutKey(id))
    ensures Reaches(s, z) && Inv(z) && z.r.rows == s.r.rows && FeeKnown(z.b.rows, id)
    ensures pid in z.p.rows && z.p.rows[pid].key == CheckoutKey(id) && z.p.rows[pid].status.Pending?
    ensures if accepted then ChargedForEver(z, pid) else NeverCharged(z, pid)
  {
    hide Inv, Reaches, RM.Step, BM.Step, PM.KeyTaken, FeeKnown, ChargedForEver, NeverCharged;
    RowId(s, id);
    var bid := KnownFee(s.b.rows, id);
    var t, s1 := ReadAgain(s, id);
    var s2 := InvoiceAgain(s1, t, s.r.rows[id], bid);
    ReachesOn(s, s1, s2);
    BillIsStayTotal(s2, t, id);
    InvoiceIsIn(s2, t);
    FeeMakesKnown(s2.b.rows, s2.r.threads[t].bill.recordId, id);
    var u := Unused(s2.p.threads);
    var req := ChargeRequest(s2.r.threads[t]).value;
    var s3 := Next(s, s2, CallPayment(t, u));
    assert s3.p == PM.Goto(s2.p, u, PM.PayLookup(req));
    z, pid := LeavesPending(s3, u, req, accepted);
    ReachesOn(s, s3, z);
  }

  // ------------------------------------------------------------------
  // Two runs
  // ------------------------------------------------------------------

  /** The reservation is completed, and its checkout payment pending. */
  ghost predicate CompletedPending(s: System, id: string, pid: nat) {
    && id in s.r.rows && s.r.rows[id].status.Completed?
    && pid in s.p.rows && s.p.rows[pid].key == CheckoutKey(id) && s.p.rows[pid].status.Pending?
  }

  /** What is so for ever remains so. */
  lemma ForEverLasts(s: System, z: System, pid: nat)
    requires Reaches(s, z)
    ensures ChargedForEver(s, pid) ==> ChargedForEver(z, pid)
    ensures NeverCharged(s, pid) ==> NeverCharged(z, pid)
  {
    hide Run, ChargedOnce, NotCharged;
    var first :| Run(s, first) == z;
    forall more
      ensures Run(s, first + more) == Run(z, more)
    {
      RunAppend(s, first, more);
    }
  }

  lemma KeyIsTaken(rows: map<nat, PM.Payment>, pid: nat)
    requires pid in rows
    ensures PM.KeyTaken(rows, rows[pid].key)
  {
  }

  lemma CompletesPending(s: System, spot: nat, accepted: bool) returns (more: seq<Action>, id: string, pid: nat)
    requires IsInit(s) && spot in s.r.spots
    ensures CompletedPending(Run(s, more), id, pid)
    ensures if accepted then ChargedForEver(Run(s, more), pid) else NeverCharged(Run(s, more), pid)
  {
    hide Inv, Reaches, Run, PM.KeyTaken, FeeKnown, Payable, ChargedForEver, NeverCharged;
    var s1, s2, z;
    id, s1 := ChecksOutUnpaid(s, spot);
    s2, pid := FirstTry(s1, id, accepted);
    ReachesOn(s, s1, s2);
    KeyIsTaken(s2.p.rows, pid);
    z := CompletesKnown(s2, id);
    ForEverLasts(s2, z, pid);
    more := Reached(s, s2, z);
  }

  /** With any spot at all there are two runs that complete a reservation and leave its
      checkout payment pending: one has charged for it, for ever, the other never will. */
  lemma PendingTellsNothing(s: System, spot: nat)
    requires IsInit(s) && spot in s.r.spots
    ensures exists more, id, pid :: CompletedPending(Run(s, more), id, pid) && ChargedForEver(Run(s, more), pid)
    ensures exists more, id, pid :: CompletedPending(Run(s, more), id, pid) && NeverCharged(Run(s, more), pid)
  {
    hide Run, CompletedPending, ChargedForEver, NeverCharged;
    var more1, id1, pid1 := CompletesPending(s, spot, true);
    var more2, id2, pid2 := CompletesPending(s, spot, false);
  }
}
