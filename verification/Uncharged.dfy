/** What a completed reservation does not say: that anything was charged. A charge that
    fails three times is answered like one that succeeds, with a payment whose status
    the reservation service does not look at. */
module Uncharged {
  import opened Wrappers
  import opened ParkingSystem
  import opened EndToEnd
  import opened Completion
  import opened Serving
  import E2E = EndToEndTheorems
  import Pricing
  import RMod = ReservationModel
  import RM = ReservationMachine
  import PM = PaymentMachine

  /** The gateway declines three times; the request still answers with a payment. */
  lemma DeclinesThrice(p: PM.State, u: nat, req: PM.PayRequest, id: nat)
    requires u in p.threads && p.threads[u] == PM.PayInsert(req) && id !in p.rows && !PM.KeyTaken(p.rows, req.key)
    ensures var p1 := PM.Step(p, PM.Insert(u, id, Applied, 0));
            var p2 := PM.Step(p1, PM.Charge(u, PM.Declined));
            var p3 := PM.Step(p2, PM.Charge(u, PM.Declined));
            var p4 := PM.Step(p3, PM.Charge(u, PM.Declined));
            var p5 := PM.Step(p4, PM.MarkFailed(u, Applied, 0));
            && u in p5.threads && p5.threads[u].PayDone? && p5.threads[u].result.Some?
            && p5.ledger == p.ledger && p5.rows.Keys == p.rows.Keys + {id} && p5.rows[id].key == req.key
            && forall i :: i in p.rows ==> p5.rows[i] == p.rows[i]
  {
    hide PM.KeyTaken;
    var row := PM.NewPayment(req, id, 0);
    var p1 := PM.Step(p, PM.Insert(u, id, Applied, 0));
    assert p1 == PM.Goto(p.(rows := p.rows[id := row]), u, PM.PayCharge(req, row, 0));
    var p2 := PM.Step(p1, PM.Charge(u, PM.Declined));
    assert p2 == PM.Goto(p1, u, PM.PayCharge(req, row, 1));
    var p3 := PM.Step(p2, PM.Charge(u, PM.Declined));
    assert p3 == PM.Goto(p2, u, PM.PayCharge(req, row, 2));
    var p4 := PM.Step(p3, PM.Charge(u, PM.Declined));
    assert p4 == PM.Goto(p3, u, PM.PayMarkFailed(req, row, false));
  }

  ghost predicate SameOtherKeys(rows: map<nat, PM.Payment>, rows': map<nat, PM.Payment>, key: string) {
    forall other :: other != key ==> (PM.KeyTaken(rows', other) <==> PM.KeyTaken(rows, other))
  }

  lemma OneMoreKey(rows: map<nat, PM.Payment>, rows': map<nat, PM.Payment>, id: nat)
    requires id !in rows && rows'.Keys == rows.Keys + {id} && forall i :: i in rows ==> rows'[i] == rows[i]
    ensures SameOtherKeys(rows, rows', rows'[id].key)
  {
    forall other | other != rows'[id].key && PM.KeyTaken(rows, other)
      ensures PM.KeyTaken(rows', other)
    {
      var i :| i in rows && rows[i].key == other;
      assert i in rows' && rows'[i].key == other;
    }
  }

  /** A payment request for a new key, every attempt of which is declined. */
  lemma FailsToPay(s: System, u: nat, req: PM.PayRequest) returns (z: System)
    requires Inv(s) && u in s.p.threads && s.p.threads[u] == PM.PayLookup(req) && !PM.KeyTaken(s.p.rows, req.key)
    ensures Reaches(s, z) && Inv(z) && z == s.(p := z.p)
    ensures u in z.p.threads && z.p.threads[u].PayDone? && z.p.threads[u].result.Some?
    ensures z.p.ledger == s.p.ledger && SameOtherKeys(s.p.rows, z.p.rows, req.key)
  {
    hide Inv, Reaches, Step, PM.Step, PM.KeyTaken, SameOtherKeys;
    var id := Unused(s.p.rows);
    MissesKey(s.p, u, req);
    ReachesItself(s);
    var s1 := NextP(s, s, PM.Lookup(u, false));
    DeclinesThrice(s1.p, u, req, id);
    var s2 := NextP(s, s1, PM.Insert(u, id, Applied, 0));
    var s3 := NextP(s, s2, PM.Charge(u, PM.Declined));
    var s4 := NextP(s, s3, PM.Charge(u, PM.Declined));
    var s5 := NextP(s, s4, PM.Charge(u, PM.Declined));
    z := NextP(s, s5, PM.MarkFailed(u, Applied, 0));
    OneMoreKey(s.p.rows, z.p.rows, id);
  }

  lemma MissesKey(p: PM.State, u: nat, req: PM.PayRequest)
    requires u in p.threads && p.threads[u] == PM.PayLookup(req) && !PM.KeyTaken(p.rows, req.key)
    ensures PM.Step(p, PM.Lookup(u, false)) == PM.Goto(p, u, PM.PayInsert(req))
  {
  }

  /** The waiting request goes on as if it had been paid. */
  lemma GoesOnUnpaid(s: System, t: nat) returns (z: System, pid: nat)
    requires Inv(s) && t in s.r.threads && t !in s.paymentCalls
    requires ChargeRequest(s.r.threads[t]).Some? && !PM.KeyTaken(s.p.rows, ChargeRequest(s.r.threads[t]).value.key)
    ensures Reaches(s, z) && Inv(z) && z.r == RM.Goto(s.r, t, RM.AfterPayment(s.r.threads[t], Some(pid)))
    ensures z.p.ledger == s.p.ledger && SameOtherKeys(s.p.rows, z.p.rows, ChargeRequest(s.r.threads[t]).value.key)
  {
    hide Inv, Reaches, RM.Step, SameOtherKeys, PM.KeyTaken;
    var u := Unused(s.p.threads);
    ReachesItself(s);
    var req := ChargeRequest(s.r.threads[t]).value;
    var s1 := Next(s, s, CallPayment(t, u));
    assert s1.p == PM.Goto(s.p, u, PM.PayLookup(req));
    var s2 := FailsToPay(s1, u, req);
    ReachesOn(s, s1, s2);
    assert PaymentResult(s2, t).Some?;
    pid := PaymentResult(s2, t).value;
    E2E.RepliesMove(s2.r, t, None, PaymentResult(s2, t));
    z := Next(s, s2, PaymentAnswer(t, true));
  }

  lemma NoKeys(rows: map<nat, PM.Payment>, key: string)
    requires rows == map[]
    ensures !PM.KeyTaken(rows, key)
  {
  }

  lemma ConfirmsUnpaid(s: System, id: string, spot: nat) returns (z: System)
    requires Inv(s) && HasStatus(s, id, RMod.WaitingPayment, spot) && s.p.rows == map[]
    ensures Reaches(s, z) && Inv(z) && HasStatus(z, id, RMod.Confirmed, spot)
    ensures z.p.ledger == s.p.ledger && !PM.KeyTaken(z.p.rows, CheckoutKey(id))
  {
    hide Inv, Reaches, Step, RM.Step, PM.KeyTaken;
    PaymentKeyNamesReservation(id);
    NoKeys(s.p.rows, BOOKING_PAYMENT_PREFIX + id);
    NoKeys(s.p.rows, CheckoutKey(id));
    RowId(s, id);
    var t, s1 := CanBill(s, id);
    var s2, pid := GoesOnUnpaid(s1, t);
    ReachesOn(s, s1, s2);
    Confirms(s2.r, t, id);
    z := NextR(s, s2, RM.Confirm(t, Applied));
  }

  lemma CompletesUnpaid(s: System, id: string) returns (z: System)
    requires Inv(s) && CheckedOut(s, id) && FeeKnown(s.b.rows, id) && Payable(s.r.rows[id])
    requires !PM.KeyTaken(s.p.rows, CheckoutKey(id))
    ensures Reaches(s, z) && id in z.r.rows && z.r.rows[id].status.Completed? && z.p.ledger == s.p.ledger
  {
    hide Inv, Reaches, Step, PM.KeyTaken;
    RowId(s, id);
    var bid :| FeeIn(s.b.rows, bid, id);
    var t, s1 := ReadAgain(s, id);
    var s2 := InvoiceAgain(s1, t, s.r.rows[id], bid);
    ReachesOn(s, s1, s2);
    BillIsStayTotal(s2, t, id);
    var s3, pid := GoesOnUnpaid(s2, t);
    ReachesOn(s, s2, s3);
    z := Finish(s3, t, id);
    ReachesOn(s, s3, z);
  }

  /** A run to a checked-out reservation with a payable fee, and no charge so far. */
  lemma ChecksOutUnpaid(s: System, spot: nat) returns (id: string, z: System)
    requires IsInit(s) && spot in s.r.spots
    ensures Reaches(s, z) && Inv(z) && CheckedOut(z, id) && FeeKnown(z.b.rows, id) && Payable(z.r.rows[id])
    ensures z.p.ledger == map[] && !PM.KeyTaken(z.p.rows, CheckoutKey(id))
  {
    E2E.InitInv(s);
    hide Inv, Reaches, PM.KeyTaken, FeeKnown, FeeOnItsWay, Payable;
    var s1, s2, s3;
    id, s1 := CanCreate(s, spot);
    s2 := ConfirmsUnpaid(s1, id, spot);
    ReachesOn(s, s1, s2);
    s3 := CanCheckOut(s2, id, spot);
    ReachesOn(s, s2, s3);
    z := s3;
    if !FeeKnown(s3.b.rows, id) {
      z := FeeArrives(s3, id);
      ReachesOn(s, s3, z);
    }
  }

  /** With any spot at all there is a run in which a reservation is confirmed and
      completed, and the gateway has never accepted a charge. */
  lemma CompletedWithoutCharge(s: System, spot: nat)
    requires IsInit(s) && spot in s.r.spots
    ensures exists more, id :: CompletedBy(s, more, id) && Run(s, more).p.ledger == map[]
  {
    hide Inv, Reaches, Run, PM.KeyTaken, FeeKnown, Payable;
    var id, s1 := ChecksOutUnpaid(s, spot);
    var z := CompletesUnpaid(s1, id);
    var more := Reached(s, s1, z);
    assert CompletedBy(s, more, id);
  }

  lemma Reached(s: System, s1: System, z: System) returns (more: seq<Action>)
    requires Reaches(s, s1) && Reaches(s1, z)
    ensures Run(s, more) == z
  {
    ReachesOn(s, s1, z);
    more :| Run(s, more) == z;
  }
}
