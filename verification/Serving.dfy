/** What stays possible, whatever has happened: every free spot can serve a new
    reservation to the end. And what can go wrong: a reservation whose fee is not
    asked for after its check-out keeps its spot for ever. */
module Serving {
  import opened Wrappers
  import opened ParkingSystem
  import opened EndToEnd
  import opened Completion
  import E2E = EndToEndTheorems
  import Pricing
  import PricingLaws
  import RMod = ReservationModel
  import RM = ReservationMachine
  import RI = ReservationInvariant
  import BI = BillingInvariant
  import BM = BillingMachine
  import PI = PaymentInvariant
  import PM = PaymentMachine

  // ------------------------------------------------------------------
  // Something fresh
  // ------------------------------------------------------------------

  lemma {:induction false} LengthBound(strings: set<string>) returns (n: nat)
    ensures forall x :: x in strings ==> |x| < n
  {
    if strings == {} {
      n := 0;
    } else {
      var x :| x in strings;
      var m := LengthBound(strings - {x});
      assert forall y :: y in strings ==> y == x || y in strings - {x};
      n := if |x| < m then m else |x| + 1;
    }
  }

  lemma FreshString(strings: set<string>) returns (x: string)
    ensures x !in strings
  {
    var n := LengthBound(strings);
    x := seq(n, i => 'x');
  }

  /** A driver, a reservation id and a key that no row has. */
  lemma FreshRequest(rows: RM.Rows) returns (driver: nat, id: string, key: string)
    ensures id !in rows && !RM.KeyTaken(rows, key) && !RM.DriverIndexed(rows, driver)
  {
    id := FreshString(rows.Keys);
    var keys := set i | i in rows :: rows[i].key;
    key := FreshString(keys);
    var drivers := set i | i in rows :: rows[i].driverId;
    driver := Bound(drivers);
    forall i | i in rows
      ensures rows[i].key != key && rows[i].driverId != driver
    {
      assert rows[i].key in keys && rows[i].driverId in drivers;
    }
  }

  // ------------------------------------------------------------------
  // Create
  // ------------------------------------------------------------------

  predicate HasStatus(s: System, id: string, st: RMod.Status, spot: nat) {
    id in s.r.rows && s.r.rows[id].status == st && s.r.rows[id].spotId == spot
  }

  lemma Creates(r: RM.State, t: nat, req: RM.CreateRequest, id: string)
    requires t in r.threads && r.threads[t] == RM.CreateTxn(req, req.spotId, r.now) && req.mode.UserSelected?
    requires id !in r.rows && RM.CreateVerdict(r, req, req.spotId, true).Inserts?
    ensures var r' := RM.Step(r, RM.Create(t, id, Applied, true));
            r'.rows == r.rows[id := RM.NewReservation(req, id, req.spotId, r.now)]
  {
    hide RM.CreateVerdict;
  }

  lemma PicksAndLocks(r: RM.State, t: nat, req: RM.CreateRequest)
    requires t !in r.threads && req.mode.UserSelected?
    ensures var r1 := RM.Step(r, RM.BeginCreate(t, req));
            var r2 := RM.Step(r1, RM.Lookup(t, true));
            var r3 := RM.Step(r2, RM.Pick(t, None));
            RM.Step(r3, RM.Acquire(t, true)) == RM.Goto(r, t, RM.CreateTxn(req, req.spotId, r.now))
  {
    var r1, r2, r3 := RM.Goto(r, t, RM.CreateLookup(req)), RM.Goto(r, t, RM.CreatePick(req)), RM.Goto(r, t, RM.CreateLock(req, req.spotId));
    assert RM.Step(r, RM.BeginCreate(t, req)) == r1;
    assert r1.threads[t := RM.CreatePick(req)] == r2.threads;
    assert RM.Step(r1, RM.Lookup(t, true)) == r2;
    assert r2.threads[t := RM.CreateLock(req, req.spotId)] == r3.threads;
    assert RM.Step(r2, RM.Pick(t, None)) == r3;
    assert r3.threads[t := RM.CreateTxn(req, req.spotId, r.now)] == r.threads[t := RM.CreateTxn(req, req.spotId, r.now)];
  }

  lemma SpotCanBeBooked(s: System, spot: nat, req: RM.CreateRequest)
    requires Inv(s) && spot in s.r.spots && s.r.spots[spot].status.Available?
    requires req.spotId == spot && req.vehicleType == s.r.spots[spot].vehicleType
    requires !RM.KeyTaken(s.r.rows, req.key) && !RM.DriverIndexed(s.r.rows, req.driverId)
    ensures forall r: RM.State | r.rows == s.r.rows && r.spots == s.r.spots :: RM.CreateVerdict(r, req, spot, true).Inserts?
  {
    hide RI.RowShape, BI.Inv, PI.Inv, TablesLinked, ThreadsLinked, CallsLinked;
    assert !RM.SpotIndexed(s.r.rows, spot);
  }

  lemma CanCreate(s: System, spot: nat) returns (id: string, z: System)
    requires Inv(s) && spot in s.r.spots && s.r.spots[spot].status.Available?
    ensures Reaches(s, z) && Inv(z) && z.p == s.p && id !in s.r.rows && HasStatus(z, id, RMod.WaitingPayment, spot)
  {
    hide Inv, Reaches, Step, RM.Step, RM.CreateVerdict, RM.KeyTaken, RM.DriverIndexed;
    var driver, key;
    driver, id, key := FreshRequest(s.r.rows);
    var req := RM.CreateRequest(driver, s.r.spots[spot].vehicleType, RM.UserSelected, spot, key);
    SpotCanBeBooked(s, spot, req);
    var t, s1 := CanLock(s, req);
    Creates(s1.r, t, req, id);
    z := NextR(s, s1, RM.Create(t, id, Applied, true));
  }

  /** A new request gets as far as its creating transaction. */
  lemma CanLock(s: System, req: RM.CreateRequest) returns (t: nat, z: System)
    requires Inv(s) && req.mode.UserSelected?
    ensures Reaches(s, z) && Inv(z) && t !in s.r.threads
    ensures z == s.(r := RM.Goto(s.r, t, RM.CreateTxn(req, req.spotId, s.r.now)))
  {
    hide Inv, Reaches, Step, RM.Step, RM.Goto;
    t := Unused(s.r.threads);
    PicksAndLocks(s.r, t, req);
    ReachesItself(s);
    var s1 := NextR(s, s, RM.BeginCreate(t, req));
    var s2 := NextR(s, s1, RM.Lookup(t, true));
    var s3 := NextR(s, s2, RM.Pick(t, None));
    z := NextR(s, s3, RM.Acquire(t, true));
  }

  // ------------------------------------------------------------------
  // Confirm
  // ------------------------------------------------------------------

  lemma ReadsWaiting(r: RM.State, t: nat, id: string)
    requires t !in r.threads && id in r.rows && r.rows[id].status.WaitingPayment?
    ensures var r1 := RM.Step(r, RM.BeginConfirm(t, id, None));
            RM.Step(r1, RM.ReadLocked(t, false)) == RM.Goto(r, t, RM.ConfirmBill(r.rows[id]))
  {
    var r1 := RM.Goto(r, t, RM.ConfirmRead(id, None));
    assert RM.Step(r, RM.BeginConfirm(t, id, None)) == r1;
    assert r1.threads[t := RM.ConfirmBill(r.rows[id])] == r.threads[t := RM.ConfirmBill(r.rows[id])];
  }

  /** StartBilling, alone, always ends with a record. */
  lemma Bills(s: System, u: nat, req: BM.Request) returns (z: System)
    requires Inv(s) && u in s.b.threads && req.StartBilling? && s.b.threads[u] == BM.StartByKey(req)
    ensures Reaches(s, z) && Inv(z) && z == s.(b := z.b)
    ensures u in z.b.threads && z.b.threads[u].Done? && z.b.threads[u].result.Some?
  {
    hide Inv, Reaches, Step, BM.Step;
    ReachesItself(s);
    LooksUpKey(s.b, u, req);
    z := NextB(s, s, BM.LookupKey(u, false));
    if BM.FindByKey(s.b.rows, req.key).None? {
      var s1 := z;
      LooksUpReservation(s1.b, u, req);
      z := NextB(s, s1, BM.LookupReservation(u, false));
      if BM.FindByReservation(s1.b.rows, req.reservationId).None? {
        var s2 := z;
        var id := Unused(s2.b.rows);
        InsertsRecord(s2.b, u, req, id);
        z := NextB(s, s2, BM.Insert(u, id, Applied, 0));
      }
    }
  }

  lemma LooksUpKey(b: BM.State, u: nat, req: BM.Request)
    requires u in b.threads && req.StartBilling? && b.threads[u] == BM.StartByKey(req)
    ensures var found := BM.FindByKey(b.rows, req.key);
            BM.Step(b, BM.LookupKey(u, false))
            == BM.Goto(b, u, if found.Some? then BM.Done(req, found) else BM.StartByReservation(req))
  {
  }

  lemma LooksUpReservation(b: BM.State, u: nat, req: BM.Request)
    requires u in b.threads && b.threads[u] == BM.StartByReservation(req)
    ensures var found := BM.FindByReservation(b.rows, req.reservationId);
            BM.Step(b, BM.LookupReservation(u, false))
            == BM.Goto(b, u, if found.Some? then BM.Done(req, found) else BM.StartInsert(req))
  {
  }

  lemma InsertsRecord(b: BM.State, u: nat, req: BM.Request, id: nat)
    requires u in b.threads && req.StartBilling? && b.threads[u] == BM.StartInsert(req) && id !in b.rows
    requires !BM.KeyTaken(b.rows, req.key) && !BM.ReservationTaken(b.rows, req.reservationId)
    ensures var b' := BM.Step(b, BM.Insert(u, id, Applied, 0));
            u in b'.threads && b'.threads[u] == BM.Done(req, Some(BM.NewRecord(req, id, 0)))
  {
  }

  lemma CanBill(s: System, id: string) returns (t: nat, z: System)
    requires Inv(s) && id in s.r.rows && s.r.rows[id].status.WaitingPayment?
    ensures Reaches(s, z) && Inv(z) && z.r.rows == s.r.rows && z.p == s.p && t !in z.paymentCalls
    ensures t in z.r.threads && z.r.threads[t].ConfirmPay? && z.r.threads[t].copy == s.r.rows[id]
  {
    hide Inv, Reaches, Step, RM.Step, BM.Step;
    t := NewCaller(s);
    ReadsWaiting(s.r, t, id);
    ReachesItself(s);
    var s1 := NextR(s, s, RM.BeginConfirm(t, id, None));
    var s2 := NextR(s, s1, RM.ReadLocked(t, false));
    z := GetsBill(s2, t, s.r.rows[id]);
    ReachesOn(s, s2, z);
  }

  lemma GetsBill(s: System, t: nat, copy: RM.Reservation) returns (z: System)
    requires Inv(s) && t in s.r.threads && s.r.threads[t] == RM.ConfirmBill(copy)
    requires t !in s.billingCalls && t !in s.paymentCalls
    ensures Reaches(s, z) && Inv(z) && z.r.rows == s.r.rows && z.p == s.p && t !in z.paymentCalls
    ensures t in z.r.threads && z.r.threads[t].ConfirmPay? && z.r.threads[t].copy == copy
  {
    hide Inv, Reaches, RM.Step;
    var u := Unused(s.b.threads);
    ReachesItself(s);
    var req := BillingRequest(s.r.threads[t]).value;
    var s1 := Next(s, s, CallBilling(t, u));
    var s2 := Bills(s1, u, req);
    ReachesOn(s, s1, s2);
    assert BillingResult(s2, t).Some?;
    E2E.RepliesMove(s2.r, t, BillingResult(s2, t), None);
    z := Next(s, s2, BillingAnswer(t, true));
  }

  lemma GetsPaid(s: System, t: nat) returns (z: System)
    requires Inv(s) && t in s.r.threads && s.r.threads[t].ConfirmPay? && t !in s.paymentCalls
    ensures Reaches(s, z) && Inv(z) && z.r.rows == s.r.rows
    ensures t in z.r.threads && z.r.threads[t].ConfirmTxn? && z.r.threads[t].copy == s.r.threads[t].copy
  {
    hide Inv, Reaches, RM.Step;
    var u := Unused(s.p.threads);
    ReachesItself(s);
    var req := ChargeRequest(s.r.threads[t]).value;
    var s1 := Next(s, s, CallPayment(t, u));
    assert s1.p == PM.Goto(s.p, u, PM.PayLookup(req));
    var s2 := Pays(s1, u, req);
    ReachesOn(s, s1, s2);
    assert PaymentResult(s2, t).Some?;
    E2E.RepliesMove(s2.r, t, None, PaymentResult(s2, t));
    z := Next(s, s2, PaymentAnswer(t, true));
  }

  lemma Confirms(r: RM.State, t: nat, id: string)
    requires id in r.rows && r.rows[id].id == id && r.rows[id].status.WaitingPayment?
    requires t in r.threads && r.threads[t].ConfirmTxn? && r.threads[t].copy == r.rows[id]
    ensures var r' := RM.Step(r, RM.Confirm(t, Applied));
            id in r'.rows && r'.rows[id].status.Confirmed? && r'.rows[id].spotId == r.rows[id].spotId
  {
  }

  lemma CanConfirm(s: System, id: string, spot: nat) returns (z: System)
    requires Inv(s) && HasStatus(s, id, RMod.WaitingPayment, spot)
    ensures Reaches(s, z) && Inv(z) && HasStatus(z, id, RMod.Confirmed, spot)
  {
    hide Inv, Reaches, Step, RM.Step;
    RowId(s, id);
    var t, s1 := CanBill(s, id);
    var s2 := GetsPaid(s1, t);
    ReachesOn(s, s1, s2);
    Confirms(s2.r, t, id);
    z := NextR(s, s2, RM.Confirm(t, Applied));
  }

  // ------------------------------------------------------------------
  // Check in, check out, complete
  // ------------------------------------------------------------------

  lemma Moves(r: RM.State, t: nat, kind: RM.Kind, id: string)
    requires t !in r.threads && id in r.rows && r.rows[id].id == id && RMod.Edge(r.rows[id].status, RM.Target(kind))
    ensures var r1 := RM.Step(r, RM.BeginMove(t, kind, id, None));
            var r2 := RM.Step(r1, RM.Move(t, Applied));
            && id in r2.rows && r2.rows[id] == RM.Moved(kind, r.rows[id], r.now)
            && r2.threads == r.threads[t := RM.AfterMove(kind, r2.rows[id])]
  {
    hide RMod.ValidateTransition, RM.SpotsAfter;
    assert RM.Step(r, RM.BeginMove(t, kind, id, None)) == RM.Goto(r, t, RM.MoveTxn(kind, id, None));
  }

  lemma CanMove(s: System, kind: RM.Kind, id: string) returns (t: nat, z: System)
    requires Inv(s) && id in s.r.rows && RMod.Edge(s.r.rows[id].status, RM.Target(kind))
    ensures Reaches(s, z) && Inv(z) && z.p == s.p && id in z.r.rows && z.r.rows[id] == RM.Moved(kind, s.r.rows[id], s.r.now)
    ensures t in z.r.threads && z.r.threads[t] == RM.AfterMove(kind, z.r.rows[id]) && t !in z.billingCalls
    ensures z.r.now == s.r.now && z.b == s.b && z.billingCalls == s.billingCalls
    ensures forall u :: u in z.r.threads && u != t ==> u in s.r.threads && z.r.threads[u] == s.r.threads[u]
  {
    hide Inv, Reaches, Step, RM.Step, RMod.ValidateTransition, RM.Moved, RM.AfterMove;
    t := NewCaller(s);
    RowId(s, id);
    ReachesItself(s);
    Moves(s.r, t, kind, id);
    ClockStands(s.r, RM.BeginMove(t, kind, id, None));
    var s1 := NextR(s, s, RM.BeginMove(t, kind, id, None));
    ClockStands(s1.r, RM.Move(t, Applied));
    z := NextR(s, s1, RM.Move(t, Applied));
  }

  lemma ClockStands(r: RM.State, a: RM.Action)
    requires a.BeginMove? || a.Move?
    ensures RM.Step(r, a).now == r.now
  {
    hide RMod.ValidateTransition, RM.SpotsAfter, RM.Moved, RM.UpdateReservation;
  }

  /** Checking in and out at once makes a payable stay, with its fee on its way. */
  lemma CanCheckOut(s: System, id: string, spot: nat) returns (z: System)
    requires Inv(s) && HasStatus(s, id, RMod.Confirmed, spot)
    ensures Reaches(s, z) && Inv(z) && z.p == s.p && HasStatus(z, id, RMod.CheckedOut, spot)
    ensures Payable(z.r.rows[id]) && FeeOnItsWay(z, id)
  {
    hide Inv, Reaches;
    RMod.EdgesDescend(RMod.Confirmed, RMod.CheckedIn);
    RMod.EdgesDescend(RMod.CheckedIn, RMod.CheckedOut);
    hide RMod.ValidateTransition;
    var t1, s1 := CanMove(s, RM.CheckIn, id);
    var t2;
    t2, z := CanMove(s1, RM.CheckOut, id);
    ReachesOn(s, s1, z);
    RowId(z, id);
    assert WillAsk(z, t2, id);
    PricingLaws.StayTotalExact(s.r.now, s.r.now);
  }

  /** From every reachable state every free spot can serve a new reservation, from
      its creation to its completion. */
  lemma FreeSpotCanServe(s0: System, schedule: seq<Action>, spot: nat)
    requires IsInit(s0)
    requires var s := Run(s0, schedule); spot in s.r.spots && s.r.spots[spot].status.Available?
    ensures var s := Run(s0, schedule);
            exists more, id :: id !in s.r.rows && CompletedBy(s, more, id) && Run(s, more).r.rows[id].spotId == spot
  {
    hide Inv, Reaches;
    E2E.InitInv(s0);
    E2E.RunInv(s0, schedule);
    var s := Run(s0, schedule);
    hide Run;
    var id, s1 := CanCreate(s, spot);
    var s2 := CanConfirm(s1, id, spot);
    ReachesOn(s, s1, s2);
    var s3 := CanCheckOut(s2, id, spot);
    ReachesOn(s, s2, s3);
    var last := CompletesSomehow(s3, id);
    RowsMoveOn(s3, last, id);
    var more := Joined(s, s3, last);
    assert CompletedBy(s, more, id);
  }

  lemma Joined(s: System, s1: System, last: seq<Action>) returns (more: seq<Action>)
    requires Reaches(s, s1)
    ensures Run(s, more) == Run(s1, last)
  {
    var first :| Run(s, first) == s1;
    more := first + last;
    RunAppend(s, first, last);
  }

  // ------------------------------------------------------------------
  // But a check-out can strand a reservation
  // ------------------------------------------------------------------

  /** Before it checks out, a reservation has no fee and nobody computes one. */
  lemma NoFeeBeforeCheckOut(s: System, id: string)
    requires Inv(s) && id in s.r.rows && s.r.rows[id].status.CheckedIn?
    ensures !FeeKnown(s.b.rows, id)
    ensures forall u :: u in s.b.threads ==> !Calculating(s.b.threads[u], id)
    ensures forall t :: t in s.r.threads && s.r.threads[t].CheckOutFee? ==> s.r.threads[t].copy.id != id
  {
    hide RI.KeysUnique, RI.SpotsOk, BI.Inv, PI.Inv, CallsLinked, RowLinked, OwnPay, RThreadLinked, PThreadLinked;
    assert RI.RowShape(s.r.rows[id], s.r.now);
    forall bid | bid in s.b.rows && s.b.rows[bid].reservationId == id
      ensures s.b.rows[bid].status.Pending?
    {
      assert RecordLinked(s.r.rows, s.b.rows[bid]);
    }
    forall u | u in s.b.threads
      ensures !Calculating(s.b.threads[u], id)
    {
      assert BThreadLinked(s.r.rows, s.b.rows, s.b.threads[u]);
    }
    forall t | t in s.r.threads && s.r.threads[t].CheckOutFee?
      ensures s.r.threads[t].copy.id != id
    {
      assert RI.ThreadOk(s.r.rows, s.r.spots, s.r.threads[t]);
    }
  }

  /** From every state with a checked-in reservation: it checks out, the call for its
      fee fails, and from then on no continuation completes it. */
  lemma CheckOutCanStrand(s0: System, schedule: seq<Action>, id: string)
    requires IsInit(s0)
    requires var s := Run(s0, schedule); id in s.r.rows && s.r.rows[id].status.CheckedIn?
    ensures var s := Run(s0, schedule);
            exists more :: CheckedOut(Run(s, more), id) && forall later :: !CompletedBy(Run(s, more), later, id)
  {
    hide Inv, Stuck;
    E2E.InitInv(s0);
    E2E.RunInv(s0, schedule);
    var s := Run(s0, schedule);
    hide Run;
    var z := Strands(s, id);
    var more :| Run(s, more) == z;
    forall later
      ensures !CompletedBy(z, later, id)
    {
      StuckForEver(z, later, id);
      StuckIsCheckedOut(Run(z, later), id);
    }
    StuckIsCheckedOut(z, id);
    assert CheckedOut(Run(s, more), id);
  }

  lemma StuckIsCheckedOut(s: System, id: string)
    requires Stuck(s, id)
    ensures CheckedOut(s, id)
  {
  }

  lemma Strands(s: System, id: string) returns (z: System)
    requires Inv(s) && id in s.r.rows && s.r.rows[id].status.CheckedIn?
    ensures Reaches(s, z) && Inv(z) && Stuck(z, id)
  {
    hide Inv, Reaches, FeeKnown, RM.Step;
    NoFeeBeforeCheckOut(s, id);
    RMod.EdgesDescend(RMod.CheckedIn, RMod.CheckedOut);
    hide RMod.ValidateTransition;
    var t, s1 := CanMove(s, RM.CheckOut, id);
    E2E.RepliesMove(s1.r, t, None, None);
    CheckedOutAsks(s1, t, id);
    z := Next(s, s1, BillingAnswer(t, false));
    forall u
      ensures !WillAsk(z, u, id)
    {
    }
  }

  lemma CheckedOutAsks(s: System, t: nat, id: string)
    requires Inv(s) && CheckedOut(s, id) && t in s.r.threads && s.r.threads[t] == RM.AfterMove(RM.CheckOut, s.r.rows[id])
    ensures s.r.threads[t].CheckOutFee?
  {
    hide Inv;
    CheckedOutTimes(s, id);
  }
}
