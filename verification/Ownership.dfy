/** Whatever a driver asks for, only that driver's reservations change. */
module Ownership {
  import opened Wrappers
  import opened ReservationModel
  import opened ReservationMachine
  import opened ReservationInvariant
  import RT = ReservationTheorems

  /** The driver on whose behalf a request is made; timers and events have none. */
  function DriverOf(a: Action): Option<nat> {
    match a
    case BeginCreate(_, req) => Some(req.driverId)
    case BeginConfirm(_, _, caller) => caller
    case BeginMove(_, _, _, caller) => caller
    case BeginComplete(_, _, caller) => caller
    case _ => None
  }

  /** The request still acts for driver c, or has answered with c's own reservation. */
  predicate ActsFor(th: Thread, c: nat) {
    match th
    case ConfirmRead(_, caller) => caller == Some(c)
    case MoveTxn(_, _, caller) => caller == Some(c)
    case CompleteRead(_, caller) => caller == Some(c)
    case CreateBill(req, copy) => req.driverId == c && copy.driverId == c
    case CreateUndo(req, copy) => req.driverId == c && copy.driverId == c
    case Done(Some(r)) => r.driverId == c
    case Done(None) => true
    case Crashed => true
    case CreateDone(_, _) => true
    case ConfirmBill(copy) => copy.driverId == c
    case ConfirmPay(copy, _) => copy.driverId == c
    case ConfirmUndo(copy) => copy.driverId == c
    case ConfirmTxn(copy, _) => copy.driverId == c
    case ConfirmRefund(copy, _) => copy.driverId == c
    case CheckInBill(copy) => copy.driverId == c
    case CheckOutFee(copy) => copy.driverId == c
    case CheckOutInvoice(copy) => copy.driverId == c
    case CompleteInvoice(copy) => copy.driverId == c
    case CompletePay(copy, _) => copy.driverId == c
    case CompleteTxn(copy, _, _) => copy.driverId == c
    case CheckOutDone(copy, _, _) => copy.driverId == c
    case _ => th.req.driverId == c
  }

  /** Every row that is new or changed is driver c's, and so is every spot that changed. */
  ghost predicate ChangesOnlyOf(s: State, s': State, c: nat) {
    && (forall id :: id in s'.rows ==> (id in s.rows && s'.rows[id] == s.rows[id]) || s'.rows[id].driverId == c)
    && (forall id :: id in s.rows ==> id in s'.rows && s'.rows[id].driverId == s.rows[id].driverId)
    && s'.spots.Keys == s.spots.Keys
    && (forall sp :: sp in s.spots && s'.spots[sp] != s.spots[sp] ==> HasRowOn(s', c, sp))
  }

  ghost predicate HasRowOn(s: State, c: nat, sp: nat) {
    exists id :: id in s.rows && s.rows[id].driverId == c && s.rows[id].spotId == sp
  }

  ghost predicate StaysOwn(s: State, s': State, t: nat, c: nat) {
    ChangesOnlyOf(s, s', c) && t in s'.threads && ActsFor(s'.threads[t], c)
  }

  // ------------------------------------------------------------------
  // The transactions
  // ------------------------------------------------------------------

  /** A row of the driver is rewritten and its spot's status with it. */
  lemma OwnRowWritten(s: State, t: nat, r: Reservation, st: SpotStatus, th: Thread, c: nat)
    requires r.id in s.rows && s.rows[r.id].driverId == c && r.spotId == s.rows[r.id].spotId && ActsFor(th, c)
    ensures StaysOwn(s, Goto(s.(rows := UpdateReservation(s.rows, r), spots := UpdateSpot(s.spots, r.spotId, st)), t, th), t, c)
    ensures StaysOwn(s, Goto(s.(rows := UpdateReservation(s.rows, r)), t, th), t, c)
  {
    hide ActsFor;
    var s' := Goto(s.(rows := UpdateReservation(s.rows, r), spots := UpdateSpot(s.spots, r.spotId, st)), t, th);
    assert r.id in s'.rows && s'.rows[r.id].driverId == c && s'.rows[r.id].spotId == r.spotId;
  }

  lemma NothingWritten(s: State, t: nat, th: Thread, c: nat)
    requires ActsFor(th, c)
    ensures StaysOwn(s, Goto(s, t, th), t, c)
  {
  }

  lemma MoveIsOwn(s: State, t: nat, write: Write, c: nat)
    requires Inv(s) && t in s.threads && s.threads[t].MoveTxn? && ActsFor(s.threads[t], c)
    ensures var th := s.threads[t]; StaysOwn(s, DoMove(s, t, th.kind, th.id, th.caller, write), t, c)
  {
    hide KeysUnique, SpotsOk, ThreadsOk, RowShape, StaysOwn, Edge, UpdateReservation, UpdateSpot;
    var th := s.threads[t];
    if write.NotApplied? || th.id !in s.rows || s.rows[th.id].driverId != c || !Edge(s.rows[th.id].status, Target(th.kind)) {
      NothingWritten(s, t, Done(None), c);
    } else {
      var r := Moved(th.kind, s.rows[th.id], s.now);
      OwnRowWritten(s, t, r, if th.kind.CheckIn? then Occupied else Available,
                    if write.Applied? then AfterMove(th.kind, r) else Done(None), c);
    }
  }

  lemma UndoIsOwn(s: State, t: nat, copy: Reservation, write: Write, next: Thread, c: nat)
    requires Inv(s) && copy.id in s.rows && s.rows[copy.id].driverId == c && ActsFor(next, c)
    ensures StaysOwn(s, DoUndo(s, t, copy, write, next), t, c)
  {
    hide KeysUnique, SpotsOk, ThreadsOk, RowShape, StaysOwn, ActsFor;
    NothingWritten(s, t, next, c);
    OwnRowWritten(s, t, Moved(Fail, s.rows[copy.id], s.now), Available, next, c);
  }

  lemma ConfirmIsOwn(s: State, t: nat, write: Write, c: nat)
    requires Inv(s) && t in s.threads && s.threads[t].ConfirmTxn? && ActsFor(s.threads[t], c)
    ensures StaysOwn(s, DoConfirm(s, t, s.threads[t].copy, s.threads[t].pid, write), t, c)
  {
    hide KeysUnique, SpotsOk, RowsOk, StaysOwn;
    var copy, pid := s.threads[t].copy, s.threads[t].pid;
    assert ThreadOk(s.rows, s.spots, s.threads[t]);
    NothingWritten(s, t, Done(None), c);
    NothingWritten(s, t, ConfirmRefund(copy, pid), c);
    var r := ConfirmedCopy(copy, s.now);
    OwnRowWritten(s, t, r, Reserved, Done(if write.Applied? then Some(r) else None), c);
  }

  lemma CompleteIsOwn(s: State, t: nat, write: Write, c: nat)
    requires Inv(s) && t in s.threads && s.threads[t].CompleteTxn? && ActsFor(s.threads[t], c)
    ensures var th := s.threads[t]; StaysOwn(s, DoComplete(s, t, th.copy, th.bill, th.pid, write), t, c)
  {
    hide KeysUnique, SpotsOk, StaysOwn, RowShape;
    var th := s.threads[t];
    assert ThreadOk(s.rows, s.spots, th);
    NothingWritten(s, t, Done(None), c);
    var r := s.rows[th.copy.id].(status := Completed, updatedAt := s.now);
    OwnRowWritten(s, t, r, Available, if write.Applied? then CheckOutDone(r, th.bill, Some(th.pid)) else Done(None), c);
  }

  lemma CreateIsOwn(s: State, a: Action, c: nat)
    requires a.Create? && a.t in s.threads && s.threads[a.t].CreateTxn? && ActsFor(s.threads[a.t], c)
    ensures StaysOwn(s, DoCreate(s, a.t, s.threads[a.t], a.id, a.write, a.driverIndexFirst), a.t, c)
  {
    hide CreateVerdict;
    var s' := DoCreate(s, a.t, s.threads[a.t], a.id, a.write, a.driverIndexFirst);
    if a.id in s'.rows && a.id !in s.rows {
      assert s'.rows[a.id].driverId == c && s'.rows[a.id].spotId == s.threads[a.t].spot;
    }
  }

  // ------------------------------------------------------------------
  // Every step
  // ------------------------------------------------------------------

  lemma NoStep(s: State, t: nat, c: nat)
    requires t in s.threads && ActsFor(s.threads[t], c)
    ensures StaysOwn(s, s, t, c)
  {
    NothingWritten(s, t, s.threads[t], c);
    assert Goto(s, t, s.threads[t]) == s;
  }

  lemma CreateStepIsOwn(s: State, a: Action, c: nat)
    requires Inv(s) && a.Create? && a.t in s.threads && ActsFor(s.threads[a.t], c)
    ensures StaysOwn(s, ThreadStep(s, s.threads[a.t], a), a.t, c)
  {
    hide Inv, StaysOwn, DoCreate, DoUndo, DoMove, DoConfirm, DoComplete;
    var th := s.threads[a.t];
    if th.CreateTxn? {
      CreateIsOwn(s, a, c);
    } else {
      NoStep(s, a.t, c);
    }
  }

  lemma MoveStepIsOwn(s: State, a: Action, c: nat)
    requires Inv(s) && a.Move? && a.t in s.threads && ActsFor(s.threads[a.t], c)
    ensures StaysOwn(s, ThreadStep(s, s.threads[a.t], a), a.t, c)
  {
    hide Inv, StaysOwn, DoCreate, DoUndo, DoMove, DoConfirm, DoComplete;
    var th := s.threads[a.t];
    if th.MoveTxn? {
      MoveIsOwn(s, a.t, a.write, c);
    } else {
      NoStep(s, a.t, c);
    }
  }

  lemma ConfirmStepIsOwn(s: State, a: Action, c: nat)
    requires Inv(s) && a.Confirm? && a.t in s.threads && ActsFor(s.threads[a.t], c)
    ensures StaysOwn(s, ThreadStep(s, s.threads[a.t], a), a.t, c)
  {
    hide Inv, StaysOwn, DoCreate, DoUndo, DoMove, DoConfirm, DoComplete;
    var th := s.threads[a.t];
    if th.ConfirmTxn? {
      ConfirmIsOwn(s, a.t, a.write, c);
    } else {
      NoStep(s, a.t, c);
    }
  }

  lemma CompleteStepIsOwn(s: State, a: Action, c: nat)
    requires Inv(s) && a.Complete? && a.t in s.threads && ActsFor(s.threads[a.t], c)
    ensures StaysOwn(s, ThreadStep(s, s.threads[a.t], a), a.t, c)
  {
    hide Inv, StaysOwn, DoCreate, DoUndo, DoMove, DoConfirm, DoComplete;
    var th := s.threads[a.t];
    if th.CompleteTxn? {
      CompleteIsOwn(s, a.t, a.write, c);
    } else {
      NoStep(s, a.t, c);
    }
  }

  lemma UndoStepIsOwn(s: State, a: Action, c: nat)
    requires Inv(s) && a.Undo? && a.t in s.threads && ActsFor(s.threads[a.t], c)
    ensures StaysOwn(s, ThreadStep(s, s.threads[a.t], a), a.t, c)
  {
    hide Inv, StaysOwn, DoCreate, DoUndo, DoMove, DoConfirm, DoComplete;
    var th := s.threads[a.t];
    if th.CreateUndo? || th.ConfirmUndo? {
      UndoneIsOwn(s, a.t, c);
      UndoIsOwn(s, a.t, th.copy, a.write, if th.CreateUndo? then CreateDone(th.req, None) else Done(None), c);
    } else {
      NoStep(s, a.t, c);
    }
  }

  lemma UndoneIsOwn(s: State, t: nat, c: nat)
    requires Inv(s) && t in s.threads && ActsFor(s.threads[t], c) && (s.threads[t].CreateUndo? || s.threads[t].ConfirmUndo?)
    ensures var copy := s.threads[t].copy; copy.id in s.rows && s.rows[copy.id].driverId == c
  {
    hide RowsOk, KeysUnique, SpotsOk, RowShape;
    assert ThreadOk(s.rows, s.spots, s.threads[t]);
  }

  lemma WriteIsOwn(s: State, a: Action, c: nat)
    requires Inv(s) && Writes(a) && a.t in s.threads && ActsFor(s.threads[a.t], c)
    ensures StaysOwn(s, ThreadStep(s, s.threads[a.t], a), a.t, c)
  {
    hide Inv, StaysOwn, ThreadStep, ActsFor;
    match a
    case Create(_, _, _, _) => CreateStepIsOwn(s, a, c);
    case Undo(_, _) => UndoStepIsOwn(s, a, c);
    case Confirm(_, _) => ConfirmStepIsOwn(s, a, c);
    case Move(_, _) => MoveStepIsOwn(s, a, c);
    case Complete(_, _) => CompleteStepIsOwn(s, a, c);
  }

  lemma ReadIsOwn(s: State, a: Action, c: nat)
    requires !a.Tick? && !Writes(a) && a.t in s.threads && ActsFor(s.threads[a.t], c)
    ensures StaysOwn(s, ThreadStep(s, s.threads[a.t], a), a.t, c)
  {
    hide FirstAvailable, StaysOwn, AfterBilling, AfterPayment, DoLookup, DoPick, DoReadLocked, ActsFor;
    var th := s.threads[a.t];
    NothingWritten(s, a.t, th, c);
    assert Goto(s, a.t, th) == s;
    RepliesAreOwn(th, c);
    EndsAreOwn(th, c);
    match a
    case BillingReply(t, bill) => NothingWritten(s, t, AfterBilling(th, bill), c);
    case PaymentReply(t, pid) => NothingWritten(s, t, AfterPayment(th, pid), c);
    case Lookup(t, fails) => if th.CreateLookup? { LookupIsOwn(s, t, th.req, fails, c); }
    case Pick(t, spot) => if th.CreatePick? { PickIsOwn(s, t, th.req, spot, c); }
    case Acquire(t, acquired) =>
      if th.CreateLock? {
        NothingWritten(s, t, if acquired then CreateTxn(th.req, th.spot, s.now) else CreateDone(th.req, None), c);
      }
    case Refetch(t, fails) =>
      if th.CreateRefetch? { NothingWritten(s, t, CreateDone(th.req, if fails then None else FindByKey(s.rows, th.req.key)), c); }
    case ReadLocked(t, fails) => if th.ConfirmRead? || th.CompleteRead? { ReadLockedIsOwn(s, t, th, fails, c); }
    case Crash(t) => NothingWritten(s, t, Crashed, c);
    case _ =>
  }

  lemma RepliesAreOwn(th: Thread, c: nat)
    requires ActsFor(th, c)
    ensures forall bill :: ActsFor(AfterBilling(th, bill), c)
    ensures forall pid :: ActsFor(AfterPayment(th, pid), c)
  {
  }

  lemma EndsAreOwn(th: Thread, c: nat)
    requires ActsFor(th, c)
    ensures ActsFor(Crashed, c) && (forall req, result :: ActsFor(CreateDone(req, result), c))
    ensures th.CreateLock? ==> forall at :: ActsFor(CreateTxn(th.req, th.spot, at), c)
  {
  }

  lemma LookupIsOwn(s: State, t: nat, req: CreateRequest, fails: bool, c: nat)
    requires ActsFor(CreateLookup(req), c)
    ensures StaysOwn(s, DoLookup(s, t, req, fails), t, c)
  {
    hide StaysOwn, FindByKey;
    var found := FindByKey(s.rows, req.key);
    NothingWritten(s, t, if !fails && found.Some? then CreateDone(req, found) else CreatePick(req), c);
  }

  lemma PickIsOwn(s: State, t: nat, req: CreateRequest, spot: Option<nat>, c: nat)
    requires t in s.threads && s.threads[t] == CreatePick(req) && ActsFor(CreatePick(req), c)
    ensures StaysOwn(s, DoPick(s, t, req, spot), t, c)
  {
    hide StaysOwn, FirstAvailable;
    var s' := DoPick(s, t, req, spot);
    assert Goto(s, t, s.threads[t]) == s;
    NothingWritten(s, t, s'.threads[t], c);
  }

  lemma ReadLockedIsOwn(s: State, t: nat, th: Thread, fails: bool, c: nat)
    requires (th.ConfirmRead? || th.CompleteRead?) && ActsFor(th, c)
    ensures StaysOwn(s, DoReadLocked(s, t, th, fails), t, c)
  {
    hide StaysOwn;
    var s' := DoReadLocked(s, t, th, fails);
    NothingWritten(s, t, s'.threads[t], c);
  }

  lemma OwnStep(s: State, a: Action, c: nat)
    requires Inv(s) && !a.Tick? && a.t in s.threads && ActsFor(s.threads[a.t], c)
    ensures StaysOwn(s, Step(s, a), a.t, c)
  {
    hide Inv, ThreadStep, StaysOwn, ActsFor;
    if a.BeginCreate? || a.BeginConfirm? || a.BeginMove? || a.BeginComplete? {
      NothingWritten(s, a.t, s.threads[a.t], c);
      assert Goto(s, a.t, s.threads[a.t]) == s;
    } else if Writes(a) {
      WriteIsOwn(s, a, c);
    } else {
      ReadIsOwn(s, a, c);
    }
  }

  lemma {:induction false} OwnSteps(s: State, schedule: seq<Action>, t: nat, c: nat)
    requires Inv(s) && t in s.threads && ActsFor(s.threads[t], c)
    ensures Inv(Run(s, schedule)) && t in Run(s, schedule).threads && ActsFor(Run(s, schedule).threads[t], c)
    decreases |schedule|
  {
    hide Inv, Step, ActsFor;
    if schedule != [] {
      var a := schedule[0];
      StepInv(s, a);
      if !a.Tick? && a.t == t {
        OwnStep(s, a, c);
      } else {
        RT.OthersStay(s, a, t);
      }
      OwnSteps(Step(s, a), schedule[1..], t, c);
    }
  }

  /** In every run: whatever a driver's request does, at any time after it was made and
      whatever else goes on, it touches rows and spots of that driver's reservations
      only; and an operation on an existing reservation answers with one of them. */
  lemma OnlyOwnRowsChange(s0: State, before: seq<Action>, b: Action, after: seq<Action>, a: Action)
    requires IsInit(s0) && DriverOf(b).Some? && b.t !in Run(s0, before).threads
    requires !a.Tick? && a.t == b.t
    ensures var z := Run(Step(Run(s0, before), b), after);
            var z', c := Step(z, a), DriverOf(b).value;
            && (forall id :: id in z'.rows ==> (id in z.rows && z'.rows[id] == z.rows[id]) || z'.rows[id].driverId == c)
            && (forall id :: id in z.rows ==> id in z'.rows && z'.rows[id].driverId == z.rows[id].driverId)
            && (forall sp :: sp in z.spots ==> sp in z'.spots && (z'.spots[sp] == z.spots[sp] || HasRowOn(z', c, sp)))
            && b.t in z'.threads && (z'.threads[b.t].Done? && z'.threads[b.t].result.Some? ==> z'.threads[b.t].result.value.driverId == c)
            && (z'.threads[b.t].CheckOutDone? ==> z'.threads[b.t].copy.driverId == c)
  {
    hide Inv, Step, HasRowOn, Run;
    InitInv(s0);
    RunInv(s0, before);
    var s := Run(s0, before);
    var c := DriverOf(b).value;
    BeginsOwn(s, b);
    StepInv(s, b);
    OwnSteps(Step(s, b), after, b.t, c);
    OwnStep(Run(Step(s, b), after), a, c);
  }

  lemma BeginsOwn(s: State, b: Action)
    requires DriverOf(b).Some? && b.t !in s.threads
    ensures b.t in Step(s, b).threads && ActsFor(Step(s, b).threads[b.t], DriverOf(b).value)
  {
  }
}
