/** What every reachable state of the reservation service satisfies. */
module ReservationInvariant {
  import opened Wrappers
  import opened ReservationModel
  import opened ReservationMachine

  // ------------------------------------------------------------------
  // The invariant
  // ------------------------------------------------------------------

  predicate Unset(r: Reservation, confirmed: bool, checkedIn: bool, checkedOut: bool, cancelled: bool) {
    && (confirmed ==> r.confirmedAt.None? && r.expiresAt.None?)
    && (checkedIn ==> r.checkedInAt.None?)
    && (checkedOut ==> r.checkedOutAt.None?)
    && (cancelled ==> r.cancelledAt.None?)
  }

  predicate ConfirmedBy(r: Reservation, now: int) {
    && r.confirmedAt.Some? && r.confirmedAt.value <= now
    && r.expiresAt == Some(r.confirmedAt.value + CONFIRMATION_EXPIRY)
  }

  predicate CheckedInBy(r: Reservation, now: int) {
    && ConfirmedBy(r, now)
    && r.checkedInAt.Some? && r.confirmedAt.value <= r.checkedInAt.value <= now
  }

  predicate CheckedOutBy(r: Reservation, now: int) {
    && CheckedInBy(r, now)
    && r.checkedOutAt.Some? && r.checkedInAt.value <= r.checkedOutAt.value <= now
  }

  /** Which timestamps a row carries is determined by its status, and they are in order. */
  predicate RowShape(r: Reservation, now: int) {
    match r.status
    case Pending => false
    case WaitingPayment => Unset(r, true, true, true, true)
    case Confirmed => ConfirmedBy(r, now) && Unset(r, false, true, true, true)
    case CheckedIn => CheckedInBy(r, now) && Unset(r, false, false, true, true)
    case CheckedOut => CheckedOutBy(r, now) && Unset(r, false, false, false, true)
    case Completed => CheckedOutBy(r, now) && Unset(r, false, false, false, true)
    case Expired => ConfirmedBy(r, now) && Unset(r, false, true, true, true)
    case Cancelled =>
      && (ConfirmedBy(r, now) || Unset(r, true, false, false, false)) && Unset(r, false, true, true, false)
      && r.cancelledAt.Some? && r.cancelledAt.value <= now
    case Failed => Unset(r, true, true, true, true)
  }

  predicate RowsOk(rows: Rows, spots: Spots, now: int) {
    forall id :: id in rows ==>
      && rows[id].id == id && RowShape(rows[id], now)
      && rows[id].spotId in spots && spots[rows[id].spotId].vehicleType == rows[id].vehicleType
  }

  predicate KeysUnique(rows: Rows) {
    forall i, j :: i in rows && j in rows && rows[i].key == rows[j].key ==> i == j
  }

  /** The spot's status while the reservation on it has status st. */
  function SpotFor(st: Status): SpotStatus {
    if st.WaitingPayment? || st.Confirmed? then Reserved
    else if st.CheckedIn? || st.CheckedOut? then Occupied
    else Available
  }

  predicate Held(rows: Rows, spot: nat) {
    exists id :: id in rows && Active(rows[id].status) && rows[id].spotId == spot
  }

  /** Every active reservation has its spot for itself, in the matching status, and
      every spot that is not available is held by one. */
  predicate SpotsOk(rows: Rows, spots: Spots) {
    && (forall id :: id in rows && Active(rows[id].status) ==>
          rows[id].spotId in spots && spots[rows[id].spotId].status == SpotFor(rows[id].status))
    && (forall i, j | i in rows && j in rows && Active(rows[i].status) && Active(rows[j].status) ::
          rows[i].spotId == rows[j].spotId ==> i == j)
    && (forall sp :: sp in spots && !spots[sp].status.Available? ==> Held(rows, sp))
  }

  /** The columns that identify a reservation never change. */
  predicate SameIdentity(p: Reservation, q: Reservation) {
    && q.id == p.id && q.driverId == p.driverId && q.spotId == p.spotId && q.vehicleType == p.vehicleType
    && q.mode == p.mode && q.key == p.key && q.createdAt == p.createdAt
  }

  /** How a row may differ between two moments of a run. */
  predicate Later(p: Reservation, q: Reservation) {
    && SameIdentity(p, q)
    && (p == q || Rank(q.status) < Rank(p.status))
    && (p.confirmedAt.Some? ==> q.confirmedAt == p.confirmedAt && q.expiresAt == p.expiresAt)
    && (p.checkedInAt.Some? ==> q.checkedInAt == p.checkedInAt)
    && (p.checkedOutAt.Some? ==> q.checkedOutAt == p.checkedOutAt)
    && (p.status.CheckedOut? ==> q.status.CheckedOut? || q.status.Completed?)
  }

  /** A copy read while the row had status st, or written by this request itself. */
  predicate CopyOf(rows: Rows, copy: Reservation, st: Status) {
    copy.id in rows && copy.status == st && Later(copy, rows[copy.id])
  }

  predicate PickedSpot(spots: Spots, req: CreateRequest, spot: nat) {
    req.mode.SystemAssigned? ==> spot in spots && spots[spot].vehicleType == req.vehicleType
  }

  predicate ThreadOk(rows: Rows, spots: Spots, th: Thread) {
    match th
    case CreateLock(req, spot) => PickedSpot(spots, req, spot) && !req.mode.OtherMode?
    case CreateTxn(req, spot, at) => PickedSpot(spots, req, spot) && !req.mode.OtherMode?
    case CreateRefetch(req) => KeyTaken(rows, req.key)
    case CreateBill(req, copy) => CopyOf(rows, copy, WaitingPayment) && copy.key == req.key
    case CreateUndo(req, copy) => CopyOf(rows, copy, WaitingPayment) && copy.key == req.key
    case CreateDone(req, Some(r)) => r.id in rows && r.key == req.key && rows[r.id].key == r.key
    case ConfirmBill(copy) => CopyOf(rows, copy, WaitingPayment)
    case ConfirmPay(copy, _) => CopyOf(rows, copy, WaitingPayment)
    case ConfirmUndo(copy) => CopyOf(rows, copy, WaitingPayment)
    case ConfirmTxn(copy, _) => CopyOf(rows, copy, WaitingPayment)
    case ConfirmRefund(copy, _) => CopyOf(rows, copy, WaitingPayment)
    case CheckInBill(copy) => CopyOf(rows, copy, CheckedIn)
    case CheckOutFee(copy) => CopyOf(rows, copy, CheckedOut) && copy.checkedInAt.Some? && copy.checkedOutAt.Some?
    case CheckOutInvoice(copy) => CopyOf(rows, copy, CheckedOut) && copy.checkedInAt.Some? && copy.checkedOutAt.Some?
    case CompleteInvoice(copy) => CopyOf(rows, copy, CheckedOut)
    case CompletePay(copy, _) => CopyOf(rows, copy, CheckedOut)
    case CompleteTxn(copy, _, _) => CopyOf(rows, copy, CheckedOut)
    case CheckOutDone(copy, _, payment) =>
      && CopyOf(rows, copy, if payment.None? then CheckedOut else Completed)
      && copy.checkedInAt.Some? && copy.checkedOutAt.Some?
    case Done(Some(r)) => !r.status.CheckedOut? && !r.status.Completed?
    case _ => true
  }

  predicate ThreadsOk(rows: Rows, spots: Spots, threads: map<nat, Thread>) {
    forall t :: t in threads ==> ThreadOk(rows, spots, threads[t])
  }

  predicate Inv(s: State) {
    && RowsOk(s.rows, s.spots, s.now)
    && KeysUnique(s.rows)
    && SpotsOk(s.rows, s.spots)
    && ThreadsOk(s.rows, s.spots, s.threads)
  }

  // ------------------------------------------------------------------
  // Steps that leave the tables alone
  // ------------------------------------------------------------------

  lemma MoveInv(s: State, t: nat, th: Thread)
    requires Inv(s) && ThreadOk(s.rows, s.spots, th)
    ensures Inv(Goto(s, t, th))
  {
    hide RowsOk, KeysUnique, SpotsOk;
  }

  lemma ShapeLasts(r: Reservation, now: int, later: int)
    requires RowShape(r, now) && now <= later
    ensures RowShape(r, later)
  {
  }

  lemma TickInv(s: State, dt: nat)
    requires Inv(s)
    ensures Inv(s.(now := s.now + dt))
  {
    hide KeysUnique, SpotsOk, ThreadOk, RowShape;
    forall id | id in s.rows
      ensures RowShape(s.rows[id], s.now + dt)
    {
      ShapeLasts(s.rows[id], s.now, s.now + dt);
    }
  }

  // ------------------------------------------------------------------
  // Steps that write one row
  // ------------------------------------------------------------------

  lemma LaterTransitive(p: Reservation, q: Reservation, r: Reservation)
    requires Later(p, q) && Later(q, r)
    ensures Later(p, r)
  {
  }

  /** Vehicle types of spots are not changed by the reservation service. */
  predicate SameSpots(spots: Spots, spots': Spots) {
    spots'.Keys == spots.Keys && forall sp :: sp in spots ==> spots'[sp].vehicleType == spots[sp].vehicleType
  }

  lemma OtherThreads(rows: Rows, spots: Spots, rows': Rows, spots': Spots, th: Thread)
    requires ThreadOk(rows, spots, th) && SameSpots(spots, spots')
    requires forall id :: id in rows ==> id in rows' && Later(rows[id], rows'[id])
    ensures ThreadOk(rows', spots', th)
  {
    hide Later, RowShape;
    if th.CreateBill? || th.CreateUndo? || th.ConfirmBill? || th.ConfirmPay? || th.ConfirmUndo? || th.ConfirmTxn?
       || th.ConfirmRefund? || th.CheckInBill? || th.CheckOutFee? || th.CheckOutInvoice?
       || th.CompleteInvoice? || th.CompletePay? || th.CompleteTxn? || th.CheckOutDone?
    {
      LaterTransitive(th.copy, rows[th.copy.id], rows'[th.copy.id]);
    } else if th.CreateDone? && th.result.Some? {
      LaterKeepsKey(rows[th.result.value.id], rows'[th.result.value.id]);
    } else if th.CreateRefetch? {
      var id :| id in rows && rows[id].key == th.req.key;
      LaterKeepsKey(rows[id], rows'[id]);
    }
  }

  lemma LaterKeepsKey(p: Reservation, q: Reservation)
    requires Later(p, q)
    ensures q.key == p.key
  {
  }

  /** One reservation moves along an edge and its spot follows. */
  lemma SpotFollows(rows: Rows, spots: Spots, q: Reservation)
    requires SpotsOk(rows, spots)
    requires q.id in rows && rows[q.id].id == q.id && Active(rows[q.id].status) && q.spotId == rows[q.id].spotId
    ensures SpotsOk(rows[q.id := q], UpdateSpot(spots, q.spotId, SpotFor(q.status)))
  {
    var rows', spots' := rows[q.id := q], UpdateSpot(spots, q.spotId, SpotFor(q.status));
    forall sp | sp in spots' && !spots'[sp].status.Available?
      ensures Held(rows', sp)
    {
      if sp == q.spotId {
        assert Active(rows'[q.id].status);
      } else {
        var id :| id in rows && Active(rows[id].status) && rows[id].spotId == sp;
        assert id in rows' && rows'[id] == rows[id];
      }
    }
  }

  lemma RowFollows(rows: Rows, spots: Spots, now: int, q: Reservation)
    requires RowsOk(rows, spots, now) && KeysUnique(rows)
    requires q.id in rows && SameIdentity(rows[q.id], q) && RowShape(q, now)
    ensures RowsOk(rows[q.id := q], UpdateSpot(spots, q.spotId, SpotFor(q.status)), now)
    ensures KeysUnique(rows[q.id := q])
    ensures SameSpots(spots, UpdateSpot(spots, q.spotId, SpotFor(q.status)))
  {
    hide RowShape;
  }

  /** A committed transaction on one row. */
  lemma WriteInv(s: State, t: nat, q: Reservation, th: Thread)
    requires Inv(s)
    requires q.id in s.rows && Active(s.rows[q.id].status) && Later(s.rows[q.id], q) && RowShape(q, s.now)
    requires ThreadOk(s.rows[q.id := q], s.spots, th)
    ensures Inv(Goto(s.(rows := s.rows[q.id := q], spots := UpdateSpot(s.spots, q.spotId, SpotFor(q.status))), t, th))
  {
    hide RowShape;
    var rows', spots' := s.rows[q.id := q], UpdateSpot(s.spots, q.spotId, SpotFor(q.status));
    assert SameIdentity(s.rows[q.id], q);
    SpotFollows(s.rows, s.spots, q);
    RowFollows(s.rows, s.spots, s.now, q);
    WriteThreads(s.rows, s.spots, s.threads, q, spots');
    OtherThreads(rows', s.spots, rows', spots', th) by {
      forall id | id in rows'
        ensures Later(rows'[id], rows'[id])
      {
      }
    }
  }

  lemma WriteThreads(rows: Rows, spots: Spots, threads: map<nat, Thread>, q: Reservation, spots': Spots)
    requires ThreadsOk(rows, spots, threads) && SameSpots(spots, spots')
    requires q.id in rows && Later(rows[q.id], q)
    ensures ThreadsOk(rows[q.id := q], spots', threads)
  {
    hide ThreadOk;
    var rows' := rows[q.id := q];
    forall u | u in threads
      ensures ThreadOk(rows', spots', threads[u])
    {
      assert forall id :: id in rows ==> id in rows' && Later(rows[id], rows'[id]);
      OtherThreads(rows, spots, rows', spots', threads[u]);
    }
  }

  lemma MoveStepInv(s: State, t: nat, write: Write)
    requires Inv(s) && t in s.threads && s.threads[t].MoveTxn?
    ensures Inv(DoMove(s, t, s.threads[t].kind, s.threads[t].id, s.threads[t].caller, write))
  {
    hide KeysUnique, SpotsOk, ThreadsOk;
    var th := s.threads[t];
    var kind, id := th.kind, th.id;
    if write.TakesEffect() && id in s.rows && CallerOk(s.rows[id], th.caller) && Edge(s.rows[id].status, Target(kind)) {
      var r := Moved(kind, s.rows[id], s.now);
      EdgesDescend(s.rows[id].status, Target(kind));
      assert Written(s.rows[id], r) == r;
      SpotsAfterIsFollow(s, kind, id);
      WriteInv(s, t, r, if write.Applied? then AfterMove(kind, r) else Done(None));
    } else {
      MoveInv(s, t, Done(None));
    }
  }

  /** CheckOut leaves the spot alone because it is occupied already. */
  lemma SpotsAfterIsFollow(s: State, kind: Kind, id: string)
    requires Inv(s) && id in s.rows && Edge(s.rows[id].status, Target(kind))
    ensures SpotsAfter(kind, s.spots, s.rows[id].spotId) == UpdateSpot(s.spots, s.rows[id].spotId, SpotFor(Target(kind)))
  {
    EdgesDescend(s.rows[id].status, Target(kind));
    var sp := s.rows[id].spotId;
    if kind.CheckOut? {
      assert s.spots[sp].status == Occupied;
      assert s.spots[sp].(status := Occupied) == s.spots[sp];
    }
  }

  lemma UndoStepInv(s: State, t: nat, copy: Reservation, write: Write, next: Thread)
    requires Inv(s) && (next.CreateDone? || next.Done?) && next.result.None?
    ensures Inv(DoUndo(s, t, copy, write, next))
  {
    hide KeysUnique, SpotsOk, ThreadsOk;
    if write.TakesEffect() && copy.id in s.rows && s.rows[copy.id].status.WaitingPayment? {
      var r := Moved(Fail, s.rows[copy.id], s.now);
      assert Written(s.rows[copy.id], r) == r;
      WriteInv(s, t, r, next);
    } else {
      MoveInv(s, t, next);
    }
  }

  /** The copy that ConfirmReservation writes back is the locked row itself
      whenever both of its reads saw the row waiting for payment. */
  lemma StaleCopyIsFresh(rows: Rows, copy: Reservation)
    requires CopyOf(rows, copy, WaitingPayment) && rows[copy.id].status.WaitingPayment?
    ensures rows[copy.id] == copy
  {
  }

  lemma ConfirmStepInv(s: State, t: nat, write: Write)
    requires Inv(s) && t in s.threads && s.threads[t].ConfirmTxn?
    ensures Inv(DoConfirm(s, t, s.threads[t].copy, s.threads[t].pid, write))
  {
    hide KeysUnique, SpotsOk;
    var copy, pid := s.threads[t].copy, s.threads[t].pid;
    assert ThreadOk(s.rows, s.spots, s.threads[t]);
    if write.NotApplied? {
      MoveInv(s, t, Done(None));
    } else if !s.rows[copy.id].status.WaitingPayment? {
      MoveInv(s, t, ConfirmRefund(copy, pid));
    } else {
      StaleCopyIsFresh(s.rows, copy);
      var r := ConfirmedCopy(copy, s.now);
      assert Written(s.rows[copy.id], r) == r;
      ReservedStays(s, copy.id);
      WriteInv(s, t, r, Done(if write.Applied? then Some(r) else None));
    }
  }

  /** Confirming does not touch the spot: it is reserved already. */
  lemma ReservedStays(s: State, id: string)
    requires Inv(s) && id in s.rows && s.rows[id].status.WaitingPayment?
    ensures UpdateSpot(s.spots, s.rows[id].spotId, Reserved) == s.spots
  {
    var sp := s.rows[id].spotId;
    assert s.spots[sp].(status := Reserved) == s.spots[sp];
  }

  lemma CompleteStepInv(s: State, t: nat, write: Write)
    requires Inv(s) && t in s.threads && s.threads[t].CompleteTxn?
    ensures Inv(DoComplete(s, t, s.threads[t].copy, s.threads[t].bill, s.threads[t].pid, write))
  {
    hide KeysUnique, SpotsOk;
    var copy := s.threads[t].copy;
    if write.NotApplied? || copy.id !in s.rows || !s.rows[copy.id].status.CheckedOut? {
      MoveInv(s, t, Done(None));
    } else {
      var r := s.rows[copy.id].(status := Completed, updatedAt := s.now);
      assert Written(s.rows[copy.id], r) == r;
      var th := s.threads[t];
      WriteInv(s, t, r, if write.Applied? then CheckOutDone(r, th.bill, Some(th.pid)) else Done(None));
    }
  }

  // ------------------------------------------------------------------
  // The creating transaction
  // ------------------------------------------------------------------

  lemma NewRow(rows: Rows, spots: Spots, now: int, r: Reservation)
    requires RowsOk(rows, spots, now) && KeysUnique(rows) && SpotsOk(rows, spots)
    requires r.id !in rows && !KeyTaken(rows, r.key) && RowShape(r, now) && r.status.WaitingPayment?
    requires r.spotId in spots && spots[r.spotId].status.Available? && spots[r.spotId].vehicleType == r.vehicleType
    ensures RowsOk(rows[r.id := r], UpdateSpot(spots, r.spotId, Reserved), now)
    ensures KeysUnique(rows[r.id := r])
    ensures SpotsOk(rows[r.id := r], UpdateSpot(spots, r.spotId, Reserved))
  {
    hide RowShape;
    var rows', spots' := rows[r.id := r], UpdateSpot(spots, r.spotId, Reserved);
    assert forall id :: id in rows && Active(rows[id].status) ==> rows[id].spotId != r.spotId;
    forall sp | sp in spots' && !spots'[sp].status.Available?
      ensures Held(rows', sp)
    {
      if sp == r.spotId {
        assert r.id in rows' && Active(rows'[r.id].status);
      } else {
        var id :| id in rows && Active(rows[id].status) && rows[id].spotId == sp;
        assert id in rows' && rows'[id] == rows[id];
      }
    }
  }

  /** An available spot has no reservation in the way, so only the key can be. */
  lemma DuplicateHasKey(s: State, req: CreateRequest, spot: nat, first: bool)
    requires Inv(s)
    ensures CreateVerdict(s, req, spot, first).Duplicate? ==> KeyTaken(s.rows, req.key)
  {
    hide RowsOk, KeysUnique, ThreadsOk;
  }

  lemma CreateStepInv(s: State, t: nat, id: string, write: Write, first: bool)
    requires Inv(s) && t in s.threads && s.threads[t].CreateTxn?
    ensures Inv(DoCreate(s, t, s.threads[t], id, write, first))
  {
    hide RowsOk, KeysUnique, SpotsOk;
    var th := s.threads[t];
    var r := NewReservation(th.req, id, th.spot, th.at);
    assert ThreadOk(s.rows, s.spots, th);
    if id in s.rows {
    } else if write.TakesEffect() && CreateVerdict(s, th.req, th.spot, first).Inserts? {
      NewRow(s.rows, s.spots, s.now, r);
      var rows', spots' := s.rows[id := r], UpdateSpot(s.spots, th.spot, Reserved);
      forall u | u in s.threads
        ensures ThreadOk(rows', spots', s.threads[u])
      {
        OtherThreads(s.rows, s.spots, rows', spots', s.threads[u]);
      }
    } else {
      DuplicateHasKey(s, th.req, th.spot, first);
      MoveInv(s, t, DoCreate(s, t, th, id, write, first).threads[t]);
    }
  }

  // ------------------------------------------------------------------
  // Every step keeps it
  // ------------------------------------------------------------------

  lemma InitInv(s: State)
    requires IsInit(s)
    ensures Inv(s)
  {
  }

  lemma FoundIsRow(s: State, key: string)
    requires Inv(s)
    ensures var found := FindByKey(s.rows, key);
            found.Some? ==> found.value.id in s.rows && s.rows[found.value.id] == found.value
  {
  }

  lemma StepInv(s: State, a: Action)
    requires Inv(s)
    ensures Inv(Step(s, a))
  {
    hide RowsOk, KeysUnique, SpotsOk;
    if a.Tick? {
      TickInv(s, a.dt);
    } else if a.BeginCreate? || a.BeginConfirm? || a.BeginMove? || a.BeginComplete? {
      MoveInv(s, a.t, Entered(a));
    } else if a.t in s.threads {
      assert ThreadOk(s.rows, s.spots, s.threads[a.t]);
      ThreadStepInv(s, s.threads[a.t], a);
    }
  }

  /** Whatever the other services answer, a request proceeds soundly. */
  lemma BillingReplyOk(s: State, th: Thread, bill: Option<Bill>)
    requires Inv(s) && ThreadOk(s.rows, s.spots, th)
    ensures ThreadOk(s.rows, s.spots, AfterBilling(th, bill))
  {
    hide RowShape, KeysUnique, SpotsOk, Later;
    if th.CreateBill? {
      LaterKeepsKey(th.copy, s.rows[th.copy.id]);
    }
  }

  lemma PaymentReplyOk(s: State, th: Thread, pid: Option<nat>)
    requires ThreadOk(s.rows, s.spots, th)
    ensures ThreadOk(s.rows, s.spots, AfterPayment(th, pid))
  {
    hide Later;
  }

  /** The five transactions that write. */
  predicate Writes(a: Action) {
    a.Create? || a.Undo? || a.Confirm? || a.Move? || a.Complete?
  }

  lemma WritingStepInv(s: State, th: Thread, a: Action)
    requires Inv(s) && Writes(a) && a.t in s.threads && th == s.threads[a.t]
    ensures Inv(ThreadStep(s, th, a))
  {
    hide Inv, ThreadOk;
    match a
    case Create(t, id, write, first) => if th.CreateTxn? { CreateStepInv(s, t, id, write, first); }
    case Undo(t, write) =>
      if th.CreateUndo? { UndoStepInv(s, t, th.copy, write, CreateDone(th.req, None)); }
      else if th.ConfirmUndo? { UndoStepInv(s, t, th.copy, write, Done(None)); }
    case Confirm(t, write) => if th.ConfirmTxn? { ConfirmStepInv(s, t, write); }
    case Move(t, write) => if th.MoveTxn? { MoveStepInv(s, t, write); }
    case Complete(t, write) => if th.CompleteTxn? { CompleteStepInv(s, t, write); }
  }

  lemma CreatingStepInv(s: State, th: Thread, a: Action)
    requires Inv(s) && (a.Lookup? || a.Pick? || a.Acquire? || a.Refetch?)
    requires a.t in s.threads && th == s.threads[a.t] && ThreadOk(s.rows, s.spots, th)
    ensures Inv(ThreadStep(s, th, a))
  {
    hide Inv, Later;
    match a
    case Lookup(t, fails) =>
      if th.CreateLookup? {
        FoundIsRow(s, th.req.key);
        MoveInv(s, t, DoLookup(s, t, th.req, fails).threads[t]);
      }
    case Pick(t, spot) => if th.CreatePick? { MoveInv(s, t, DoPick(s, t, th.req, spot).threads[t]); }
    case Acquire(t, acquired) =>
      if th.CreateLock? { MoveInv(s, t, ThreadStep(s, th, a).threads[t]); }
    case Refetch(t, fails) =>
      if th.CreateRefetch? {
        FoundIsRow(s, th.req.key);
        MoveInv(s, t, ThreadStep(s, th, a).threads[t]);
      }
  }

  lemma ThreadStepInv(s: State, th: Thread, a: Action)
    requires Inv(s) && !a.Tick? && a.t in s.threads && th == s.threads[a.t] && ThreadOk(s.rows, s.spots, th)
    ensures Inv(ThreadStep(s, th, a))
  {
    hide Inv, ThreadOk;
    if Writes(a) {
      WritingStepInv(s, th, a);
    } else if a.Lookup? || a.Pick? || a.Acquire? || a.Refetch? {
      CreatingStepInv(s, th, a);
    } else if a.BillingReply? {
      BillingReplyOk(s, th, a.bill);
      MoveInv(s, a.t, AfterBilling(th, a.bill));
    } else if a.PaymentReply? {
      PaymentReplyOk(s, th, a.pid);
      MoveInv(s, a.t, AfterPayment(th, a.pid));
    } else if a.ReadLocked? && (th.ConfirmRead? || th.CompleteRead?) {
      ReadLockedInv(s, a.t, a.fails);
    } else if a.Crash? && !Finished(th) {
      CrashInv(s, a.t);
    }
  }

  lemma CrashInv(s: State, t: nat)
    requires Inv(s)
    ensures Inv(Goto(s, t, Crashed))
  {
    hide RowsOk, KeysUnique, SpotsOk;
    MoveInv(s, t, Crashed);
  }

  lemma ReadLockedInv(s: State, t: nat, fails: bool)
    requires Inv(s) && t in s.threads && (s.threads[t].ConfirmRead? || s.threads[t].CompleteRead?)
    ensures Inv(DoReadLocked(s, t, s.threads[t], fails))
  {
    hide KeysUnique, SpotsOk;
    MoveInv(s, t, DoReadLocked(s, t, s.threads[t], fails).threads[t]);
  }

  lemma {:induction false} RunInv(s: State, schedule: seq<Action>)
    requires Inv(s)
    ensures Inv(Run(s, schedule))
    decreases |schedule|
  {
    if schedule != [] {
      StepInv(s, schedule[0]);
      RunInv(Step(s, schedule[0]), schedule[1..]);
    }
  }
}
