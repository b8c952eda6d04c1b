/** What the reservation service guarantees over every schedule. */
module ReservationTheorems {
  import opened Wrappers
  import opened ReservationModel
  import opened ReservationMachine
  import opened ReservationInvariant

  // ------------------------------------------------------------------
  // No double booking
  // ------------------------------------------------------------------

  function ActiveOn(rows: Rows, spot: nat): set<string> {
    set id | id in rows && Active(rows[id].status) && rows[id].spotId == spot
  }

  function ReservingOn(rows: Rows, spot: nat): set<string> {
    set id | id in rows && rows[id].spotId == spot && (rows[id].status.WaitingPayment? || rows[id].status.Confirmed?)
  }

  function OccupyingOn(rows: Rows, spot: nat): set<string> {
    set id | id in rows && rows[id].spotId == spot && (rows[id].status.CheckedIn? || rows[id].status.CheckedOut?)
  }

  lemma HolderIsAlone(rows: Rows, spots: Spots, id: string)
    requires SpotsOk(rows, spots) && id in rows && Active(rows[id].status)
    ensures ActiveOn(rows, rows[id].spotId) == {id}
    ensures ReservingOn(rows, rows[id].spotId) == if SpotFor(rows[id].status).Reserved? then {id} else {}
    ensures OccupyingOn(rows, rows[id].spotId) == if SpotFor(rows[id].status).Occupied? then {id} else {}
  {
    assert id in ActiveOn(rows, rows[id].spotId);
    assert ActiveOn(rows, rows[id].spotId) == {id};
    assert ReservingOn(rows, rows[id].spotId) <= {id};
    assert OccupyingOn(rows, rows[id].spotId) <= {id};
  }

  /** In every reachable state, whatever was interleaved, lost or crashed and
      whatever the distributed lock answered: a spot is available iff nobody holds
      it, reserved iff exactly one reservation waits or is confirmed on it, and
      occupied iff exactly one is checked in or out on it. */
  lemma NoDoubleBooking(s0: State, schedule: seq<Action>, spot: nat)
    requires IsInit(s0) && spot in Run(s0, schedule).spots
    ensures var s := Run(s0, schedule);
            && (s.spots[spot].status.Available? <==> ActiveOn(s.rows, spot) == {})
            && (s.spots[spot].status.Reserved? <==> |ReservingOn(s.rows, spot)| == 1)
            && (s.spots[spot].status.Occupied? <==> |OccupyingOn(s.rows, spot)| == 1)
            && |ActiveOn(s.rows, spot)| <= 1
  {
    InitInv(s0);
    RunInv(s0, schedule);
    var s := Run(s0, schedule);
    if Held(s.rows, spot) {
      var id :| id in s.rows && Active(s.rows[id].status) && s.rows[id].spotId == spot;
      HolderIsAlone(s.rows, s.spots, id);
    } else {
      assert ActiveOn(s.rows, spot) == {};
      assert ReservingOn(s.rows, spot) <= ActiveOn(s.rows, spot);
      assert OccupyingOn(s.rows, spot) <= ActiveOn(s.rows, spot);
    }
  }

  /** A reservation is always for an existing spot of its own vehicle type, also
      where the creating transaction does not compare the two. */
  lemma VehicleTypesMatch(s0: State, schedule: seq<Action>, id: string)
    requires IsInit(s0) && id in Run(s0, schedule).rows
    ensures var s := Run(s0, schedule);
            s.rows[id].spotId in s.spots && s.spots[s.rows[id].spotId].vehicleType == s.rows[id].vehicleType
  {
    InitInv(s0);
    RunInv(s0, schedule);
  }

  // ------------------------------------------------------------------
  // Conservation
  // ------------------------------------------------------------------

  function TakenSpots(spots: Spots): set<nat> {
    set sp | sp in spots && !spots[sp].status.Available?
  }

  function ActiveReservations(rows: Rows): set<string> {
    set id | id in rows && Active(rows[id].status)
  }

  /** A set and its image under a map injective on it have the same size. */
  lemma {:induction false} InjectiveImage(ids: set<string>, spotOf: map<string, nat>, image: set<nat>)
    requires ids <= spotOf.Keys
    requires forall i, j :: i in ids && j in ids && spotOf[i] == spotOf[j] ==> i == j
    requires forall sp :: sp in image <==> exists i :: i in ids && spotOf[i] == sp
    ensures |ids| == |image|
    decreases ids
  {
    if ids == {} {
      assert image == {};
    } else {
      var i :| i in ids;
      assert spotOf[i] in image;
      var rest, restImage := ids - {i}, image - {spotOf[i]};
      forall sp
        ensures sp in restImage <==> exists j :: j in rest && spotOf[j] == sp
      {
        if sp in restImage {
          var j :| j in ids && spotOf[j] == sp;
          assert j in rest;
        }
      }
      InjectiveImage(rest, spotOf, restImage);
    }
  }

  /** As many spots are taken as reservations are active. */
  lemma SpotsAreConserved(s0: State, schedule: seq<Action>)
    requires IsInit(s0)
    ensures |TakenSpots(Run(s0, schedule).spots)| == |ActiveReservations(Run(s0, schedule).rows)|
  {
    InitInv(s0);
    RunInv(s0, schedule);
    var s := Run(s0, schedule);
    var ids, taken := ActiveReservations(s.rows), TakenSpots(s.spots);
    var spotOf := map id | id in s.rows :: s.rows[id].spotId;
    forall sp
      ensures sp in taken <==> exists i :: i in ids && spotOf[i] == sp
    {
      if sp in taken {
        var i :| i in s.rows && Active(s.rows[i].status) && s.rows[i].spotId == sp;
        assert i in ids && spotOf[i] == sp;
      }
    }
    InjectiveImage(ids, spotOf, taken);
  }

  // ------------------------------------------------------------------
  // The life of a reservation
  // ------------------------------------------------------------------

  predicate RowStep(p: Reservation, q: Reservation) {
    Later(p, q) && (p == q || Edge(p.status, q.status))
  }

  lemma OnlyTransactionsWrite(s: State, a: Action)
    requires !Writes(a)
    ensures Step(s, a).rows == s.rows
  {
  }

  lemma MovedIsLater(kind: Kind, r: Reservation, now: int)
    requires RowShape(r, now) && Edge(r.status, Target(kind))
    ensures RowStep(r, Moved(kind, r, now)) && Written(r, Moved(kind, r, now)) == Moved(kind, r, now)
    ensures RowShape(Moved(kind, r, now), now)
  {
    EdgesDescend(r.status, Target(kind));
  }

  lemma FinishedIsLater(r: Reservation, now: int)
    requires RowShape(r, now)
    ensures r.status.WaitingPayment? ==> RowStep(r, ConfirmedCopy(r, now))
    ensures r.status.CheckedOut? ==> RowStep(r, r.(status := Completed, updatedAt := now))
  {
    EdgesDescend(r.status, Confirmed);
    EdgesDescend(r.status, Completed);
  }

  /** Every committed status change is an edge of the transition table, also in the
      three writers that do not consult it. */
  lemma EveryChangeIsAnEdge(s: State, a: Action, id: string)
    requires Inv(s) && id in s.rows
    ensures id in Step(s, a).rows && RowStep(s.rows[id], Step(s, a).rows[id])
  {
    hide SpotsOk, KeysUnique, RowShape, RowStep, DoUndo, DoMove, DoConfirm, DoComplete;
    Unchanged(s.rows[id]);
    if !Writes(a) {
      OnlyTransactionsWrite(s, a);
    } else if a.t in s.threads {
      var th := s.threads[a.t];
      assert ThreadOk(s.rows, s.spots, th);
      match a
      case Create(_, _, _, _) =>
      case Undo(_, write) =>
        if th.CreateUndo? { UndoIsEdge(s, a.t, th.copy, write, CreateDone(th.req, None), id); }
        else if th.ConfirmUndo? { UndoIsEdge(s, a.t, th.copy, write, Done(None), id); }
      case Move(_, write) => if th.MoveTxn? { MoveIsEdge(s, a.t, th.kind, th.id, th.caller, write, id); }
      case Confirm(_, write) => if th.ConfirmTxn? { ConfirmIsEdge(s, a.t, th.copy, th.pid, write, id); }
      case Complete(_, write) => if th.CompleteTxn? { CompleteIsEdge(s, a.t, th.copy, th.bill, th.pid, write, id); }
    }
  }

  lemma UndoIsEdge(s: State, t: nat, copy: Reservation, write: Write, next: Thread, id: string)
    requires RowsOk(s.rows, s.spots, s.now) && id in s.rows
    ensures var s' := DoUndo(s, t, copy, write, next); id in s'.rows && RowStep(s.rows[id], s'.rows[id])
  {
    hide RowStep, RowShape;
    Unchanged(s.rows[id]);
    if s.rows[id].status.WaitingPayment? {
      EdgesDescend(s.rows[id].status, Failed);
      MovedIsLater(Fail, s.rows[id], s.now);
    }
  }

  lemma MoveIsEdge(s: State, t: nat, kind: Kind, at: string, caller: Option<nat>, write: Write, id: string)
    requires RowsOk(s.rows, s.spots, s.now) && id in s.rows
    ensures var s' := DoMove(s, t, kind, at, caller, write); id in s'.rows && RowStep(s.rows[id], s'.rows[id])
  {
    hide RowStep, RowShape, Edge, SpotsAfter, AfterMove;
    Unchanged(s.rows[id]);
    if Edge(s.rows[id].status, Target(kind)) {
      MovedIsLater(kind, s.rows[id], s.now);
    }
  }

  lemma ConfirmIsEdge(s: State, t: nat, copy: Reservation, pid: nat, write: Write, id: string)
    requires RowsOk(s.rows, s.spots, s.now) && id in s.rows && CopyOf(s.rows, copy, WaitingPayment)
    ensures var s' := DoConfirm(s, t, copy, pid, write); id in s'.rows && RowStep(s.rows[id], s'.rows[id])
  {
    hide RowStep, RowShape, Edge;
    Unchanged(s.rows[id]);
    FinishedIsLater(s.rows[id], s.now);
    if s.rows[copy.id].status.WaitingPayment? {
      StaleCopyIsFresh(s.rows, copy);
    }
  }

  lemma CompleteIsEdge(s: State, t: nat, copy: Reservation, bill: Bill, pid: nat, write: Write, id: string)
    requires RowsOk(s.rows, s.spots, s.now) && id in s.rows
    ensures var s' := DoComplete(s, t, copy, bill, pid, write); id in s'.rows && RowStep(s.rows[id], s'.rows[id])
  {
    hide RowStep, RowShape, Edge;
    Unchanged(s.rows[id]);
    FinishedIsLater(s.rows[id], s.now);
  }

  lemma Unchanged(r: Reservation)
    ensures RowStep(r, r)
  {
  }

  /** How often the status of one reservation changes during a run. */
  ghost function Changes(s: State, schedule: seq<Action>, id: string): nat
    requires Inv(s) && id in s.rows
    decreases |schedule|
  {
    if schedule == [] then 0
    else
      var s' := Step(s, schedule[0]);
      StepInv(s, schedule[0]);
      EveryChangeIsAnEdge(s, schedule[0], id);
      Changes(s', schedule[1..], id) + if s'.rows[id].status != s.rows[id].status then 1 else 0
  }

  /** At most four changes in a whole run, none from a terminal status; identity and
      timestamps once set are final. */
  lemma {:induction false} AtMostFourChanges(s: State, schedule: seq<Action>, id: string)
    requires Inv(s) && id in s.rows
    ensures id in Run(s, schedule).rows
    ensures Changes(s, schedule, id) + Rank(Run(s, schedule).rows[id].status) <= Rank(s.rows[id].status) <= 4
    ensures Rank(s.rows[id].status) == 0 ==> Run(s, schedule).rows[id] == s.rows[id]
    ensures Later(s.rows[id], Run(s, schedule).rows[id])
    decreases |schedule|
  {
    hide Inv, Later;
    if schedule == [] {
      Unchanged(s.rows[id]);
    } else {
      var s' := Step(s, schedule[0]);
      StepInv(s, schedule[0]);
      EveryChangeIsAnEdge(s, schedule[0], id);
      EdgesDescend(s.rows[id].status, s'.rows[id].status);
      AtMostFourChanges(s', schedule[1..], id);
      LaterTransitive(s.rows[id], s'.rows[id], Run(s, schedule).rows[id]);
    }
  }

  /** The timestamps of a row are in order wherever they are set. */
  lemma TimestampsInOrder(s0: State, schedule: seq<Action>, id: string)
    requires IsInit(s0) && id in Run(s0, schedule).rows
    ensures var r := Run(s0, schedule).rows[id];
            && (r.checkedInAt.Some? ==> r.confirmedAt.Some? && r.confirmedAt.value <= r.checkedInAt.value)
            && (r.checkedOutAt.Some? ==> r.checkedInAt.Some? && r.checkedInAt.value <= r.checkedOutAt.value)
            && (r.confirmedAt.Some? ==> r.expiresAt == Some(r.confirmedAt.value + 3_600_000_000_000))
            && (r.status.CheckedOut? || r.status.Completed? ==> r.checkedOutAt.Some?)
  {
    InitInv(s0);
    RunInv(s0, schedule);
    assert RowShape(Run(s0, schedule).rows[id], Run(s0, schedule).now);
  }

  /** CheckOut's guard against missing timestamps never fires: after its
      transaction the request always goes on to compute the fee of a stay whose
      beginning and end it knows. */
  lemma CheckOutGuardUnreachable(s0: State, schedule: seq<Action>, t: nat)
    requires IsInit(s0)
    requires var s := Run(s0, schedule);
             && t in s.threads && s.threads[t].MoveTxn? && s.threads[t].kind == CheckOut && s.threads[t].id in s.rows
             && (s.threads[t].caller.Some? ==> s.threads[t].caller.value == s.rows[s.threads[t].id].driverId)
    ensures var s := Run(s0, schedule);
            var row, th := s.rows[s.threads[t].id], Step(s, Move(t, Applied)).threads[t];
            if row.status.CheckedIn?
            then th == CheckOutFee(row.(status := CheckedOut, checkedOutAt := Some(s.now), updatedAt := s.now)) && row.checkedInAt.Some?
            else th == Done(None)
  {
    InitInv(s0);
    RunInv(s0, schedule);
    var s := Run(s0, schedule);
    EdgesDescend(s.rows[s.threads[t].id].status, CheckedOut);
    assert RowShape(s.rows[s.threads[t].id], s.now);
  }

  // ------------------------------------------------------------------
  // The stale copy of ConfirmReservation
  // ------------------------------------------------------------------

  /** Writing back the copy read in the first transaction is, in every reachable
      state, the same as updating the row that the second one has just locked. */
  lemma StaleWriteBackIsFresh(s0: State, schedule: seq<Action>, t: nat, write: Write)
    requires IsInit(s0)
    requires var s := Run(s0, schedule);
             && t in s.threads && s.threads[t].ConfirmTxn?
             && s.threads[t].copy.id in s.rows && s.rows[s.threads[t].copy.id].status.WaitingPayment?
    ensures var s := Run(s0, schedule);
            var id := s.threads[t].copy.id;
            && s.threads[t].copy == s.rows[id]
            && Step(s, Confirm(t, write)).rows
               == if write.NotApplied? then s.rows
                  else s.rows[id := s.rows[id].(status := Confirmed, confirmedAt := Some(s.now),
                                                expiresAt := Some(s.now + 3_600_000_000_000), updatedAt := s.now)]
  {
    InitInv(s0);
    RunInv(s0, schedule);
    var s := Run(s0, schedule);
    assert ThreadOk(s.rows, s.spots, s.threads[t]);
    StaleCopyIsFresh(s.rows, s.threads[t].copy);
  }

  // ------------------------------------------------------------------
  // Creating
  // ------------------------------------------------------------------

  /** All successful CreateReservation calls with one key return the same
      reservation, and at most one row carries the key, even when the lookup that
      opens the call fails. */
  lemma IdempotentCreate(s0: State, schedule: seq<Action>, t: nat, u: nat)
    requires IsInit(s0)
    requires var s := Run(s0, schedule);
             && t in s.threads && s.threads[t].CreateDone? && s.threads[t].result.Some?
             && u in s.threads && s.threads[u].CreateDone? && s.threads[u].result.Some?
             && s.threads[t].req.key == s.threads[u].req.key
    ensures var s := Run(s0, schedule);
            var id := s.threads[t].result.value.id;
            && s.threads[u].result.value.id == id
            && id in s.rows && s.rows[id].key == s.threads[t].req.key
            && forall i :: i in s.rows && s.rows[i].key == s.threads[t].req.key ==> i == id
  {
    InitInv(s0);
    RunInv(s0, schedule);
    var s := Run(s0, schedule);
    assert ThreadOk(s.rows, s.spots, s.threads[t]);
    assert ThreadOk(s.rows, s.spots, s.threads[u]);
  }

  predicate DriversOk(rows: Rows) {
    forall i, j | i in rows && j in rows && Indexed(rows[i].status) && Indexed(rows[j].status) ::
      rows[i].driverId == rows[j].driverId ==> i == j
  }

  lemma StepDrivers(s: State, a: Action)
    requires Inv(s) && DriversOk(s.rows)
    ensures DriversOk(Step(s, a).rows)
  {
    hide Inv;
    var rows' := Step(s, a).rows;
    NewRowsAreCreated(s, a);
    forall i, j | i in rows' && j in rows' && Indexed(rows'[i].status) && Indexed(rows'[j].status)
                  && rows'[i].driverId == rows'[j].driverId
      ensures i == j
    {
      if i in s.rows {
        EveryChangeIsAnEdge(s, a, i);
        EdgesDescend(s.rows[i].status, rows'[i].status);
        StillIndexed(s.rows[i], rows'[i], s);
      }
      if j in s.rows {
        EveryChangeIsAnEdge(s, a, j);
        EdgesDescend(s.rows[j].status, rows'[j].status);
        StillIndexed(s.rows[j], rows'[j], s);
      }
    }
  }

  lemma StillIndexed(p: Reservation, q: Reservation, s: State)
    requires RowStep(p, q) && Indexed(q.status) && Inv(s) && p.id in s.rows && s.rows[p.id] == p
    ensures Indexed(p.status) && p.driverId == q.driverId
  {
    EdgesDescend(p.status, q.status);
    assert RowShape(p, s.now);
  }

  /** The only way for a row to appear is the creating transaction's insert. */
  lemma NewRowsAreCreated(s: State, a: Action)
    requires Inv(s)
    ensures forall i | i in s.rows :: s.rows[i].id == i
    ensures forall i | i in Step(s, a).rows && i !in s.rows ::
              && a.Create? && i == a.id
              && !DriverIndexed(s.rows, Step(s, a).rows[i].driverId)
              && (forall j :: j in s.rows ==> Step(s, a).rows[j] == s.rows[j])
  {
    hide SpotsOk, KeysUnique, RowShape;
  }

  lemma {:induction false} RunDrivers(s: State, schedule: seq<Action>)
    requires Inv(s) && DriversOk(s.rows)
    ensures DriversOk(Run(s, schedule).rows)
    decreases |schedule|
  {
    if schedule != [] {
      StepInv(s, schedule[0]);
      StepDrivers(s, schedule[0]);
      RunDrivers(Step(s, schedule[0]), schedule[1..]);
    }
  }

  /** A driver has at most one reservation that waits, is confirmed or checked in. */
  lemma OneReservationPerDriver(s0: State, schedule: seq<Action>, i: string, j: string)
    requires IsInit(s0)
    requires var s := Run(s0, schedule);
             && i in s.rows && j in s.rows && s.rows[i].driverId == s.rows[j].driverId
             && (s.rows[i].status.WaitingPayment? || s.rows[i].status.Confirmed? || s.rows[i].status.CheckedIn?)
             && (s.rows[j].status.WaitingPayment? || s.rows[j].status.Confirmed? || s.rows[j].status.CheckedIn?)
    ensures i == j
  {
    InitInv(s0);
    RunDrivers(s0, schedule);
  }

  /** The unique index on active spots is never what refuses an insert: under the
      spot's row lock an available spot has no active reservation. */
  lemma SpotIndexNeverViolated(s0: State, schedule: seq<Action>, spot: nat)
    requires IsInit(s0)
    requires spot in Run(s0, schedule).spots && Run(s0, schedule).spots[spot].status.Available?
    ensures !SpotIndexed(Run(s0, schedule).rows, spot)
  {
    InitInv(s0);
    RunInv(s0, schedule);
  }

  // ------------------------------------------------------------------
  // A step moves one request
  // ------------------------------------------------------------------

  lemma OthersStay(r: State, a: Action, t: nat)
    requires t in r.threads && (a.Tick? || t != a.t)
    ensures t in Step(r, a).threads && Step(r, a).threads[t] == r.threads[t]
  {
    hide DoCreate, DoMove, DoUndo, DoConfirm, DoComplete, Entered, AfterBilling, AfterPayment;
    if Writes(a) && a.t in r.threads {
      WriteOthersStay(r, r.threads[a.t], a, t);
    }
  }

  lemma WriteOthersStay(r: State, th: Thread, a: Action, t: nat)
    requires t in r.threads && !a.Tick? && t != a.t
    requires Writes(a)
    ensures t in ThreadStep(r, th, a).threads && ThreadStep(r, th, a).threads[t] == r.threads[t]
  {
    hide UpdateSpot, UpdateReservation, CreateVerdict, NewReservation, SpotsAfter, Moved, AfterMove;
  }
}
