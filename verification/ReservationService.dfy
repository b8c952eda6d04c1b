/** The reservation service in its own form: the repository's statements and
    transactions over mutable tables, and the use cases that chain them with calls
    to billing and payment. Between any two transactions or calls other requests
    may take any number of steps. Every transaction and every call is proved to be
    a step of the reservation machine, and every call to be the one that the whole
    system makes there. What a request does to the tables when it is alone, whatever
    fails, and which calls it makes, is proved as well. */
module ReservationService {
  import opened Wrappers
  import opened ReservationModel
  import opened ReservationMachine
  import opened ReservationInvariant
  import opened ReservationContracts
  import PS = ParkingSystem
  import BM = BillingMachine
  import PM = PaymentMachine

  predicate Begins(a: Action) {
    a.BeginCreate? || a.BeginConfirm? || a.BeginMove? || a.BeginComplete?
  }

  lemma Enter(s: State, a: Action)
    requires Begins(a) && a.t !in s.threads
    ensures Step(s, a) == Goto(s, a.t, Entered(a))
  {
  }

  lemma CheckedInHasTime(s: State)
    requires Inv(s)
    ensures forall id :: id in s.rows && s.rows[id].status.CheckedIn? ==> s.rows[id].checkedInAt.Some?
  {
    forall id | id in s.rows && s.rows[id].status.CheckedIn?
      ensures s.rows[id].checkedInAt.Some?
    {
      assert RowShape(s.rows[id], s.now);
    }
  }

  lemma RowsCarryIds(s: State)
    requires Inv(s)
    ensures forall id :: id in s.rows ==> s.rows[id].id == id
  {
  }

  /** A copy that a request goes by is of a row that is still there. */
  lemma CopyIsKnown(s: State, t: nat)
    requires Inv(s) && t in s.threads && (s.threads[t].ConfirmTxn? || s.threads[t].CompleteTxn?)
    ensures var copy := s.threads[t].copy;
            && copy.id in s.rows && s.rows[copy.id].id == copy.id && s.rows[copy.id].driverId == copy.driverId
            && (s.threads[t].ConfirmTxn? && s.rows[copy.id].status.WaitingPayment? ==> s.rows[copy.id] == copy)
  {
    hide KeysUnique, SpotsOk, RowShape;
    assert ThreadOk(s.rows, s.spots, s.threads[t]);
  }

  /** Rows are never lost, so the loser of a race on the key finds the winner's. */
  lemma WinnerIsThere(s: State, t: nat)
    requires Inv(s) && t in s.threads && s.threads[t].CreateRefetch?
    ensures HasKey(s.rows, s.threads[t].req.key)
  {
    hide RowsOk, KeysUnique, SpotsOk;
    assert ThreadOk(s.rows, s.spots, s.threads[t]);
  }

  lemma Proceed(s: State, a: Action)
    requires !Begins(a) && !a.Tick? && a.t in s.threads
    ensures Step(s, a) == ThreadStep(s, s.threads[a.t], a)
  {
  }

  /** What one transaction on one row does to the tables. */
  ghost predicate Moves(z: Tables, z': Tables, kind: Kind, id: string, caller: Option<nat>, commit: Write, result: Option<Reservation>) {
    if commit.TakesEffect() && id in z.rows && CallerOk(z.rows[id], caller) && Edge(z.rows[id].status, Target(kind)) then
      var r := Moved(kind, z.rows[id], z.now);
      && z' == Tables(UpdateReservation(z.rows, r), SpotsAfter(kind, z.spots, r.spotId), z.now)
      && result == if commit.Applied? then Some(r) else None
    else z' == z && result == None
  }

  lemma NothingPaid(id: string, env: Env)
    ensures env.Told? ==> PaysOrRefunds(id, env, [], None)
  {
  }

  class Service {
    var spots: map<nat, Spot>
    var rows: map<string, Reservation>
    var now: int
    ghost var threads: map<nat, Thread>
    /** The calls that each request has made, in order. */
    ghost var asked: map<nat, seq<Call>>

    ghost function S(): State
      reads this
    {
      State(spots, rows, threads, now)
    }

    ghost function T(): Tables
      reads this`rows, this`spots, this`now
    {
      Tables(rows, spots, now)
    }

    ghost function Asked(t: nat): seq<Call>
      reads this`asked
    {
      if t in asked then asked[t] else []
    }

    constructor (spots: map<nat, Spot>, now: int)
      requires forall sp :: sp in spots ==> spots[sp].status.Available?
      ensures IsInit(S()) && this.spots == spots
    {
      this.spots, this.now := spots, now;
      rows, threads, asked := map[], map[], map[];
    }

    // ----------------------------------------------------------------
    // The repository
    // ----------------------------------------------------------------

    method FindByIdempotencyKey(key: string) returns (found: Option<Reservation>)
      requires KeysUnique(rows)
      ensures found == FindByKey(rows, key)
    {
      var todo := rows.Keys;
      while todo != {}
        invariant todo <= rows.Keys
        invariant forall id :: id in rows && id !in todo ==> rows[id].key != key
      {
        var id :| id in todo;
        if rows[id].key == key {
          return Some(rows[id]);
        }
        todo := todo - {id};
      }
      return None;
    }

    /** The first available spot by floor and number. */
    method FindAvailableSpot(vt: VehicleType) returns (spot: Option<nat>)
      ensures spot.Some? ==>
                && spot.value in spots && spots[spot.value].vehicleType == vt && spots[spot.value].status.Available?
                && forall q :: q in spots && spots[q].vehicleType == vt && spots[q].status.Available? ==>
                     && spots[spot.value].floor <= spots[q].floor
                     && (spots[q].floor == spots[spot.value].floor ==> spots[spot.value].number <= spots[q].number)
      ensures spot.None? ==> forall q :: q in spots && spots[q].vehicleType == vt ==> !spots[q].status.Available?
    {
      spot := None;
      var todo := spots.Keys;
      while todo != {}
        invariant todo <= spots.Keys
        invariant spot.None? ==> forall q :: q in spots && q !in todo && spots[q].vehicleType == vt ==> !spots[q].status.Available?
        invariant spot.Some? ==> spot.value in spots && spots[spot.value].vehicleType == vt && spots[spot.value].status.Available?
        invariant spot.Some? ==>
                    forall q :: q in spots && q !in todo && spots[q].vehicleType == vt && spots[q].status.Available? ==>
                      && spots[spot.value].floor <= spots[q].floor
                      && (spots[q].floor == spots[spot.value].floor ==> spots[spot.value].number <= spots[q].number)
      {
        var q :| q in todo;
        if spots[q].vehicleType == vt && spots[q].status.Available? {
          if spot.None? || Before(spots[q], spots[spot.value]) {
            spot := Some(q);
          }
        }
        todo := todo - {q};
      }
    }

    method UpdateReservationTx(r: Reservation)
      modifies this`rows
      ensures rows == UpdateReservation(old(rows), r)
    {
      if r.id in rows {
        var row := rows[r.id];
        rows := rows[r.id := row.(status := r.status, confirmedAt := r.confirmedAt, expiresAt := r.expiresAt,
                                  checkedInAt := r.checkedInAt, checkedOutAt := r.checkedOutAt,
                                  cancelledAt := r.cancelledAt, updatedAt := r.updatedAt)];
      }
    }

    method UpdateSpotStatusTx(spot: nat, st: SpotStatus)
      modifies this`spots
      ensures spots == UpdateSpot(old(spots), spot, st)
    {
      if spot in spots {
        spots := spots[spot := spots[spot].(status := st)];
      }
    }

    /** The end of WithTransaction: a commit that may fail, or whose reply may be
        lost. A failed one leaves the tables as they were at the beginning. */
    method EndTransaction(savedRows: map<string, Reservation>, savedSpots: map<nat, Spot>, env: Env, told: Write)
      returns (write: Write)
      modifies this`rows, this`spots
      ensures write.TakesEffect() ==> rows == old(rows) && spots == old(spots)
      ensures !write.TakesEffect() ==> rows == savedRows && spots == savedSpots
      ensures env.Told? ==> write == told
    {
      write := *;
      if env.Told? {
        write := told;
      }
      if write.NotApplied? {
        rows, spots := savedRows, savedSpots;
      }
    }

    /** Whether a read or a lock fails. */
    method Failing(fault: Fault, env: Env) returns (fails: bool)
      ensures env.Told? ==> fails == env.Fails(fault)
    {
      fails := *;
      if env.Told? {
        fails := fault in env.faults;
      }
    }

    /** uuid.New() */
    method NewId() returns (id: string)
      ensures id !in rows
    {
      id := "";
      var todo := rows.Keys;
      while todo != {}
        invariant todo <= rows.Keys
        invariant forall i :: i in rows && i !in todo ==> |i| < |id|
      {
        var i :| i in todo;
        id := if |i| < |id| then id else i + "x";
        todo := todo - {i};
      }
    }

    // ----------------------------------------------------------------
    // Other requests
    // ----------------------------------------------------------------

    /** Anything that other requests, timers and the clock may do meanwhile; the
        callers know no more of it than its contract. */
    method Interference(ghost s0: State, ghost t: nat, env: Env)
      requires Reaches(s0, S()) && t in threads && Inv(S())
      modifies this
      ensures Reaches(s0, S()) && t in threads && threads[t] == old(threads[t]) && Inv(S())
      ensures Asked(t) == old(Asked(t))
      ensures env.Alone() ==> T() == old(T())
    {
    }

    /** This request's own transaction or call was a step of the machine. */
    ghost method Advance(s0: State, s: State, a: Action)
      requires Reaches(s0, s) && Inv(s) && !Begins(a) && !a.Tick? && a.t in s.threads
      requires S() == ThreadStep(s, s.threads[a.t], a)
      ensures Reaches(s0, S()) && Inv(S())
    {
      Proceed(s, a);
      ReachesStep(s0, s, a);
      StepInv(s, a);
    }

    method BeginRequest(ghost a: Action, env: Env)
      requires Inv(S()) && Begins(a) && a.t !in threads
      modifies this
      ensures Reaches(old(S()), S()) && Inv(S()) && a.t in threads && threads[a.t] == Entered(a)
      ensures Asked(a.t) == []
      ensures env.Alone() ==> T() == old(T())
    {
      ghost var s0 := S();
      assert Run(s0, []) == s0;
      Enter(s0, a);
      threads, asked := threads[a.t := Entered(a)], asked[a.t := []];
      ReachesStep(s0, s0, a);
      StepInv(s0, a);
      Interference(s0, a.t, env);
    }

    /** A call to the billing service: any answer, or an error, after any delay. */
    method CallBilling(ghost s0: State, ghost t: nat, req: BM.Request, env: Env) returns (bill: Option<Bill>)
      requires Reaches(s0, S()) && Inv(S()) && t in threads && PS.BillingRequest(threads[t]) == Some(req)
      modifies this
      ensures Reaches(s0, S()) && Inv(S()) && t in threads
      ensures threads[t] == AfterBilling(old(threads[t]), bill)
      ensures Asked(t) == old(Asked(t)) + [AskBilling(req)]
      ensures env.Told? ==> bill == env.billing(req)
      ensures env.Alone() ==> T() == old(T())
    {
      hide Reaches, Inv, PS.BillingRequest;
      bill := *;
      if env.Told? {
        bill := env.billing(req);
      }
      ghost var s := S();
      threads, asked := threads[t := AfterBilling(threads[t], bill)], asked[t := Asked(t) + [AskBilling(req)]];
      Advance(s0, s, BillingReply(t, bill));
      Interference(s0, t, env);
    }

    /** A call to the payment service; the system makes it where the payment service's
        handler lets its amount pass. */
    method CallPayment(ghost s0: State, ghost t: nat, pay: PM.PayRequest, env: Env) returns (pid: Option<nat>)
      requires Reaches(s0, S()) && Inv(S()) && t in threads && (threads[t].ConfirmPay? || threads[t].CompletePay?)
      requires PS.ChargeRequest(threads[t]).Some? ==> PS.ChargeRequest(threads[t]) == Some(pay)
      modifies this
      ensures Reaches(s0, S()) && Inv(S()) && t in threads
      ensures threads[t] == AfterPayment(old(threads[t]), pid)
      ensures Asked(t) == old(Asked(t)) + [AskPayment(pay)]
      ensures env.Told? ==> pid == env.payment(pay)
      ensures env.Alone() ==> T() == old(T())
    {
      hide Reaches, Inv, PS.ChargeRequest;
      pid := *;
      if env.Told? {
        pid := env.payment(pay);
      }
      ghost var s := S();
      threads, asked := threads[t := AfterPayment(threads[t], pid)], asked[t := Asked(t) + [AskPayment(pay)]];
      Advance(s0, s, PaymentReply(t, pid));
      Interference(s0, t, env);
    }

    /** The call that gives a payment back; its answer does not matter. */
    method CallRefund(ghost s0: State, ghost t: nat, payment: nat, env: Env)
      requires Reaches(s0, S()) && Inv(S()) && t in threads && threads[t].ConfirmRefund? && threads[t].pid == payment
      modifies this
      ensures Reaches(s0, S()) && Inv(S()) && t in threads && threads[t] == Done(None)
      ensures Asked(t) == old(Asked(t)) + [AskRefund(payment)]
      ensures env.Alone() ==> T() == old(T())
    {
      hide Reaches, Inv;
      var answer: Option<nat> := *;
      ghost var s := S();
      threads, asked := threads[t := Done(None)], asked[t := Asked(t) + [AskRefund(payment)]];
      Advance(s0, s, PaymentReply(t, answer));
      Interference(s0, t, env);
    }

    // ----------------------------------------------------------------
    // CreateReservation
    // ----------------------------------------------------------------

    method CreateReservation(ghost t: nat, req: CreateRequest, env: Env) returns (result: Option<Reservation>)
      requires Inv(S()) && t !in threads
      modifies this
      ensures Reaches(old(S()), S()) && Inv(S())
      ensures t in threads && threads[t] == CreateDone(req, result)
      ensures env.Alone() ==> Creates(old(T()), T(), req, env, Asked(t), result)
      ensures result.Some? ==> result.value.key == req.key && (Asked(t) == [] || AskedToStart(req, result.value, Asked(t)))
    {
      hide Reaches, Inv, Step, ThreadStep, CreatesNew, HasKey;
      ghost var s0 := S();
      BeginRequest(BeginCreate(t, req), env);
      result := CheckKey(s0, t, req, env);
      if result.Some? {
        return;
      }
      Interference(s0, t, env);
      result := CreateNew(s0, t, req, env);
    }

    /** From the choice of a spot on. */
    method CreateNew(ghost s0: State, ghost t: nat, req: CreateRequest, env: Env) returns (result: Option<Reservation>)
      requires Reaches(s0, S()) && Inv(S()) && t in threads && threads[t] == CreatePick(req) && Asked(t) == []
      modifies this
      ensures Reaches(s0, S()) && Inv(S()) && t in threads && threads[t] == CreateDone(req, result)
      ensures env.Alone() ==> CreatesNew(old(T()), T(), req, env, Asked(t), result)
      ensures result.Some? ==> result.value.key == req.key && (Asked(t) == [] || AskedToStart(req, result.value, Asked(t)))
    {
      hide Reaches, Inv, Books;
      var spot := PickSpot(s0, t, req, env);
      if spot.None? {
        return None;
      }
      Interference(s0, t, env);
      result := Book(s0, t, req, spot.value, env);
    }

    /** From the distributed lock on. */
    method Book(ghost s0: State, ghost t: nat, req: CreateRequest, spot: nat, env: Env) returns (result: Option<Reservation>)
      requires Reaches(s0, S()) && Inv(S()) && t in threads && threads[t] == CreateLock(req, spot) && Asked(t) == []
      modifies this
      ensures Reaches(s0, S()) && Inv(S()) && t in threads && threads[t] == CreateDone(req, result)
      ensures env.Alone() ==> Books(old(T()), T(), req, spot, env, Asked(t), result)
      ensures result.Some? ==> result.value.key == req.key && (Asked(t) == [] || AskedToStart(req, result.value, Asked(t)))
    {
      hide Reaches, Inv, HasKey, DriverBusy, BooksAs;
      var at := AcquireLock(s0, t, req, spot, env);
      if at.None? {
        return None;
      }
      Interference(s0, t, env);
      result := BookLocked(s0, t, req, spot, at.value, env);
    }

    /** From the creating transaction on. */
    method BookLocked(ghost s0: State, ghost t: nat, req: CreateRequest, spot: nat, at: int, env: Env)
      returns (result: Option<Reservation>)
      requires Reaches(s0, S()) && Inv(S()) && t in threads && threads[t] == CreateTxn(req, spot, at) && Asked(t) == []
      modifies this
      ensures Reaches(s0, S()) && Inv(S()) && t in threads && threads[t] == CreateDone(req, result)
      ensures env.Alone() && !env.Fails(SpotLock) && at == old(now) ==>
                Books(old(T()), T(), req, spot, env, Asked(t), result)
      ensures result.Some? ==> result.value.key == req.key && (Asked(t) == [] || AskedToStart(req, result.value, Asked(t)))
    {
      hide Reaches, Inv, HasKey, DriverBusy, FailedRow, BooksAs;
      ghost var z := T();
      var verdict, reservation := CreateTransaction(s0, t, req, spot, at, env);
      Interference(s0, t, env);
      match verdict
      case Refused =>
        result := None;
        if env.Alone() && at == z.now && env.commit.ReplyLost? && Booked(z, T(), req, spot, at, reservation) {
          LostBooking(z, T(), req, spot, env, reservation);
        }
      case Duplicate => result := FetchExisting(s0, t, req, env);
      case Inserts =>
        ghost var booked := T();
        result := BillOrUndo(s0, t, req, reservation, env);
        if env.Alone() && at == z.now {
          KeptBooking(z, booked, T(), req, spot, env, reservation, result);
        }
        assert Asked(t) == [AskBilling(BM.StartBilling(reservation.id, 5_000, "billing-" + reservation.id))];
    }

    /** Without a billing record the new reservation is failed again. */
    method BillOrUndo(ghost s0: State, ghost t: nat, req: CreateRequest, reservation: Reservation, env: Env)
      returns (result: Option<Reservation>)
      requires Reaches(s0, S()) && Inv(S()) && t in threads && threads[t] == CreateBill(req, reservation)
      modifies this
      ensures Reaches(s0, S()) && Inv(S()) && t in threads && threads[t] == CreateDone(req, result)
      ensures Asked(t) == old(Asked(t)) + [AskBilling(BM.StartBilling(reservation.id, 5_000, "billing-" + reservation.id))]
      ensures result.Some? ==> result.value == reservation
      ensures env.Told? ==>
                var start := BM.StartBilling(reservation.id, 5_000, "billing-" + reservation.id);
                result == if env.billing(start).Some? then Some(reservation) else None
      ensures env.Alone() && reservation.id in old(rows) && old(rows)[reservation.id].status.WaitingPayment? ==>
                if result.Some? || env.undo.NotApplied? then T() == old(T()) else FailedRow(old(T()), T(), reservation.id)
    {
      hide Reaches, Inv;
      var bill := CallBilling(s0, t, BM.StartBilling(reservation.id, 5_000, "billing-" + reservation.id), env);
      result := None;
      if bill.Some? {
        result := Some(reservation);
      } else {
        FailReservationInternal(s0, t, reservation, env);
      }
    }

    /** Only a lookup that succeeds and finds a row ends the request. */
    method CheckKey(ghost s0: State, ghost t: nat, req: CreateRequest, env: Env) returns (result: Option<Reservation>)
      requires Reaches(s0, S()) && Inv(S()) && t in threads && threads[t] == CreateLookup(req)
      modifies this`threads
      ensures Reaches(s0, S()) && Inv(S()) && t in threads
      ensures threads[t] == if result.Some? then CreateDone(req, result) else CreatePick(req)
      ensures env.Told? ==> (result.Some? <==> !env.Fails(KeyLookup) && HasKey(rows, req.key))
      ensures result.Some? ==> Existing(rows, req.key, result)
    {
      hide Reaches, RowsOk, SpotsOk, ThreadsOk, HasKey, Existing;
      ghost var s := S();
      FoundIsExisting(s, req.key);
      var fails := Failing(KeyLookup, env);
      result := None;
      if !fails {
        result := FindByIdempotencyKey(req.key);
      }
      threads := threads[t := if result.Some? then CreateDone(req, result) else CreatePick(req)];
      Advance(s0, s, Lookup(t, fails));
    }

    method PickSpot(ghost s0: State, ghost t: nat, req: CreateRequest, env: Env) returns (spot: Option<nat>)
      requires Reaches(s0, S()) && Inv(S()) && t in threads && threads[t] == CreatePick(req)
      modifies this`threads
      ensures Reaches(s0, S()) && Inv(S()) && t in threads
      ensures threads[t] == if spot.Some? then CreateLock(req, spot.value) else CreateDone(req, None)
      ensures env.Told? ==>
                match req.mode
                case OtherMode => spot == None
                case UserSelected => spot == Some(req.spotId)
                case SystemAssigned =>
                  && (spot.Some? ==> !env.Fails(SpotQuery) && LowestFree(spots, req.vehicleType, spot.value))
                  && (spot.None? ==> env.Fails(SpotQuery) || NoneAvailable(spots, req.vehicleType))
    {
      hide Reaches, Inv;
      ghost var s := S();
      match req.mode {
        case SystemAssigned =>
          spot := FindAvailableSpot(req.vehicleType);
          if spot.Some? {
            LowestIsFirst(spots, req.vehicleType, spot.value);
          }
          var fails := Failing(SpotQuery, env);
          if fails {
            spot := None;
          }
        case UserSelected => spot := Some(req.spotId);
        case OtherMode => spot := None;
      }
      threads := threads[t := if spot.Some? then CreateLock(req, spot.value) else CreateDone(req, None)];
      Advance(s0, s, Pick(t, spot));
    }

    /** The distributed lock may be granted or refused for any reason at all. */
    method AcquireLock(ghost s0: State, ghost t: nat, req: CreateRequest, spot: nat, env: Env) returns (at: Option<int>)
      requires Reaches(s0, S()) && Inv(S()) && t in threads && threads[t] == CreateLock(req, spot)
      modifies this`threads
      ensures Reaches(s0, S()) && Inv(S()) && t in threads
      ensures threads[t] == if at.Some? then CreateTxn(req, spot, at.value) else CreateDone(req, None)
      ensures env.Told? ==> at == if env.Fails(SpotLock) then None else Some(now)
    {
      hide Reaches, Inv;
      ghost var s := S();
      var refused := Failing(SpotLock, env);
      at := if refused then None else Some(now);
      threads := threads[t := if refused then CreateDone(req, None) else CreateTxn(req, spot, now)];
      Advance(s0, s, Acquire(t, !refused));
    }

    /** The double check under the spot's row lock, the insert and the spot's update. */
    method CreateTables(req: CreateRequest, spot: nat, at: int, env: Env)
      returns (verdict: InsertVerdict, reservation: Reservation, write: Write, driverIndexFirst: bool)
      modifies this`rows, this`spots
      ensures reservation.id !in old(rows)
      ensures reservation == Reservation(reservation.id, req.driverId, spot, req.vehicleType, req.mode, WaitingPayment, req.key,
                                         None, None, None, None, None, at, at)
      ensures verdict == if write.Applied? then CreateVerdict(old(S()), req, spot, driverIndexFirst) else Refused
      ensures env.Told? ==>
                write == if CreateVerdict(old(S()), req, spot, driverIndexFirst).Inserts? then env.commit else Applied
      ensures if CreateVerdict(old(S()), req, spot, driverIndexFirst).Inserts? && write.TakesEffect()
              then rows == old(rows)[reservation.id := reservation] && spots == UpdateSpot(old(spots), spot, Reserved)
              else rows == old(rows) && spots == old(spots)
    {
      var savedRows, savedSpots := rows, spots;
      var id := NewId();
      reservation := Reservation(id, req.driverId, spot, req.vehicleType, req.mode, WaitingPayment, req.key,
                                 None, None, None, None, None, at, at);
      driverIndexFirst, write, verdict := *, *, Refused;
      if env.Told? {
        write := Applied;
      }
      if spot in spots && spots[spot].status.Available? && !(req.mode.UserSelected? && spots[spot].vehicleType != req.vehicleType) {
        verdict := InsertOutcome(req, spot, driverIndexFirst);
        if verdict.Inserts? {
          rows := rows[id := reservation];
          UpdateSpotStatusTx(spot, Reserved);
          write := EndTransaction(savedRows, savedSpots, env, env.Commit());
        }
      }
      verdict := if write.Applied? then verdict else Refused;
    }

    method CreateTransaction(ghost s0: State, ghost t: nat, req: CreateRequest, spot: nat, at: int, env: Env)
      returns (verdict: InsertVerdict, reservation: Reservation)
      requires Reaches(s0, S()) && Inv(S()) && t in threads && threads[t] == CreateTxn(req, spot, at)
      modifies this`rows, this`spots, this`threads
      ensures Reaches(s0, S()) && Inv(S()) && t in threads
      ensures threads[t] == match verdict
                            case Refused => CreateDone(req, None)
                            case Duplicate => CreateRefetch(req)
                            case Inserts => CreateBill(req, reservation)
      ensures reservation.key == req.key && reservation.driverId == req.driverId && reservation.status.WaitingPayment?
      ensures env.Told? ==>
                if !CanHave(old(spots), req, spot) then verdict.Refused? && T() == old(T())
                else if HasKey(old(rows), req.key) || DriverBusy(old(rows), req.driverId) then
                  && T() == old(T()) && !verdict.Inserts? && (verdict.Duplicate? ==> HasKey(old(rows), req.key))
                  && (!DriverBusy(old(rows), req.driverId) ==> verdict.Duplicate?)
                else if env.commit.NotApplied? then verdict.Refused? && T() == old(T())
                else
                  && verdict == (if env.commit.Applied? then Inserts else Refused)
                  && Booked(old(T()), T(), req, spot, at, reservation)
    {
      hide Reaches, Inv, CreateVerdict, HasKey, DriverBusy;
      ghost var s := S();
      var write, driverIndexFirst;
      verdict, reservation, write, driverIndexFirst := CreateTables(req, spot, at, env);
      VerdictSpelled(s, req, spot, driverIndexFirst);
      threads := threads[t := match verdict
                              case Refused => CreateDone(req, None)
                              case Duplicate => CreateRefetch(req)
                              case Inserts => CreateBill(req, reservation)];
      Advance(s0, s, Create(t, reservation.id, write, driverIndexFirst));
    }

    /** What the unique indexes say to an insert. */
    method InsertOutcome(req: CreateRequest, spot: nat, driverIndexFirst: bool) returns (v: InsertVerdict)
      ensures var driver := DriverIndexed(rows, req.driverId);
              var other := KeyTaken(rows, req.key) || SpotIndexed(rows, spot);
              v == if driver && (driverIndexFirst || !other) then Refused else if other then Duplicate else Inserts
    {
      var driver, other := false, false;
      var todo := rows.Keys;
      while todo != {}
        invariant todo <= rows.Keys
        invariant driver <==> exists id :: id in rows && id !in todo && rows[id].driverId == req.driverId && Indexed(rows[id].status)
        invariant other <==> exists id :: id in rows && id !in todo
                               && (rows[id].key == req.key || (rows[id].spotId == spot && Indexed(rows[id].status)))
      {
        var id :| id in todo;
        driver := driver || (rows[id].driverId == req.driverId && Indexed(rows[id].status));
        other := other || rows[id].key == req.key || (rows[id].spotId == spot && Indexed(rows[id].status));
        todo := todo - {id};
      }
      v := if driver && (driverIndexFirst || !other) then Refused else if other then Duplicate else Inserts;
    }

    method FetchExisting(ghost s0: State, ghost t: nat, req: CreateRequest, env: Env) returns (result: Option<Reservation>)
      requires Reaches(s0, S()) && Inv(S()) && t in threads && threads[t] == CreateRefetch(req)
      modifies this`threads
      ensures Reaches(s0, S()) && Inv(S()) && t in threads && threads[t] == CreateDone(req, result)
      ensures env.Told? ==> (result.Some? <==> !env.Fails(KeyRefetch))
      ensures result.Some? ==> Existing(rows, req.key, result)
    {
      hide Reaches, RowsOk, SpotsOk, ThreadsOk, HasKey, Existing;
      ghost var s := S();
      FoundIsExisting(s, req.key);
      WinnerIsThere(s, t);
      var fails := Failing(KeyRefetch, env);
      result := None;
      if !fails {
        result := FindByIdempotencyKey(req.key);
      }
      threads := threads[t := CreateDone(req, result)];
      Advance(s0, s, Refetch(t, fails));
    }

    /** failReservationInternal, for both its callers; errors are only logged. */
    method FailReservationInternal(ghost s0: State, ghost t: nat, reservation: Reservation, env: Env)
      requires Reaches(s0, S()) && Inv(S()) && t in threads
      requires (threads[t].CreateUndo? || threads[t].ConfirmUndo?) && threads[t].copy == reservation
      modifies this`rows, this`spots, this`threads
      ensures Reaches(s0, S()) && Inv(S()) && t in threads
      ensures threads[t] == if old(threads[t]).CreateUndo? then CreateDone(old(threads[t]).req, None) else Done(None)
      ensures env.Told? ==>
                if !env.undo.NotApplied? && reservation.id in old(rows) && old(rows)[reservation.id].status.WaitingPayment?
                then FailedRow(old(T()), T(), reservation.id) else T() == old(T())
    {
      hide Reaches, Inv;
      ghost var s := S();
      RowsCarryIds(s);
      var savedRows, savedSpots := rows, spots;
      if reservation.id in rows && rows[reservation.id].status.WaitingPayment? {
        var locked := rows[reservation.id];
        locked := locked.(status := Failed, updatedAt := now);
        UpdateReservationTx(locked);
        UpdateSpotStatusTx(locked.spotId, Available);
        WriteSpelled(s, locked, Available);
      }
      var write := EndTransaction(savedRows, savedSpots, env, env.Undo());
      threads := threads[t := if s.threads[t].CreateUndo? then CreateDone(s.threads[t].req, None) else Done(None)];
      Advance(s0, s, Undo(t, write));
    }

    // ----------------------------------------------------------------
    // ConfirmReservation
    // ----------------------------------------------------------------

    method ConfirmReservation(ghost t: nat, id: string, caller: Option<nat>, env: Env) returns (result: Option<Reservation>)
      requires Inv(S()) && t !in threads
      modifies this
      ensures Reaches(old(S()), S()) && Inv(S()) && t in threads && threads[t] == Done(result)
      ensures result.Some? ==>
                && result.value.id == id && result.value.status.Confirmed?
                && (caller.Some? ==> result.value.driverId == caller.value)
      ensures env.Told? ==> PaysOrRefunds(id, env, Asked(t), result)
      ensures env.Alone() && caller.Some? && id in old(rows) && old(rows)[id].driverId != caller.value ==>
                result.None? && T() == old(T()) && Asked(t) == []
      ensures env.Alone() ==>
                if !env.Fails(FirstRead) && id in old(rows) && old(rows)[id].status.WaitingPayment?
                   && (caller.None? || caller.value == old(rows)[id].driverId)
                then Confirms(old(T()), T(), id, env, Asked(t), result)
                else T() == old(T()) && Asked(t) == [] && result.None?
    {
      hide Reaches, Inv, Step, ThreadStep, PaysOrRefunds, Confirms;
      ghost var s0 := S();
      BeginRequest(BeginConfirm(t, id, caller), env);
      var copy := ReadWaiting(s0, t, id, caller, env);
      if copy.None? {
        NothingPaid(id, env);
        return None;
      }
      Interference(s0, t, env);
      result := PayAndConfirm(s0, t, copy.value, env);
    }

    /** Everything after the first transaction: bill, pay, confirm, or compensate. */
    method PayAndConfirm(ghost s0: State, ghost t: nat, copy: Reservation, env: Env) returns (result: Option<Reservation>)
      requires Reaches(s0, S()) && Inv(S()) && t in threads && threads[t] == ConfirmBill(copy) && Asked(t) == []
      modifies this
      ensures Reaches(s0, S()) && Inv(S()) && t in threads && threads[t] == Done(result)
      ensures result.Some? ==>
                result.value.id == copy.id && result.value.driverId == copy.driverId && result.value.status.Confirmed?
      ensures env.Told? ==> PaysOrRefunds(copy.id, env, Asked(t), result)
      ensures env.Alone() && copy.id in old(rows) && old(rows)[copy.id] == copy && copy.status.WaitingPayment? ==>
                Confirms(old(T()), T(), copy.id, env, Asked(t), result)
    {
      hide Reaches, Inv, FailedRow, ConfirmedOrNot, Confirms, PaysOrRefunds, BookingPayment;
      ghost var z := T();
      var bill, pid := BillAndPay(s0, t, copy, env);
      if bill.None? {
        if env.Told? {
          UnbilledIs(z, copy.id, env);
        }
        return None;
      }
      if pid.None? {
        FailReservationInternal(s0, t, copy, env);
        if env.Told? {
          UnpaidIs(z, T(), copy.id, env, bill.value);
        }
        return None;
      }
      CopyIsKnown(S(), t);
      ghost var refund := !rows[copy.id].status.WaitingPayment?;
      result := ConfirmOrRefund(s0, t, copy, pid.value, env);
      if env.Told? {
        PaidIs(z, T(), copy.id, env, bill.value, pid.value, refund, result);
      }
    }

    /** The billing record again, and then the payment of the booking fee. */
    method BillAndPay(ghost s0: State, ghost t: nat, copy: Reservation, env: Env) returns (bill: Option<Bill>, pid: Option<nat>)
      requires Reaches(s0, S()) && Inv(S()) && t in threads && threads[t] == ConfirmBill(copy) && Asked(t) == []
      modifies this
      ensures Reaches(s0, S()) && Inv(S()) && t in threads
      ensures threads[t] == if bill.None? then Done(None) else if pid.None? then ConfirmUndo(copy) else ConfirmTxn(copy, pid.value)
      ensures env.Told? ==>
                && bill == env.billing(BookingBill(copy.id))
                && (bill.Some? ==> pid == env.payment(BookingPayment(copy.id, bill.value)))
                && Asked(t) == if bill.None? then [AskBilling(BookingBill(copy.id))]
                               else [AskBilling(BookingBill(copy.id)), AskPayment(BookingPayment(copy.id, bill.value))]
      ensures env.Alone() ==> T() == old(T())
    {
      hide Reaches, Inv;
      pid := None;
      bill := CallBilling(s0, t, BM.StartBilling(copy.id, 5_000, "billing-" + copy.id), env);
      if bill.Some? {
        pid := CallPayment(s0, t, PM.PayRequest(bill.value.recordId, 5_000, "booking-payment-" + copy.id), env);
      }
    }

    /** A reservation that stopped waiting meanwhile has its payment refunded. */
    method ConfirmOrRefund(ghost s0: State, ghost t: nat, copy: Reservation, pid: nat, env: Env)
      returns (result: Option<Reservation>)
      requires Reaches(s0, S()) && Inv(S()) && t in threads && threads[t] == ConfirmTxn(copy, pid)
      modifies this
      ensures Reaches(s0, S()) && Inv(S()) && t in threads && threads[t] == Done(result)
      ensures result.Some? ==>
                result.value.id == copy.id && result.value.driverId == copy.driverId && result.value.status.Confirmed?
      ensures env.Told? ==>
                if old(rows)[copy.id].status.WaitingPayment?
                then Asked(t) == old(Asked(t)) && (result.Some? <==> env.commit.Applied?)
                else Asked(t) == old(Asked(t)) + [AskRefund(pid)] && result.None?
      ensures env.Alone() && old(rows)[copy.id].status.WaitingPayment? ==> ConfirmedOrNot(old(T()), T(), copy.id, env, result)
    {
      hide Reaches, Inv, ConfirmedOrNot;
      CopyIsKnown(S(), t);
      var refund;
      refund, result := ConfirmTransaction(s0, t, copy, pid, env);
      if refund {
        Interference(s0, t, env);
        CallRefund(s0, t, pid, env);
        return None;
      }
    }

    method ReadWaiting(ghost s0: State, ghost t: nat, id: string, caller: Option<nat>, env: Env)
      returns (copy: Option<Reservation>)
      requires Reaches(s0, S()) && Inv(S()) && t in threads && threads[t] == ConfirmRead(id, caller)
      modifies this`threads
      ensures Reaches(s0, S()) && Inv(S()) && t in threads
      ensures threads[t] == if copy.Some? then ConfirmBill(copy.value) else Done(None)
      ensures copy.Some? ==>
                && id in rows && copy.value == rows[id] && rows[id].id == id && rows[id].status.WaitingPayment?
                && (caller.Some? ==> rows[id].driverId == caller.value)
      ensures env.Told? && copy.None? ==>
                || env.Fails(FirstRead) || id !in rows || !rows[id].status.WaitingPayment?
                || (caller.Some? && rows[id].driverId != caller.value)
      ensures env.Fails(FirstRead) ==> copy.None?
    {
      hide Reaches, Inv;
      ghost var s := S();
      RowsCarryIds(s);
      var fails := Failing(FirstRead, env);
      copy := None;
      if !fails && id in rows && CallerOk(rows[id], caller) && rows[id].status == WaitingPayment {
        copy := Some(rows[id]);
      }
      threads := threads[t := if copy.Some? then ConfirmBill(copy.value) else Done(None)];
      Advance(s0, s, ReadLocked(t, fails));
    }

    /** Locks the row again, checks that it still waits, and then writes back the
        copy that the first transaction read. */
    method ConfirmTables(copy: Reservation, ghost pid: nat, env: Env) returns (refund: bool, write: Write, result: Option<Reservation>)
      requires copy.id in rows && rows[copy.id].id == copy.id
      requires rows[copy.id].status.WaitingPayment? ==> rows[copy.id] == copy
      modifies this`rows, this`spots
      ensures forall t: nat ::
                Goto(S(), t, if refund then ConfirmRefund(copy, pid) else Done(result))
                == DoConfirm(old(S()), t, copy, pid, write)
      ensures refund ==> !old(rows)[copy.id].status.WaitingPayment?
      ensures !old(rows)[copy.id].status.WaitingPayment? ==> result.None? && T() == old(T())
      ensures env.Told? ==> refund == !old(rows)[copy.id].status.WaitingPayment?
      ensures env.Told? && !refund ==> (result.Some? <==> env.commit.Applied?)
      ensures env.Told? && !refund ==> ConfirmedOrNot(old(T()), T(), copy.id, env, result)
      ensures result.Some? ==>
                result.value.id == copy.id && result.value.driverId == copy.driverId && result.value.status.Confirmed?
    {
      ConfirmSpelled(rows, copy.id, now);
      var savedRows, savedSpots := rows, spots;
      var begun: bool := *;
      begun := begun || env.Told?;
      refund, result, write := false, None, NotApplied;
      if begun {
        if rows[copy.id].status != WaitingPayment {
          refund, write := true, Applied;
        } else {
          var reservation := copy.(status := Confirmed, confirmedAt := Some(now),
                                   expiresAt := Some(now + CONFIRMATION_EXPIRY), updatedAt := now);
          UpdateReservationTx(reservation);
          write := EndTransaction(savedRows, savedSpots, env, env.Commit());
          result := if write.Applied? then Some(reservation) else None;
        }
      }
    }

    method ConfirmTransaction(ghost s0: State, ghost t: nat, copy: Reservation, pid: nat, env: Env)
      returns (refund: bool, result: Option<Reservation>)
      requires Reaches(s0, S()) && Inv(S()) && t in threads && threads[t] == ConfirmTxn(copy, pid)
      modifies this`rows, this`spots, this`threads
      ensures Reaches(s0, S()) && Inv(S()) && t in threads
      ensures threads[t] == if refund then ConfirmRefund(copy, pid) else Done(result)
      ensures copy.id in old(rows)
      ensures !old(rows)[copy.id].status.WaitingPayment? ==> result.None? && T() == old(T())
      ensures refund ==> !old(rows)[copy.id].status.WaitingPayment? && T() == old(T()) && result.None?
      ensures env.Told? ==> refund == !old(rows)[copy.id].status.WaitingPayment?
      ensures env.Told? && !refund ==> (result.Some? <==> env.commit.Applied?)
      ensures env.Told? && !refund ==> ConfirmedOrNot(old(T()), T(), copy.id, env, result)
      ensures result.Some? ==>
                result.value.id == copy.id && result.value.driverId == copy.driverId && result.value.status.Confirmed?
    {
      hide Reaches, Inv, DoConfirm, ConfirmedOrNot;
      ghost var s := S();
      CopyIsKnown(s, t);
      var write;
      refund, write, result := ConfirmTables(copy, pid, env);
      threads := threads[t := if refund then ConfirmRefund(copy, pid) else Done(result)];
      Advance(s0, s, Confirm(t, write));
    }

    // ----------------------------------------------------------------
    // CancelReservation, ExpireReservation, FailReservation, CheckIn, CheckOut
    // ----------------------------------------------------------------

    method CancelReservation(ghost t: nat, id: string, caller: Option<nat>, env: Env) returns (result: Option<Reservation>)
      requires Inv(S()) && t !in threads
      modifies this
      ensures Reaches(old(S()), S()) && Inv(S()) && t in threads && threads[t] == Done(result) && Asked(t) == []
      ensures result.Some? ==>
                && result.value.id == id && result.value.status.Cancelled?
                && (caller.Some? ==> result.value.driverId == caller.value)
      ensures env.Alone() && caller.Some? && id in old(rows) && old(rows)[id].driverId != caller.value ==>
                result.None? && T() == old(T())
      ensures env.Alone() ==>
                if !env.commit.NotApplied? && id in old(rows) && (caller.None? || caller.value == old(rows)[id].driverId)
                   && (old(rows)[id].status.WaitingPayment? || old(rows)[id].status.Confirmed?)
                then
                  var r := old(rows)[id].(status := Cancelled, cancelledAt := Some(old(now)), updatedAt := old(now));
                  RowAndSpot(old(T()), T(), r, Available) && result == if env.commit.Applied? then Some(r) else None
                else T() == old(T()) && result.None?
    {
      hide Reaches, Inv, Step, ThreadStep, RowAndSpot;
      ghost var s0 := S();
      if id in rows {
        MoveSpelled(s0, Cancel, id);
      }
      BeginRequest(BeginMove(t, Cancel, id, caller), env);
      result := MoveTransaction(s0, t, Cancel, id, caller, env);
    }

    method ExpireReservation(ghost t: nat, id: string, env: Env) returns (result: Option<Reservation>)
      requires Inv(S()) && t !in threads
      modifies this
      ensures Reaches(old(S()), S()) && Inv(S()) && t in threads && threads[t] == Done(result) && Asked(t) == []
      ensures result.Some? ==> result.value.id == id && result.value.status.Expired?
      ensures env.Alone() ==>
                if !env.commit.NotApplied? && id in old(rows) && old(rows)[id].status.Confirmed? then
                  var r := old(rows)[id].(status := Expired, updatedAt := old(now));
                  RowAndSpot(old(T()), T(), r, Available) && result == if env.commit.Applied? then Some(r) else None
                else T() == old(T()) && result.None?
    {
      hide Reaches, Inv, Step, ThreadStep, RowAndSpot;
      ghost var s0 := S();
      if id in rows {
        MoveSpelled(s0, Expire, id);
      }
      BeginRequest(BeginMove(t, Expire, id, None), env);
      result := MoveTransaction(s0, t, Expire, id, None, env);
    }

    method FailReservation(ghost t: nat, id: string, env: Env) returns (result: Option<Reservation>)
      requires Inv(S()) && t !in threads
      modifies this
      ensures Reaches(old(S()), S()) && Inv(S()) && t in threads && threads[t] == Done(result) && Asked(t) == []
      ensures result.Some? ==> result.value.id == id && result.value.status.Failed?
      ensures env.Alone() ==>
                if !env.commit.NotApplied? && id in old(rows) && old(rows)[id].status.WaitingPayment? then
                  var r := old(rows)[id].(status := Failed, updatedAt := old(now));
                  RowAndSpot(old(T()), T(), r, Available) && result == if env.commit.Applied? then Some(r) else None
                else T() == old(T()) && result.None?
    {
      hide Reaches, Inv, Step, ThreadStep, RowAndSpot;
      ghost var s0 := S();
      if id in rows {
        MoveSpelled(s0, Fail, id);
      }
      BeginRequest(BeginMove(t, Fail, id, None), env);
      result := MoveTransaction(s0, t, Fail, id, None, env);
    }

    /** Billing is told of a check-in, but its answer does not matter. */
    method CheckIn(ghost t: nat, id: string, caller: Option<nat>, env: Env) returns (result: Option<Reservation>)
      requires Inv(S()) && t !in threads
      modifies this
      ensures Reaches(old(S()), S()) && Inv(S()) && t in threads && threads[t] == Done(result)
      ensures Asked(t) == if result.Some? then [AskBilling(BM.StartBilling(id, 0, "checkin-billing-" + id))] else []
      ensures result.Some? ==>
                && result.value.id == id && result.value.status.CheckedIn?
                && (caller.Some? ==> result.value.driverId == caller.value)
      ensures env.Alone() && caller.Some? && id in old(rows) && old(rows)[id].driverId != caller.value ==>
                result.None? && T() == old(T())
      ensures env.Alone() ==>
                if !env.commit.NotApplied? && id in old(rows) && (caller.None? || caller.value == old(rows)[id].driverId)
                   && old(rows)[id].status.Confirmed?
                then
                  var r := old(rows)[id].(status := CheckedIn, checkedInAt := Some(old(now)), updatedAt := old(now));
                  RowAndSpot(old(T()), T(), r, Occupied) && result == if env.commit.Applied? then Some(r) else None
                else T() == old(T()) && result.None?
    {
      hide Reaches, Inv, Step, ThreadStep, RowAndSpot;
      ghost var s0 := S();
      if id in rows {
        MoveSpelled(s0, Kind.CheckIn, id);
      }
      BeginRequest(BeginMove(t, Kind.CheckIn, id, caller), env);
      result := MoveTransaction(s0, t, Kind.CheckIn, id, caller, env);
      if result.Some? {
        NotifyBilling(s0, t, result.value, env);
      }
    }

    method NotifyBilling(ghost s0: State, ghost t: nat, reservation: Reservation, env: Env)
      requires Reaches(s0, S()) && Inv(S()) && t in threads && threads[t] == CheckInBill(reservation)
      modifies this
      ensures Reaches(s0, S()) && Inv(S()) && t in threads && threads[t] == Done(Some(reservation))
      ensures Asked(t) == old(Asked(t)) + [AskBilling(BM.StartBilling(reservation.id, 0, "checkin-billing-" + reservation.id))]
      ensures env.Alone() ==> T() == old(T())
    {
      hide Reaches, Inv;
      var _ := CallBilling(s0, t, BM.StartBilling(reservation.id, 0, "checkin-billing-" + reservation.id), env);
    }

    method CheckOut(ghost t: nat, id: string, caller: Option<nat>, env: Env) returns (result: Option<CheckOutResponse>)
      requires Inv(S()) && t !in threads
      modifies this
      ensures Reaches(old(S()), S()) && Inv(S()) && t in threads
      ensures threads[t] == match result
                            case None => Done(None)
                            case Some(response) => CheckOutDone(response.reservation, response.bill, response.payment)
      ensures result.Some? ==>
                && result.value.reservation.id == id && result.value.reservation.status.CheckedOut? && result.value.payment.None?
                && (caller.Some? ==> result.value.reservation.driverId == caller.value)
      ensures env.Told? && result.Some? ==> Invoices(result.value.reservation, env, Asked(t), result)
      ensures env.Alone() && caller.Some? && id in old(rows) && old(rows)[id].driverId != caller.value ==>
                result.None? && T() == old(T()) && Asked(t) == []
      ensures env.Alone() ==>
                if !env.commit.NotApplied? && id in old(rows) && (caller.None? || caller.value == old(rows)[id].driverId)
                   && old(rows)[id].status.CheckedIn?
                then
                  var r := old(rows)[id].(status := CheckedOut, checkedOutAt := Some(old(now)), updatedAt := old(now));
                  && T() == old(T()).(rows := old(rows)[id := r])
                  && if env.commit.Applied? then Invoices(r, env, Asked(t), result) else Asked(t) == [] && result.None?
                else T() == old(T()) && Asked(t) == [] && result.None?
    {
      hide Reaches, Inv, Step, ThreadStep, Invoices;
      ghost var s0 := S();
      if id in rows {
        MoveSpelled(s0, Kind.CheckOut, id);
      }
      BeginRequest(BeginMove(t, Kind.CheckOut, id, caller), env);
      CheckedInHasTime(S());
      var reservation := MoveTransaction(s0, t, Kind.CheckOut, id, caller, env);
      if reservation.None? {
        return None;
      }
      result := FeeAndInvoice(s0, t, reservation.value, env);
    }

    /** Everything after the transaction of a check-out. */
    method FeeAndInvoice(ghost s0: State, ghost t: nat, reservation: Reservation, env: Env) returns (result: Option<CheckOutResponse>)
      requires Reaches(s0, S()) && Inv(S()) && t in threads && threads[t] == AfterMove(Kind.CheckOut, reservation) && Asked(t) == []
      modifies this
      ensures Reaches(s0, S()) && Inv(S()) && t in threads
      ensures threads[t] == match result
                            case None => Done(None)
                            case Some(response) => CheckOutDone(response.reservation, response.bill, response.payment)
      ensures result.Some? ==> result.value.reservation == reservation && result.value.payment.None?
      ensures env.Told? && result.Some? ==> Invoices(reservation, env, Asked(t), result)
      ensures env.Told? && reservation.checkedInAt.Some? && reservation.checkedOutAt.Some? ==>
                Invoices(reservation, env, Asked(t), result)
      ensures env.Alone() ==> T() == old(T())
    {
      hide Reaches, Inv;
      if reservation.checkedInAt.None? || reservation.checkedOutAt.None? {
        return None;
      }
      var fee := CallBilling(s0, t, BM.CalculateFee(reservation.id, reservation.checkedInAt.value, reservation.checkedOutAt.value), env);
      if fee.None? {
        return None;
      }
      var invoice := CallBilling(s0, t, BM.GenerateInvoice(reservation.id), env);
      if invoice.None? {
        return None;
      }
      result := Some(CheckOutResponse(reservation, invoice.value, None));
    }

    /** Sets the new status and the timestamp that goes with it. */
    method Stamp(kind: Kind, r: Reservation) returns (m: Reservation)
      ensures m == Moved(kind, r, now)
    {
      m := r.(status := Target(kind), updatedAt := now);
      match kind {
        case Cancel => m := m.(cancelledAt := Some(now));
        case CheckIn => m := m.(checkedInAt := Some(now));
        case CheckOut => m := m.(checkedOutAt := Some(now));
        case _ =>
      }
    }

    /** One transaction: lock, guard, stamp, update the row and then its spot. */
    method MoveTables(kind: Kind, id: string, caller: Option<nat>, env: Env) returns (write: Write, result: Option<Reservation>)
      modifies this`rows, this`spots
      ensures forall t: nat ::
                Goto(S(), t, if result.Some? then AfterMove(kind, result.value) else Done(None))
                == DoMove(old(S()), t, kind, id, caller, write)
      ensures env.Told? ==> Moves(old(T()), T(), kind, id, caller, env.commit, result)
      ensures result.Some? ==>
                && id in old(rows) && result.value == Moved(kind, old(rows)[id], now)
                && Edge(old(rows)[id].status, Target(kind)) && CallerOk(old(rows)[id], caller)
    {
      var savedRows, savedSpots := rows, spots;
      write, result := NotApplied, None;
      if id in rows && CallerOk(rows[id], caller) && ValidateTransition(rows[id].status, Target(kind)).Allowed? {
        var reservation := Stamp(kind, rows[id]);
        UpdateReservationTx(reservation);
        if kind != Kind.CheckOut {
          UpdateSpotStatusTx(reservation.spotId, if kind.CheckIn? then Occupied else Available);
        }
        write := EndTransaction(savedRows, savedSpots, env, env.Commit());
        result := if write.Applied? then Some(reservation) else None;
      }
    }

    method MoveTransaction(ghost s0: State, ghost t: nat, kind: Kind, id: string, caller: Option<nat>, env: Env)
      returns (result: Option<Reservation>)
      requires Reaches(s0, S()) && Inv(S()) && t in threads && threads[t] == MoveTxn(kind, id, caller)
      modifies this`rows, this`spots, this`threads
      ensures Reaches(s0, S()) && Inv(S()) && t in threads
      ensures threads[t] == if result.Some? then AfterMove(kind, result.value) else Done(None)
      ensures env.Told? ==> Moves(old(T()), T(), kind, id, caller, env.commit, result)
      ensures result.Some? ==>
                && id in old(rows) && result.value == Moved(kind, old(rows)[id], now) && result.value.id == id
                && result.value.driverId == old(rows)[id].driverId && result.value.status == Target(kind)
                && Edge(old(rows)[id].status, Target(kind)) && (caller.Some? ==> old(rows)[id].driverId == caller.value)
    {
      hide Reaches, Inv, DoMove, Moves;
      ghost var s := S();
      RowsCarryIds(s);
      var write;
      write, result := MoveTables(kind, id, caller, env);
      threads := threads[t := if result.Some? then AfterMove(kind, result.value) else Done(None)];
      Advance(s0, s, Move(t, write));
    }

    // ----------------------------------------------------------------
    // CompleteCheckout
    // ----------------------------------------------------------------

    method CompleteCheckout(ghost t: nat, id: string, caller: Option<nat>, env: Env) returns (result: Option<CheckOutResponse>)
      requires Inv(S()) && t !in threads
      modifies this
      ensures Reaches(old(S()), S()) && Inv(S()) && t in threads
      ensures threads[t] == match result
                            case None => Done(None)
                            case Some(response) => CheckOutDone(response.reservation, response.bill, response.payment)
      ensures result.Some? ==>
                && result.value.reservation.id == id && result.value.reservation.status.Completed? && result.value.payment.Some?
                && (caller.Some? ==> result.value.reservation.driverId == caller.value)
      ensures env.Told? ==> Asked(t) == [] || Asked(t) == CompletionCalls(id, env)
      ensures env.Told? && result.Some? ==>
                && Asked(t) == CompletionCalls(id, env) && result.value.payment == CompletionPayment(id, env)
                && Some(result.value.bill) == env.billing(BM.GenerateInvoice(id))
      ensures env.Alone() && caller.Some? && id in old(rows) && old(rows)[id].driverId != caller.value ==>
                result.None? && T() == old(T()) && Asked(t) == []
      ensures env.Alone() ==>
                if !env.Fails(FirstRead) && id in old(rows) && old(rows)[id].status.CheckedOut?
                   && (caller.None? || caller.value == old(rows)[id].driverId)
                then Asked(t) == CompletionCalls(id, env) && Completes(old(T()), T(), id, env, result)
                else T() == old(T()) && Asked(t) == [] && result.None?
    {
      hide Reaches, Inv, Step, ThreadStep, Completes, CompletionCalls, CompletionPayment;
      ghost var s0 := S();
      BeginRequest(BeginComplete(t, id, caller), env);
      var copy := ReadCheckedOut(s0, t, id, caller, env);
      if copy.None? {
        return None;
      }
      Interference(s0, t, env);
      result := PayAndComplete(s0, t, copy.value, env);
    }

    /** Everything after the first transaction: invoice, pay, complete. */
    method PayAndComplete(ghost s0: State, ghost t: nat, copy: Reservation, env: Env) returns (result: Option<CheckOutResponse>)
      requires Reaches(s0, S()) && Inv(S()) && t in threads && threads[t] == CompleteInvoice(copy) && Asked(t) == []
      modifies this
      ensures Reaches(s0, S()) && Inv(S()) && t in threads
      ensures threads[t] == match result
                            case None => Done(None)
                            case Some(response) => CheckOutDone(response.reservation, response.bill, response.payment)
      ensures result.Some? ==>
                && result.value.reservation.id == copy.id && result.value.reservation.driverId == copy.driverId
                && result.value.reservation.status.Completed? && result.value.payment.Some?
      ensures env.Told? ==> Asked(t) == CompletionCalls(copy.id, env)
      ensures env.Told? && result.Some? ==>
                && result.value.payment == CompletionPayment(copy.id, env)
                && Some(result.value.bill) == env.billing(BM.GenerateInvoice(copy.id))
      ensures env.Alone() && copy.id in old(rows) && old(rows)[copy.id].status.CheckedOut? ==>
                Completes(old(T()), T(), copy.id, env, result)
    {
      hide Reaches, Inv, RowAndSpot, CompletionCalls, CompletionPayment, Completes, CheckoutPayment;
      ghost var z := T();
      var bill, pid := InvoiceAndPay(s0, t, copy, env);
      if bill.None? || pid.None? {
        if env.Alone() && copy.id in z.rows {
          NotCompleted(z, copy.id, env);
        }
        return None;
      }
      var reservation := CompleteTransaction(s0, t, copy, bill.value, pid.value, env);
      result := match reservation
                case None => None
                case Some(r) => Some(CheckOutResponse(r, bill.value, pid));
      if env.Alone() && copy.id in z.rows && z.rows[copy.id].status.CheckedOut? {
        CompletesIs(z, T(), copy.id, env, bill.value, pid.value, reservation);
      }
    }

    /** The invoice again, and then its payment. */
    method InvoiceAndPay(ghost s0: State, ghost t: nat, copy: Reservation, env: Env) returns (bill: Option<Bill>, pid: Option<nat>)
      requires Reaches(s0, S()) && Inv(S()) && t in threads && threads[t] == CompleteInvoice(copy) && Asked(t) == []
      modifies this
      ensures Reaches(s0, S()) && Inv(S()) && t in threads
      ensures threads[t] == if bill.Some? && pid.Some? then CompleteTxn(copy, bill.value, pid.value) else Done(None)
      ensures env.Told? ==>
                && Asked(t) == CompletionCalls(copy.id, env) && bill == env.billing(BM.GenerateInvoice(copy.id))
                && (bill.Some? ==> pid == env.payment(CheckoutPayment(copy.id, bill.value)))
                && CompletionPayment(copy.id, env) == if bill.Some? then pid else None
      ensures env.Alone() ==> T() == old(T())
    {
      hide Reaches, Inv, CompletionCalls, CompletionPayment, CheckoutPayment;
      if env.Told? {
        CompletionCallsAre(copy.id, env);
      }
      pid := None;
      bill := CallBilling(s0, t, BM.GenerateInvoice(copy.id), env);
      if bill.Some? {
        pid := PayInvoice(s0, t, copy, bill.value, env);
      }
    }

    method PayInvoice(ghost s0: State, ghost t: nat, copy: Reservation, bill: Bill, env: Env) returns (pid: Option<nat>)
      requires Reaches(s0, S()) && Inv(S()) && t in threads && threads[t] == CompletePay(copy, bill)
      modifies this
      ensures Reaches(s0, S()) && Inv(S()) && t in threads
      ensures threads[t] == if pid.Some? then CompleteTxn(copy, bill, pid.value) else Done(None)
      ensures Asked(t) == old(Asked(t)) + [AskPayment(CheckoutPayment(copy.id, bill))]
      ensures env.Told? ==> pid == env.payment(CheckoutPayment(copy.id, bill))
      ensures env.Alone() ==> T() == old(T())
    {
      hide Reaches, Inv;
      pid := CallPayment(s0, t, PM.PayRequest(bill.recordId, bill.totalAmount, "payment-" + copy.id), env);
    }

    method ReadCheckedOut(ghost s0: State, ghost t: nat, id: string, caller: Option<nat>, env: Env)
      returns (copy: Option<Reservation>)
      requires Reaches(s0, S()) && Inv(S()) && t in threads && threads[t] == CompleteRead(id, caller)
      modifies this`threads
      ensures Reaches(s0, S()) && Inv(S()) && t in threads
      ensures threads[t] == if copy.Some? then CompleteInvoice(copy.value) else Done(None)
      ensures copy.Some? ==>
                && id in rows && copy.value == rows[id] && rows[id].id == id && rows[id].status.CheckedOut?
                && (caller.Some? ==> rows[id].driverId == caller.value)
      ensures env.Told? && copy.None? ==>
                || env.Fails(FirstRead) || id !in rows || !rows[id].status.CheckedOut?
                || (caller.Some? && rows[id].driverId != caller.value)
      ensures env.Fails(FirstRead) ==> copy.None?
    {
      hide Reaches, Inv;
      ghost var s := S();
      RowsCarryIds(s);
      var fails := Failing(FirstRead, env);
      copy := None;
      if !fails && id in rows && CallerOk(rows[id], caller) && rows[id].status == CheckedOut {
        copy := Some(rows[id]);
      }
      threads := threads[t := if copy.Some? then CompleteInvoice(copy.value) else Done(None)];
      Advance(s0, s, ReadLocked(t, fails));
    }

    /** Re-fetches under lock and completes the fresh row, releasing its spot. */
    method CompleteTransaction(ghost s0: State, ghost t: nat, copy: Reservation, bill: Bill, pid: nat, env: Env)
      returns (result: Option<Reservation>)
      requires Reaches(s0, S()) && Inv(S()) && t in threads && threads[t] == CompleteTxn(copy, bill, pid)
      modifies this`rows, this`spots, this`threads
      ensures Reaches(s0, S()) && Inv(S()) && t in threads
      ensures threads[t] == if result.Some? then CheckOutDone(result.value, bill, Some(pid)) else Done(None)
      ensures copy.id in old(rows) && !old(rows)[copy.id].status.CheckedOut? ==> result.None? && T() == old(T())
      ensures result.Some? ==>
                result.value.id == copy.id && result.value.driverId == copy.driverId && result.value.status.Completed?
      ensures env.Told? && copy.id in old(rows) && old(rows)[copy.id].status.CheckedOut? ==>
                if env.commit.NotApplied? then T() == old(T()) && result.None?
                else
                  var r := old(rows)[copy.id].(status := Completed, updatedAt := old(now));
                  RowAndSpot(old(T()), T(), r, Available) && result == if env.commit.Applied? then Some(r) else None
    {
      hide Reaches, Inv, RowAndSpot;
      ghost var s := S();
      CopyIsKnown(s, t);
      var savedRows, savedSpots := rows, spots;
      result := None;
      var write := NotApplied;
      if copy.id in rows && rows[copy.id].status == CheckedOut {
        var current := rows[copy.id].(status := Completed, updatedAt := now);
        UpdateReservationTx(current);
        UpdateSpotStatusTx(current.spotId, Available);
        WriteSpelled(s, current, Available);
        write := EndTransaction(savedRows, savedSpots, env, env.Commit());
        result := if write.Applied? then Some(current) else None;
      }
      threads := threads[t := if result.Some? then CheckOutDone(result.value, bill, Some(pid)) else Done(None)];
      Advance(s0, s, Complete(t, write));
    }
  }
}
