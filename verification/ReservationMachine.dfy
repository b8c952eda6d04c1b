/** The reservation service as a state machine: the tables of spots and
    reservations, a clock, and any number of in-flight requests, timer tasks and
    event handlers. A transaction that locks its row is one atomic step; what
    lies between two transactions, and every call to another service, is not. */
module ReservationMachine {
  import opened Wrappers
  import opened ReservationModel

  datatype VehicleType = Car | Motorcycle
  datatype SpotStatus = Available | Reserved | Occupied
  datatype Mode = SystemAssigned | UserSelected | OtherMode

  datatype Spot = Spot(floor: int, number: int, vehicleType: VehicleType, status: SpotStatus)

  /** A row of the reservations table; also the struct a request holds in memory. */
  datatype Reservation = Reservation(
    id: string,
    driverId: nat,
    spotId: nat,
    vehicleType: VehicleType,
    mode: Mode,
    status: Status,
    key: string,
    confirmedAt: Option<int>,
    expiresAt: Option<int>,
    checkedInAt: Option<int>,
    checkedOutAt: Option<int>,
    cancelledAt: Option<int>,
    createdAt: int,
    updatedAt: int)

  type Spots = map<nat, Spot>
  type Rows = map<string, Reservation>

  datatype CreateRequest = CreateRequest(driverId: nat, vehicleType: VehicleType, mode: Mode, spotId: nat, key: string)

  /** What the billing service answers. */
  datatype Bill = Bill(recordId: nat, bookingFee: int, parkingFee: int, overnightFee: int, totalAmount: int)

  /** The operations that are one transaction on one row. */
  datatype Kind = Cancel | Expire | Fail | CheckIn | CheckOut

  /** A request: its program counter and the locals it holds there. `copy` is the
      reservation as the request last read or wrote it. */
  datatype Thread =
    // CreateReservation
    | CreateLookup(req: CreateRequest)
    | CreatePick(req: CreateRequest)
    | CreateLock(req: CreateRequest, spot: nat)
    | CreateTxn(req: CreateRequest, spot: nat, at: int)
    | CreateRefetch(req: CreateRequest)
    | CreateBill(req: CreateRequest, copy: Reservation)
    | CreateUndo(req: CreateRequest, copy: Reservation)
    | CreateDone(req: CreateRequest, result: Option<Reservation>)
    // ConfirmReservation
    | ConfirmRead(id: string, caller: Option<nat>)
    | ConfirmBill(copy: Reservation)
    | ConfirmPay(copy: Reservation, bill: Bill)
    | ConfirmUndo(copy: Reservation)
    | ConfirmTxn(copy: Reservation, pid: nat)
    | ConfirmRefund(copy: Reservation, pid: nat)
    // CancelReservation, ExpireReservation, FailReservation, CheckIn, CheckOut
    | MoveTxn(kind: Kind, id: string, caller: Option<nat>)
    | CheckInBill(copy: Reservation)
    | CheckOutFee(copy: Reservation)
    | CheckOutInvoice(copy: Reservation)
    // CompleteCheckout
    | CompleteRead(id: string, caller: Option<nat>)
    | CompleteInvoice(copy: Reservation)
    | CompletePay(copy: Reservation, bill: Bill)
    | CompleteTxn(copy: Reservation, bill: Bill, pid: nat)
    // CheckOut and CompleteCheckout answered with the invoice; the payment is known
    // only after the latter
    | CheckOutDone(copy: Reservation, bill: Bill, payment: Option<nat>)
    // answered, with or without error
    | Done(result: Option<Reservation>)
    | Crashed

  datatype State = State(spots: Spots, rows: Rows, threads: map<nat, Thread>, now: int)

  datatype Action =
    | Tick(dt: nat)
    | BeginCreate(t: nat, req: CreateRequest)
    | BeginConfirm(t: nat, id: string, caller: Option<nat>)
    | BeginMove(t: nat, kind: Kind, id: string, caller: Option<nat>)
    | BeginComplete(t: nat, id: string, caller: Option<nat>)
    | Lookup(t: nat, fails: bool)
    | Pick(t: nat, spot: Option<nat>)
    | Acquire(t: nat, acquired: bool)
    | Create(t: nat, id: string, write: Write, driverIndexFirst: bool)
    | Refetch(t: nat, fails: bool)
    | BillingReply(t: nat, bill: Option<Bill>)
    | PaymentReply(t: nat, pid: Option<nat>)
    | Undo(t: nat, write: Write)
    | ReadLocked(t: nat, fails: bool)
    | Confirm(t: nat, write: Write)
    | Move(t: nat, write: Write)
    | Complete(t: nat, write: Write)
    | Crash(t: nat)

  const CONFIRMATION_EXPIRY: int := 3_600_000_000_000

  // ------------------------------------------------------------------
  // Table statements
  // ------------------------------------------------------------------

  predicate KeyTaken(rows: Rows, key: string) {
    exists id :: id in rows && rows[id].key == key
  }

  ghost function FindByKey(rows: Rows, key: string): (r: Option<Reservation>)
    ensures r.Some? ==> r.value.key == key && exists id :: id in rows && rows[id] == r.value
    ensures r.None? ==> !KeyTaken(rows, key)
  {
    if KeyTaken(rows, key) then
      var id :| id in rows && rows[id].key == key;
      Some(rows[id])
    else None
  }

  /** The statuses that the two partial unique indexes cover. */
  predicate Indexed(st: Status) {
    st.WaitingPayment? || st.Confirmed? || st.CheckedIn?
  }

  predicate DriverIndexed(rows: Rows, driver: nat) {
    exists id :: id in rows && rows[id].driverId == driver && Indexed(rows[id].status)
  }

  predicate SpotIndexed(rows: Rows, spot: nat) {
    exists id :: id in rows && rows[id].spotId == spot && Indexed(rows[id].status)
  }

  /** The columns that UpdateReservationTx writes. */
  function Written(row: Reservation, r: Reservation): Reservation {
    row.(status := r.status, confirmedAt := r.confirmedAt, expiresAt := r.expiresAt,
         checkedInAt := r.checkedInAt, checkedOutAt := r.checkedOutAt, cancelledAt := r.cancelledAt,
         updatedAt := r.updatedAt)
  }

  function UpdateReservation(rows: Rows, r: Reservation): Rows {
    if r.id in rows then rows[r.id := Written(rows[r.id], r)] else rows
  }

  function UpdateSpot(spots: Spots, spot: nat, st: SpotStatus): Spots {
    if spot in spots then spots[spot := spots[spot].(status := st)] else spots
  }

  /** Ordered by floor, then by number. */
  predicate Before(a: Spot, b: Spot) {
    a.floor < b.floor || (a.floor == b.floor && a.number < b.number)
  }

  /** A possible answer of FindAvailableSpot. */
  predicate FirstAvailable(spots: Spots, vt: VehicleType, spot: nat) {
    && spot in spots && spots[spot].vehicleType == vt && spots[spot].status.Available?
    && forall q :: q in spots && spots[q].vehicleType == vt && spots[q].status.Available? ==> !Before(spots[q], spots[spot])
  }

  // ------------------------------------------------------------------
  // CreateReservation
  // ------------------------------------------------------------------

  function Goto(s: State, t: nat, th: Thread): State {
    s.(threads := s.threads[t := th])
  }

  ghost function DoLookup(s: State, t: nat, req: CreateRequest, fails: bool): State {
    var found := FindByKey(s.rows, req.key);
    // a lookup that fails is treated like one that finds nothing
    if !fails && found.Some? then Goto(s, t, CreateDone(req, found)) else Goto(s, t, CreatePick(req))
  }

  function DoPick(s: State, t: nat, req: CreateRequest, spot: Option<nat>): State {
    match req.mode
    case UserSelected => Goto(s, t, CreateLock(req, req.spotId))
    case OtherMode => Goto(s, t, CreateDone(req, None))
    case SystemAssigned =>
      if spot.None? then Goto(s, t, CreateDone(req, None))
      else if FirstAvailable(s.spots, req.vehicleType, spot.value) then Goto(s, t, CreateLock(req, spot.value))
      else s
  }

  function NewReservation(req: CreateRequest, id: string, spot: nat, at: int): Reservation {
    Reservation(id, req.driverId, spot, req.vehicleType, req.mode, WaitingPayment, req.key,
                None, None, None, None, None, at, at)
  }

  datatype InsertVerdict = Inserts | Refused | Duplicate

  /** The checks of the creating transaction, in order. When several unique indexes
      are violated the database reports one of them. */
  function CreateVerdict(s: State, req: CreateRequest, spot: nat, driverIndexFirst: bool): InsertVerdict {
    if spot !in s.spots || !s.spots[spot].status.Available? then Refused
    else if req.mode.UserSelected? && s.spots[spot].vehicleType != req.vehicleType then Refused
    else
      var driver := DriverIndexed(s.rows, req.driverId);
      var other := KeyTaken(s.rows, req.key) || SpotIndexed(s.rows, spot);
      if driver && (driverIndexFirst || !other) then Refused
      else if other then Duplicate
      else Inserts
  }

  function DoCreate(s: State, t: nat, th: Thread, id: string, write: Write, driverIndexFirst: bool): State
    requires th.CreateTxn?
  {
    var r := NewReservation(th.req, id, th.spot, th.at);
    if id in s.rows then s // ids are fresh
    else if write.NotApplied? then Goto(s, t, CreateDone(th.req, None))
    else
      match CreateVerdict(s, th.req, th.spot, driverIndexFirst)
      case Refused => Goto(s, t, CreateDone(th.req, None))
      case Duplicate => Goto(s, t, if write.Applied? then CreateRefetch(th.req) else CreateDone(th.req, None))
      case Inserts =>
        Goto(s.(rows := s.rows[id := r], spots := UpdateSpot(s.spots, th.spot, Reserved)), t,
             if write.Applied? then CreateBill(th.req, r) else CreateDone(th.req, None))
  }

  // ------------------------------------------------------------------
  // Transactions on one locked row
  // ------------------------------------------------------------------

  function Target(kind: Kind): Status {
    match kind
    case Cancel => Cancelled
    case Expire => Expired
    case Fail => Failed
    case CheckIn => CheckedIn
    case CheckOut => CheckedOut
  }

  function Moved(kind: Kind, r: Reservation, now: int): Reservation {
    var m := r.(status := Target(kind), updatedAt := now);
    match kind
    case Cancel => m.(cancelledAt := Some(now))
    case CheckIn => m.(checkedInAt := Some(now))
    case CheckOut => m.(checkedOutAt := Some(now))
    case _ => m
  }

  function SpotsAfter(kind: Kind, spots: Spots, spot: nat): Spots {
    match kind
    case CheckIn => UpdateSpot(spots, spot, Occupied)
    case CheckOut => spots
    case _ => UpdateSpot(spots, spot, Available)
  }

  predicate CallerOk(r: Reservation, caller: Option<nat>) {
    caller.Some? ==> caller.value == r.driverId
  }

  /** What remains to be done once the transaction has committed. */
  function AfterMove(kind: Kind, r: Reservation): Thread {
    match kind
    case CheckIn => CheckInBill(r)
    case CheckOut => if r.checkedInAt.None? || r.checkedOutAt.None? then Done(None) else CheckOutFee(r)
    case _ => Done(Some(r))
  }

  function DoMove(s: State, t: nat, kind: Kind, id: string, caller: Option<nat>, write: Write): State {
    if write.NotApplied? || id !in s.rows || !CallerOk(s.rows[id], caller)
       || !Edge(s.rows[id].status, Target(kind))
    then Goto(s, t, Done(None))
    else
      var r := Moved(kind, s.rows[id], s.now);
      Goto(s.(rows := UpdateReservation(s.rows, r), spots := SpotsAfter(kind, s.spots, r.spotId)), t,
           if write.Applied? then AfterMove(kind, r) else Done(None))
  }

  /** failReservationInternal: only a row that still waits for payment is failed. */
  function DoUndo(s: State, t: nat, copy: Reservation, write: Write, next: Thread): State {
    if write.TakesEffect() && copy.id in s.rows && s.rows[copy.id].status.WaitingPayment? then
      var r := Moved(Fail, s.rows[copy.id], s.now);
      Goto(s.(rows := UpdateReservation(s.rows, r), spots := UpdateSpot(s.spots, r.spotId, Available)), t, next)
    else Goto(s, t, next)
  }

  /** The first transaction of ConfirmReservation and CompleteCheckout only reads. */
  function DoReadLocked(s: State, t: nat, th: Thread, fails: bool): State
    requires th.ConfirmRead? || th.CompleteRead?
  {
    var wanted := if th.ConfirmRead? then WaitingPayment else CheckedOut;
    if fails || th.id !in s.rows || !CallerOk(s.rows[th.id], th.caller) || s.rows[th.id].status != wanted
    then Goto(s, t, Done(None))
    else Goto(s, t, if th.ConfirmRead? then ConfirmBill(s.rows[th.id]) else CompleteInvoice(s.rows[th.id]))
  }

  /** The struct that ConfirmReservation writes: the copy read in the first
      transaction, not the row locked by the second. */
  function ConfirmedCopy(copy: Reservation, now: int): Reservation {
    copy.(status := Confirmed, confirmedAt := Some(now), expiresAt := Some(now + CONFIRMATION_EXPIRY), updatedAt := now)
  }

  function DoConfirm(s: State, t: nat, copy: Reservation, pid: nat, write: Write): State {
    if write.NotApplied? || copy.id !in s.rows then Goto(s, t, Done(None))
    else if !s.rows[copy.id].status.WaitingPayment? then Goto(s, t, ConfirmRefund(copy, pid))
    else
      var r := ConfirmedCopy(copy, s.now);
      Goto(s.(rows := UpdateReservation(s.rows, r)), t, Done(if write.Applied? then Some(r) else None))
  }

  function DoComplete(s: State, t: nat, copy: Reservation, bill: Bill, pid: nat, write: Write): State {
    if write.NotApplied? || copy.id !in s.rows || !s.rows[copy.id].status.CheckedOut? then Goto(s, t, Done(None))
    else
      var r := s.rows[copy.id].(status := Completed, updatedAt := s.now);
      Goto(s.(rows := UpdateReservation(s.rows, r), spots := UpdateSpot(s.spots, r.spotId, Available)), t,
           if write.Applied? then CheckOutDone(r, bill, Some(pid)) else Done(None))
  }

  // ------------------------------------------------------------------
  // Answers of the other services
  // ------------------------------------------------------------------

  function AfterBilling(th: Thread, bill: Option<Bill>): Thread {
    match th
    case CreateBill(req, copy) => if bill.Some? then CreateDone(req, Some(copy)) else CreateUndo(req, copy)
    case ConfirmBill(copy) => if bill.Some? then ConfirmPay(copy, bill.value) else Done(None)
    case CheckInBill(copy) => Done(Some(copy))
    case CheckOutFee(copy) => if bill.Some? then CheckOutInvoice(copy) else Done(None)
    case CheckOutInvoice(copy) => if bill.Some? then CheckOutDone(copy, bill.value, None) else Done(None)
    case CompleteInvoice(copy) => if bill.Some? then CompletePay(copy, bill.value) else Done(None)
    case _ => th
  }

  function AfterPayment(th: Thread, pid: Option<nat>): Thread {
    match th
    case ConfirmPay(copy, _) => if pid.Some? then ConfirmTxn(copy, pid.value) else ConfirmUndo(copy)
    case ConfirmRefund(_, _) => Done(None)
    case CompletePay(copy, bill) => if pid.Some? then CompleteTxn(copy, bill, pid.value) else Done(None)
    case _ => th
  }

  // ------------------------------------------------------------------
  // The machine
  // ------------------------------------------------------------------

  predicate Finished(th: Thread) {
    th.CreateDone? || th.CheckOutDone? || th.Done? || th.Crashed?
  }

  function Entered(a: Action): Thread
    requires a.BeginCreate? || a.BeginConfirm? || a.BeginMove? || a.BeginComplete?
  {
    match a
    case BeginCreate(_, req) => CreateLookup(req)
    case BeginConfirm(_, id, caller) => ConfirmRead(id, caller)
    case BeginMove(_, kind, id, caller) => MoveTxn(kind, id, caller)
    case BeginComplete(_, id, caller) => CompleteRead(id, caller)
  }

  ghost function Step(s: State, a: Action): State {
    if a.Tick? then s.(now := s.now + a.dt)
    else if a.BeginCreate? || a.BeginConfirm? || a.BeginMove? || a.BeginComplete? then
      if a.t in s.threads then s else Goto(s, a.t, Entered(a))
    else if a.t !in s.threads then s
    else ThreadStep(s, s.threads[a.t], a)
  }

  ghost function ThreadStep(s: State, th: Thread, a: Action): State {
    match a
    case Lookup(t, fails) => if th.CreateLookup? then DoLookup(s, t, th.req, fails) else s
    case Pick(t, spot) => if th.CreatePick? then DoPick(s, t, th.req, spot) else s
    case Acquire(t, acquired) =>
      if th.CreateLock?
      then Goto(s, t, if acquired then CreateTxn(th.req, th.spot, s.now) else CreateDone(th.req, None))
      else s
    case Create(t, id, write, first) => if th.CreateTxn? then DoCreate(s, t, th, id, write, first) else s
    case Refetch(t, fails) =>
      if th.CreateRefetch? then Goto(s, t, CreateDone(th.req, if fails then None else FindByKey(s.rows, th.req.key))) else s
    case BillingReply(t, bill) => Goto(s, t, AfterBilling(th, bill))
    case PaymentReply(t, pid) => Goto(s, t, AfterPayment(th, pid))
    case Undo(t, write) =>
      if th.CreateUndo? then DoUndo(s, t, th.copy, write, CreateDone(th.req, None))
      else if th.ConfirmUndo? then DoUndo(s, t, th.copy, write, Done(None))
      else s
    case ReadLocked(t, fails) => if th.ConfirmRead? || th.CompleteRead? then DoReadLocked(s, t, th, fails) else s
    case Confirm(t, write) => if th.ConfirmTxn? then DoConfirm(s, t, th.copy, th.pid, write) else s
    case Move(t, write) => if th.MoveTxn? then DoMove(s, t, th.kind, th.id, th.caller, write) else s
    case Complete(t, write) => if th.CompleteTxn? then DoComplete(s, t, th.copy, th.bill, th.pid, write) else s
    case Crash(t) => if Finished(th) then s else Goto(s, t, Crashed)
    case _ => s
  }

  /** The service starts with an empty table of reservations and all spots free. */
  predicate IsInit(s: State) {
    s.rows == map[] && s.threads == map[] && forall sp :: sp in s.spots ==> s.spots[sp].status.Available?
  }

  ghost function Run(s: State, schedule: seq<Action>): State
    decreases |schedule|
  {
    if schedule == [] then s else Run(Step(s, schedule[0]), schedule[1..])
  }

  // ------------------------------------------------------------------
  // Reachability
  // ------------------------------------------------------------------

  ghost predicate Reaches(s: State, s': State) {
    exists schedule: seq<Action> :: Run(s, schedule) == s'
  }

  lemma {:induction false} RunAppend(s: State, one: seq<Action>, two: seq<Action>)
    ensures Run(s, one + two) == Run(Run(s, one), two)
    decreases |one|
  {
    if one == [] {
      assert one + two == two;
    } else {
      assert (one + two)[0] == one[0] && (one + two)[1..] == one[1..] + two;
      RunAppend(Step(s, one[0]), one[1..], two);
    }
  }

  lemma ReachesStep(s: State, s': State, a: Action)
    requires Reaches(s, s')
    ensures Reaches(s, Step(s', a))
  {
    var schedule :| Run(s, schedule) == s';
    RunAppend(s, schedule, [a]);
    assert Run(s', [a]) == Run(Step(s', a), []);
  }
}
