/** The billing service as a state machine: the billing_records table with its
    version column, and any number of requests that read a record, change their
    copy and write it back if the version is still the one they read. */
module BillingMachine {
  import opened Wrappers
  import Pricing

  datatype Status = Pending | Calculated | Invoiced

  datatype Record = Record(
    id: nat,
    reservationId: string,
    bookingFee: int,
    parkingFee: int,
    overnightFee: int,
    totalAmount: int,
    durationMinutes: int,
    billedHours: int,
    isOvernight: bool,
    key: string,
    status: Status,
    version: nat,
    updatedAt: int)

  datatype Request =
    | StartBilling(reservationId: string, bookingFee: int, key: string)
    | CalculateFee(reservationId: string, checkIn: int, checkOut: int)
    | GenerateInvoice(reservationId: string)
    | ApplyOvernightFee(reservationId: string, amount: int)

  type Rows = map<nat, Record>

  /** A request: its program counter and locals. `base` is the record as read. */
  datatype Thread =
    | StartByKey(req: Request)
    | StartByReservation(req: Request)
    | StartInsert(req: Request)
    | StartRefetch(req: Request)
    | ReadRecord(req: Request, attempt: nat)
    | WriteBack(req: Request, attempt: nat, base: Record)
    | Done(req: Request, result: Option<Record>)
    | Crashed

  /** A write that took effect, for the history kept in `log`. */
  datatype Commit = Commit(req: Request, id: nat, now: int)

  datatype State = State(rows: Rows, threads: map<nat, Thread>, log: seq<Commit>)

  datatype Action =
    | Begin(t: nat, req: Request)
    | LookupKey(t: nat, fails: bool)
    | LookupReservation(t: nat, fails: bool)
    | Insert(t: nat, id: nat, write: Write, now: int)
    | Refetch(t: nat, fails: bool)
    | Read(t: nat, fails: bool)
    | Update(t: nat, write: Write, now: int)
    | Crash(t: nat)

  const MAX_RETRIES: nat := 2

  // ------------------------------------------------------------------
  // The table
  // ------------------------------------------------------------------

  predicate ReservationTaken(rows: Rows, r: string) {
    exists id :: id in rows && rows[id].reservationId == r
  }

  predicate KeyTaken(rows: Rows, key: string) {
    exists id :: id in rows && rows[id].key == key
  }

  /** SELECT ... WHERE reservation_id = r; the column is unique. */
  ghost function FindByReservation(rows: Rows, r: string): (found: Option<Record>)
    ensures found.Some? ==> found.value.reservationId == r && exists id :: id in rows && rows[id] == found.value
    ensures found.None? ==> !ReservationTaken(rows, r)
  {
    if ReservationTaken(rows, r) then
      var id :| id in rows && rows[id].reservationId == r;
      Some(rows[id])
    else None
  }

  /** SELECT ... WHERE idempotency_key = key; the column is unique. */
  ghost function FindByKey(rows: Rows, key: string): (found: Option<Record>)
    ensures found.Some? ==> found.value.key == key && exists id :: id in rows && rows[id] == found.value
    ensures found.None? ==> !KeyTaken(rows, key)
  {
    if KeyTaken(rows, key) then
      var id :| id in rows && rows[id].key == key;
      Some(rows[id])
    else None
  }

  /** UPDATE ... WHERE id = rec.id AND version = the one before. */
  predicate Matches(rows: Rows, base: Record) {
    base.id in rows && rows[base.id].version == base.version
  }

  /** The columns that UpdateBillingRecord writes; reservation and key are not among them. */
  function Written(row: Record, rec: Record): Record {
    rec.(reservationId := row.reservationId, key := row.key)
  }

  // ------------------------------------------------------------------
  // What each request does to a record
  // ------------------------------------------------------------------

  function NewRecord(req: Request, id: nat, now: int): Record
    requires req.StartBilling?
  {
    Record(id, req.reservationId, req.bookingFee, 0, 0, Pricing.CalculateTotal(req.bookingFee, 0, 0),
           0, 0, false, req.key, Pending, 0, now)
  }

  /** The request asks for a change of this record. */
  predicate Applies(req: Request, r: Record) {
    match req
    case StartBilling(_, _, _) => false
    case CalculateFee(_, _, _) => r.status.Pending?
    case GenerateInvoice(_) => r.status.Calculated?
    case ApplyOvernightFee(_, _) => !r.isOvernight
  }

  /** The request is already satisfied and answers with the record as it is. */
  predicate AlreadyDone(req: Request, r: Record) {
    match req
    case GenerateInvoice(_) => r.status.Invoiced?
    case ApplyOvernightFee(_, _) => r.isOvernight
    case _ => false
  }

  /** The record that the request writes, one version up. */
  function Modified(req: Request, r: Record, now: int): Record {
    var up := r.(version := r.version + 1, updatedAt := now);
    match req
    case CalculateFee(_, checkIn, checkOut) =>
      var fee := Pricing.CalculateSessionFee(checkIn, checkOut);
      up.(parkingFee := fee.parkingFee, overnightFee := fee.overnightFee,
          durationMinutes := fee.durationMinutes, billedHours := fee.billedHours,
          isOvernight := fee.isOvernight,
          totalAmount := Pricing.CalculateTotal(r.bookingFee, fee.parkingFee, fee.overnightFee),
          status := Calculated)
    case GenerateInvoice(_) => up.(status := Invoiced)
    case ApplyOvernightFee(_, amount) =>
      var fee := if amount <= 0 then Pricing.OVERNIGHT_PER_NIGHT else amount;
      up.(overnightFee := fee, isOvernight := true,
          totalAmount := Pricing.CalculateTotal(r.bookingFee, r.parkingFee, fee))
    case StartBilling(_, _, _) => up
  }

  // ------------------------------------------------------------------
  // Steps
  // ------------------------------------------------------------------

  function Goto(s: State, t: nat, th: Thread): State {
    s.(threads := s.threads[t := th])
  }

  ghost function DoLookupKey(s: State, t: nat, req: Request, fails: bool): State
    requires req.StartBilling?
  {
    if fails then Goto(s, t, Done(req, None))
    else
      match FindByKey(s.rows, req.key)
      case Some(r) => Goto(s, t, Done(req, Some(r)))
      case None => Goto(s, t, StartByReservation(req))
  }

  ghost function DoLookupReservation(s: State, t: nat, req: Request, fails: bool): State {
    if fails then Goto(s, t, Done(req, None))
    else
      match FindByReservation(s.rows, req.reservationId)
      case Some(r) => Goto(s, t, Done(req, Some(r)))
      case None => Goto(s, t, StartInsert(req))
  }

  function DoInsert(s: State, t: nat, req: Request, id: nat, write: Write, now: int): State
    requires req.StartBilling?
  {
    var r := NewRecord(req, id, now);
    if id in s.rows then s // ids are fresh
    else if write.NotApplied? then Goto(s, t, Done(req, None))
    else if KeyTaken(s.rows, req.key) || ReservationTaken(s.rows, req.reservationId)
    then Goto(s, t, if write.Applied? then StartRefetch(req) else Done(req, None))
    else Goto(s.(rows := s.rows[id := r], log := s.log + [Commit(req, id, now)]), t,
              Done(req, if write.Applied? then Some(r) else None))
  }

  ghost function DoRefetch(s: State, t: nat, req: Request, fails: bool): State {
    Goto(s, t, Done(req, if fails then None else FindByReservation(s.rows, req.reservationId)))
  }

  ghost function DoRead(s: State, t: nat, req: Request, attempt: nat, fails: bool): State {
    var found := FindByReservation(s.rows, req.reservationId);
    if fails || found.None? then Goto(s, t, Done(req, None))
    else if AlreadyDone(req, found.value) then Goto(s, t, Done(req, found))
    else if Applies(req, found.value) then Goto(s, t, WriteBack(req, attempt, found.value))
    else Goto(s, t, Done(req, None))
  }

  /** A version mismatch sends CalculateFee and ApplyOvernightFee back to reading,
      at most twice; GenerateInvoice gives up at once. */
  predicate Retries(req: Request, attempt: nat) {
    !req.GenerateInvoice? && attempt < MAX_RETRIES
  }

  function DoUpdate(s: State, t: nat, th: Thread, write: Write, now: int): State
    requires th.WriteBack?
  {
    var rec := Modified(th.req, th.base, now);
    if write.NotApplied? then Goto(s, t, Done(th.req, None))
    else if !Matches(s.rows, th.base)
    then Goto(s, t, if write.Applied? && Retries(th.req, th.attempt)
                    then ReadRecord(th.req, th.attempt + 1) else Done(th.req, None))
    else Goto(s.(rows := s.rows[rec.id := Written(s.rows[rec.id], rec)],
                 log := s.log + [Commit(th.req, rec.id, now)]), t,
              Done(th.req, if write.Applied? then Some(rec) else None))
  }

  ghost function Step(s: State, a: Action): State {
    if a.Begin? then
      if a.t in s.threads then s
      else Goto(s, a.t, if a.req.StartBilling? then StartByKey(a.req) else ReadRecord(a.req, 0))
    else if a.t !in s.threads then s
    else
      var th := s.threads[a.t];
      match a
      case LookupKey(t, fails) =>
        if th.StartByKey? && th.req.StartBilling? then DoLookupKey(s, t, th.req, fails) else s
      case LookupReservation(t, fails) => if th.StartByReservation? then DoLookupReservation(s, t, th.req, fails) else s
      case Insert(t, id, write, now) =>
        if th.StartInsert? && th.req.StartBilling? then DoInsert(s, t, th.req, id, write, now) else s
      case Refetch(t, fails) => if th.StartRefetch? then DoRefetch(s, t, th.req, fails) else s
      case Read(t, fails) => if th.ReadRecord? then DoRead(s, t, th.req, th.attempt, fails) else s
      case Update(t, write, now) => if th.WriteBack? then DoUpdate(s, t, th, write, now) else s
      case Crash(t) => if th.Done? then s else Goto(s, t, Crashed)
      case _ => s
  }

  const INIT := State(map[], map[], [])

  ghost function Run(s: State, schedule: seq<Action>): State
    decreases |schedule|
  {
    if schedule == [] then s else Run(Step(s, schedule[0]), schedule[1..])
  }

  // ------------------------------------------------------------------
  // Reachability
  // ------------------------------------------------------------------

  ghost predicate Reaches(s: State, s': State) {
    exists schedule: seq<Action> :: Run(s, schedule) == s'
  }

  lemma {:induction false} RunAppend(s: State, one: seq<Action>, two: seq<Action>)
    ensures Run(s, one + two) == Run(Run(s, one), two)
    decreases |one|
  {
    if one == [] {
      assert one + two == two;
    } else {
      assert (one + two)[0] == one[0] && (one + two)[1..] == one[1..] + two;
      RunAppend(Step(s, one[0]), one[1..], two);
    }
  }

  lemma ReachesStep(s: State, s': State, a: Action)
    requires Reaches(s, s')
    ensures Reaches(s, Step(s', a))
  {
    var schedule :| Run(s, schedule) == s';
    RunAppend(s, schedule, [a]);
    assert Run(s', [a]) == Run(Step(s', a), []);
  }
}
