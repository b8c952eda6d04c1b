/** The payment service as a state machine: the payments table, the gateway's
    ledger and any number of in-flight requests. Every SQL statement and every
    gateway call is one atomic step, and an action carries everything the code
    does not decide: which request moves, fresh ids, the clock and failures. */
module PaymentMachine {
  import opened Wrappers

  datatype Status = Pending | Success | Failed | Refunding | Refunded

  /** A row of the payments table; also the struct a request holds in memory. */
  datatype Payment = Payment(
    id: nat,
    billingId: nat,
    amount: int,
    key: string,
    status: Status,
    ref: Option<nat>,
    paidAt: Option<int>,
    updatedAt: int)

  datatype PayRequest = PayRequest(billingId: nat, amount: int, key: string)

  /** The gateway's own record of one charge. It is honest: it keeps an entry
      exactly for the calls that it reports as successful. */
  datatype Txn = Txn(payer: nat, amount: int, refunds: nat)

  /** A request: its program counter and the locals it holds there. `copy` is the
      struct as last read from, or written to, the table. */
  datatype Thread =
    | PayLookup(req: PayRequest)
    | PayInsert(req: PayRequest)
    | PayRefetch(req: PayRequest)
    | PayCharge(req: PayRequest, copy: Payment, attempt: nat)
    | PayMarkFailed(req: PayRequest, copy: Payment, cancelled: bool)
    | PayMarkSuccess(req: PayRequest, copy: Payment, txn: nat)
    | PayDone(req: PayRequest, result: Option<Payment>)
    | RefundLookup(pid: nat, refundKey: string)
    | RefundRead(pid: nat)
    | RefundLock(copy: Payment)
    | RefundCall(copy: Payment, attempt: nat)
    | RefundRevert(copy: Payment)
    | RefundMark(copy: Payment)
    | RefundDone(result: Option<Payment>)
    | Crashed

  /** schemaHasRefunding says whether the status column's CHECK constraint admits
      'refunding'; the shipped migration's does not. */
  datatype State = State(
    schemaHasRefunding: bool,
    rows: map<nat, Payment>,
    ledger: map<nat, Txn>,
    threads: map<nat, Thread>)

  /** What one attempt of a retried gateway call comes to. */
  datatype Reply = Accepted(ref: nat) | Declined | Interrupted

  datatype Action =
    | BeginPay(t: nat, req: PayRequest)
    | BeginRefund(t: nat, pid: nat, refundKey: string)
    | Lookup(t: nat, fails: bool)
    | Insert(t: nat, id: nat, write: Write, now: int)
    | Refetch(t: nat, fails: bool)
    | Charge(t: nat, reply: Reply)
    | MarkFailed(t: nat, write: Write, now: int)
    | MarkSuccess(t: nat, write: Write, now: int)
    | CheckRefundKey(t: nat, fails: bool)
    | ReadForRefund(t: nat, fails: bool)
    | LockForRefund(t: nat, write: Write, now: int)
    | Refund(t: nat, reply: Reply)
    | Revert(t: nat, write: Write, now: int)
    | MarkRefunded(t: nat, write: Write, now: int)
    | Crash(t: nat)

  /** Attempts of retry.DefaultConfig. */
  const MAX_ATTEMPTS: nat := 3

  // ------------------------------------------------------------------
  // The table's statements
  // ------------------------------------------------------------------

  predicate KeyTaken(rows: map<nat, Payment>, key: string) {
    exists id :: id in rows && rows[id].key == key
  }

  /** SELECT ... WHERE idempotency_key = key; at most one row matches. */
  ghost function FindByKey(rows: map<nat, Payment>, key: string): (r: Option<Payment>)
    ensures r.Some? ==> r.value.key == key && exists id :: id in rows && rows[id] == r.value
    ensures r.None? ==> !KeyTaken(rows, key)
  {
    if KeyTaken(rows, key) then
      var id :| id in rows && rows[id].key == key;
      Some(rows[id])
    else None
  }

  /** The columns that an UPDATE writes. */
  function Written(row: Payment, p: Payment): Payment {
    row.(status := p.status, ref := p.ref, paidAt := p.paidAt, key := p.key, updatedAt := p.updatedAt)
  }

  /** UPDATE ... WHERE id = p.id, whatever the row holds. */
  function UpdateRow(rows: map<nat, Payment>, p: Payment): map<nat, Payment> {
    if p.id in rows then rows[p.id := Written(rows[p.id], p)] else rows
  }

  /** UPDATE ... WHERE id = p.id AND status = expected. */
  function UpdateRowIfStatus(rows: map<nat, Payment>, p: Payment, expected: Status): map<nat, Payment> {
    if p.id in rows && rows[p.id].status == expected then UpdateRow(rows, p) else rows
  }

  /** The schema's CHECK on the status column. */
  predicate StatusAllowed(s: State, st: Status) {
    st.Refunding? ==> s.schemaHasRefunding
  }

  // ------------------------------------------------------------------
  // Steps of ProcessPayment
  // ------------------------------------------------------------------

  function Goto(s: State, t: nat, th: Thread): State {
    s.(threads := s.threads[t := th])
  }

  ghost function DoLookup(s: State, t: nat, req: PayRequest, fails: bool): State {
    if fails then Goto(s, t, PayDone(req, None))
    else
      match FindByKey(s.rows, req.key)
      case Some(p) => Goto(s, t, PayDone(req, Some(p)))
      case None => Goto(s, t, PayInsert(req))
  }

  function NewPayment(req: PayRequest, id: nat, now: int): Payment {
    Payment(id, req.billingId, req.amount, req.key, Pending, None, None, now)
  }

  function DoInsert(s: State, t: nat, req: PayRequest, id: nat, write: Write, now: int): State {
    var p := NewPayment(req, id, now);
    if id in s.rows then s // ids are fresh
    else if write.NotApplied? then Goto(s, t, PayDone(req, None))
    else if KeyTaken(s.rows, req.key) then Goto(s, t, if write.Applied? then PayRefetch(req) else PayDone(req, None))
    else Goto(s.(rows := s.rows[id := p]), t,
              if write.Applied? then PayCharge(req, p, 0) else PayDone(req, None))
  }

  ghost function DoRefetch(s: State, t: nat, req: PayRequest, fails: bool): State {
    Goto(s, t, PayDone(req, if fails then None else FindByKey(s.rows, req.key)))
  }

  /** One attempt of the retry loop around Charge. */
  function DoCharge(s: State, t: nat, th: Thread, reply: Reply): State
    requires th.PayCharge?
  {
    match reply
    case Accepted(ref) =>
      if ref in s.ledger then s // transaction references are fresh
      else Goto(s.(ledger := s.ledger[ref := Txn(th.copy.id, th.req.amount, 0)]), t,
                PayMarkSuccess(th.req, th.copy, ref))
    case Declined =>
      if th.attempt + 1 < MAX_ATTEMPTS
      then Goto(s, t, PayCharge(th.req, th.copy, th.attempt + 1))
      else Goto(s, t, PayMarkFailed(th.req, th.copy, false))
    case Interrupted => Goto(s, t, PayMarkFailed(th.req, th.copy, true))
  }

  function DoMarkFailed(s: State, t: nat, th: Thread, write: Write, now: int): State
    requires th.PayMarkFailed?
  {
    var p := th.copy.(status := Failed, updatedAt := now);
    var s' := if write.TakesEffect() then s.(rows := UpdateRow(s.rows, p)) else s;
    Goto(s', t, PayDone(th.req, if write.Applied? && !th.cancelled then Some(p) else None))
  }

  function DoMarkSuccess(s: State, t: nat, th: Thread, write: Write, now: int): State
    requires th.PayMarkSuccess?
  {
    var p := th.copy.(ref := Some(th.txn), status := Success, paidAt := Some(now), updatedAt := now);
    var s' := if write.TakesEffect() then s.(rows := UpdateRow(s.rows, p)) else s;
    Goto(s', t, PayDone(th.req, if write.Applied? then Some(p) else None))
  }

  // ------------------------------------------------------------------
  // Steps of RefundPayment
  // ------------------------------------------------------------------

  ghost function DoCheckRefundKey(s: State, t: nat, th: Thread, fails: bool): State
    requires th.RefundLookup?
  {
    if th.refundKey == "" then Goto(s, t, RefundRead(th.pid))
    else if fails then Goto(s, t, RefundDone(None))
    else
      match FindByKey(s.rows, th.refundKey)
      case Some(p) => Goto(s, t, RefundDone(Some(p)))
      case None => Goto(s, t, RefundRead(th.pid))
  }

  function DoReadForRefund(s: State, t: nat, pid: nat, fails: bool): State {
    if fails || pid !in s.rows || !s.rows[pid].status.Success?
    then Goto(s, t, RefundDone(None))
    else Goto(s, t, RefundLock(s.rows[pid]))
  }

  function DoLockForRefund(s: State, t: nat, copy: Payment, write: Write, now: int): State {
    var p := copy.(status := Refunding, updatedAt := now);
    if write.NotApplied? || !StatusAllowed(s, Refunding) then Goto(s, t, RefundDone(None))
    else
      var s' := s.(rows := UpdateRowIfStatus(s.rows, p, Success));
      var hit := copy.id in s.rows && s.rows[copy.id].status.Success?;
      Goto(s', t, if hit && write.Applied? then RefundCall(p, 0) else RefundDone(None))
  }

  /** The gateway's ledger after a successful refund of a transaction. */
  function Refunded1(ledger: map<nat, Txn>, ref: Option<nat>): map<nat, Txn> {
    if ref.Some? && ref.value in ledger
    then ledger[ref.value := ledger[ref.value].(refunds := ledger[ref.value].refunds + 1)]
    else ledger
  }

  /** One attempt of the retry loop around Refund. */
  function DoRefund(s: State, t: nat, th: Thread, reply: Reply): State
    requires th.RefundCall?
  {
    match reply
    case Accepted(_) => Goto(s.(ledger := Refunded1(s.ledger, th.copy.ref)), t, RefundMark(th.copy))
    case Declined =>
      if th.attempt + 1 < MAX_ATTEMPTS
      then Goto(s, t, RefundCall(th.copy, th.attempt + 1))
      else Goto(s, t, RefundRevert(th.copy))
    case Interrupted => Goto(s, t, RefundRevert(th.copy))
  }

  function DoRevert(s: State, t: nat, copy: Payment, write: Write, now: int): State {
    var p := copy.(status := Success, updatedAt := now);
    Goto(if write.TakesEffect() then s.(rows := UpdateRow(s.rows, p)) else s, t, RefundDone(None))
  }

  /** A failed write is logged only: the caller still gets the refunded payment. */
  function DoMarkRefunded(s: State, t: nat, copy: Payment, write: Write, now: int): State {
    var p := copy.(status := Refunded, updatedAt := now);
    Goto(if write.TakesEffect() then s.(rows := UpdateRow(s.rows, p)) else s, t, RefundDone(Some(p)))
  }

  // ------------------------------------------------------------------
  // The machine
  // ------------------------------------------------------------------

  /** A step of a request inside ProcessPayment. */
  ghost function PayStep(s: State, th: Thread, a: Action): State {
    match a
    case Lookup(t, fails) => if th.PayLookup? then DoLookup(s, t, th.req, fails) else s
    case Insert(t, id, write, now) => if th.PayInsert? then DoInsert(s, t, th.req, id, write, now) else s
    case Refetch(t, fails) => if th.PayRefetch? then DoRefetch(s, t, th.req, fails) else s
    case Charge(t, reply) => if th.PayCharge? then DoCharge(s, t, th, reply) else s
    case MarkFailed(t, write, now) => if th.PayMarkFailed? then DoMarkFailed(s, t, th, write, now) else s
    case MarkSuccess(t, write, now) => if th.PayMarkSuccess? then DoMarkSuccess(s, t, th, write, now) else s
    case _ => s
  }

  /** A step of a request inside RefundPayment, or a crash. */
  ghost function RefundStep(s: State, th: Thread, a: Action): State {
    match a
    case CheckRefundKey(t, fails) => if th.RefundLookup? then DoCheckRefundKey(s, t, th, fails) else s
    case ReadForRefund(t, fails) => if th.RefundRead? then DoReadForRefund(s, t, th.pid, fails) else s
    case LockForRefund(t, write, now) => if th.RefundLock? then DoLockForRefund(s, t, th.copy, write, now) else s
    case Refund(t, reply) => if th.RefundCall? then DoRefund(s, t, th, reply) else s
    case Revert(t, write, now) => if th.RefundRevert? then DoRevert(s, t, th.copy, write, now) else s
    case MarkRefunded(t, write, now) => if th.RefundMark? then DoMarkRefunded(s, t, th.copy, write, now) else s
    case Crash(t) => if th.PayDone? || th.RefundDone? then s else Goto(s, t, Crashed)
    case _ => s
  }

  predicate IsPayAction(a: Action) {
    a.Lookup? || a.Insert? || a.Refetch? || a.Charge? || a.MarkFailed? || a.MarkSuccess?
  }

  /** One step; an action that does not fit the request's program counter does nothing. */
  ghost function Step(s: State, a: Action): State {
    if a.BeginPay? then
      if a.t in s.threads then s else Goto(s, a.t, PayLookup(a.req))
    else if a.BeginRefund? then
      if a.t in s.threads then s else Goto(s, a.t, RefundLookup(a.pid, a.refundKey))
    else if a.t !in s.threads then s
    else if IsPayAction(a) then PayStep(s, s.threads[a.t], a)
    else RefundStep(s, s.threads[a.t], a)
  }

  function Init(schemaHasRefunding: bool): State {
    State(schemaHasRefunding, map[], map[], map[])
  }

  /** Any interleaving of any number of requests is some schedule. */
  ghost function Run(s: State, schedule: seq<Action>): State
    decreases |schedule|
  {
    if schedule == [] then s else Run(Step(s, schedule[0]), schedule[1..])
  }

  // ------------------------------------------------------------------
  // Reachability
  // ------------------------------------------------------------------

  ghost predicate Reaches(s: State, s': State) {
    exists schedule: seq<Action> :: Run(s, schedule) == s'
  }

  lemma {:induction false} RunAppend(s: State, one: seq<Action>, two: seq<Action>)
    ensures Run(s, one + two) == Run(Run(s, one), two)
    decreases |one|
  {
    if one == [] {
      assert one + two == two;
    } else {
      assert (one + two)[0] == one[0] && (one + two)[1..] == one[1..] + two;
      RunAppend(Step(s, one[0]), one[1..], two);
    }
  }

  lemma ReachesStep(s: State, s': State, a: Action)
    requires Reaches(s, s')
    ensures Reaches(s, Step(s', a))
  {
    var schedule :| Run(s, schedule) == s';
    RunAppend(s, schedule, [a]);
    assert Run(s', [a]) == Run(Step(s', a), []);
  }
}
