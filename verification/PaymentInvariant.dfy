/** What every reachable state of the payment service satisfies. */
module PaymentInvariant {
  import opened Wrappers
  import opened PaymentMachine

  type Rows = map<nat, Payment>
  type Ledger = map<nat, Txn>

  // ------------------------------------------------------------------
  // The invariant
  // ------------------------------------------------------------------

  /** The gateway holds a charge made for this row. */
  ghost predicate ChargedFor(ledger: Ledger, id: nat) {
    exists ref :: ref in ledger && ledger[ref].payer == id
  }

  /** The row carries the reference of its own charge, refunded between lo and hi times. */
  predicate CarriesCharge(ledger: Ledger, p: Payment, lo: nat, hi: nat) {
    && p.ref.Some?
    && p.paidAt.Some?
    && p.ref.value in ledger
    && ledger[p.ref.value].payer == p.id
    && lo <= ledger[p.ref.value].refunds <= hi
  }

  /** What a row's status says about the money behind it. */
  ghost predicate RowMoney(schemaHasRefunding: bool, ledger: Ledger, p: Payment) {
    match p.status
    case Pending =>
      && p.ref.None? && p.paidAt.None?
      && forall ref :: ref in ledger && ledger[ref].payer == p.id ==> ledger[ref].refunds == 0
    case Failed => p.ref.None? && p.paidAt.None? && !ChargedFor(ledger, p.id)
    case Success => CarriesCharge(ledger, p, 0, 0)
    case Refunding => CarriesCharge(ledger, p, 0, 1) && schemaHasRefunding
    case Refunded => CarriesCharge(ledger, p, 1, 1) && schemaHasRefunding
  }

  ghost predicate RowsOk(schemaHasRefunding: bool, rows: Rows, ledger: Ledger) {
    forall id :: id in rows ==> rows[id].id == id && RowMoney(schemaHasRefunding, ledger, rows[id])
  }

  predicate KeysUnique(rows: Rows) {
    forall i, j :: i in rows && j in rows && rows[i].key == rows[j].key ==> i == j
  }

  /** At most one charge per payment row, and for that row's amount. */
  predicate LedgerOk(rows: Rows, ledger: Ledger) {
    && (forall r :: r in ledger ==> ledger[r].payer in rows && ledger[r].amount == rows[ledger[r].payer].amount)
    && (forall q, r :: q in ledger && r in ledger && ledger[q].payer == ledger[r].payer ==> q == r)
  }

  /** The row that a request is entitled to overwrite blindly, if any. */
  function Owned(th: Thread): Option<nat> {
    if th.PayCharge? || th.PayMarkFailed? || th.PayMarkSuccess? || th.RefundCall? || th.RefundRevert? || th.RefundMark?
    then Some(th.copy.id)
    else None
  }

  /** The owner's copy is the row itself, not merely an old version of it. */
  predicate OwnsRow(rows: Rows, copy: Payment, status: Status) {
    copy.id in rows && rows[copy.id] == copy && copy.status == status
  }

  /** q differs from p at most in status and updatedAt. */
  predicate SamePaid(p: Payment, q: Payment) {
    p.(status := q.status, updatedAt := q.updatedAt) == q
  }

  /** The payment's own charge has been refunded. */
  predicate MoneyBack(ledger: Ledger, p: Payment) {
    p.ref.Some? && p.ref.value in ledger && ledger[p.ref.value].payer == p.id && ledger[p.ref.value].refunds >= 1
  }

  ghost predicate ThreadOk(rows: Rows, ledger: Ledger, th: Thread) {
    match th
    case PayCharge(req, copy, attempt) =>
      && OwnsRow(rows, copy, Pending) && !ChargedFor(ledger, copy.id) && attempt < MAX_ATTEMPTS
      && copy.key == req.key && copy.amount == req.amount
    case PayRefetch(req) => KeyTaken(rows, req.key)
    case PayMarkFailed(req, copy, _) =>
      OwnsRow(rows, copy, Pending) && !ChargedFor(ledger, copy.id) && copy.key == req.key
    case PayMarkSuccess(req, copy, txn) =>
      && OwnsRow(rows, copy, Pending) && copy.key == req.key
      && txn in ledger && ledger[txn].payer == copy.id && ledger[txn].refunds == 0
    case PayDone(req, Some(p)) =>
      && p.id in rows && p.key == req.key == rows[p.id].key && p.amount == rows[p.id].amount
      && (p.ref.Some? <==> !p.status.Pending? && !p.status.Failed?)
      && (p.ref.Some? ==> SamePaid(p, rows[p.id]))
      && (p.status.Failed? ==> rows[p.id].status.Failed?)
    case RefundLock(copy) =>
      copy.id in rows && copy.status.Success? && copy.ref.Some? && SamePaid(copy, rows[copy.id])
    case RefundCall(copy, attempt) =>
      OwnsRow(rows, copy, Refunding) && CarriesCharge(ledger, copy, 0, 0) && attempt < MAX_ATTEMPTS
    case RefundRevert(copy) => OwnsRow(rows, copy, Refunding) && CarriesCharge(ledger, copy, 0, 0)
    case RefundMark(copy) => OwnsRow(rows, copy, Refunding) && CarriesCharge(ledger, copy, 1, 1)
    case RefundDone(Some(p)) => p.status.Refunded? ==> MoneyBack(ledger, p)
    case _ => true
  }

  ghost predicate ThreadsOk(rows: Rows, ledger: Ledger, threads: map<nat, Thread>) {
    forall t :: t in threads ==> ThreadOk(rows, ledger, threads[t])
  }

  /** No row has two owners. */
  predicate OwnersUnique(threads: map<nat, Thread>) {
    forall t, u | t in threads && u in threads && Owned(threads[t]).Some? ::
      Owned(threads[t]) == Owned(threads[u]) ==> t == u
  }

  ghost predicate Inv(s: State) {
    && RowsOk(s.schemaHasRefunding, s.rows, s.ledger)
    && KeysUnique(s.rows)
    && LedgerOk(s.rows, s.ledger)
    && ThreadsOk(s.rows, s.ledger, s.threads)
    && OwnersUnique(s.threads)
  }

  // ------------------------------------------------------------------
  // Frames: what a step on one row leaves alone
  // ------------------------------------------------------------------

  /** Only the row `id` and its own charge may have changed, and what identifies
      the payment has not. */
  predicate TouchesOnly(rows: Rows, ledger: Ledger, rows': Rows, ledger': Ledger, id: nat) {
    && (forall i :: i in rows ==> i in rows' && (i != id ==> rows'[i] == rows[i]))
    && (forall i :: i in rows' && i != id ==> i in rows)
    && (id in rows ==>
          && rows'[id].key == rows[id].key && rows'[id].amount == rows[id].amount
          && (rows[id].ref.Some? ==> SamePaid(rows[id], rows'[id]))
          && (rows[id].status.Failed? ==> rows'[id] == rows[id]))
    && (forall r :: r in ledger ==>
          && r in ledger' && ledger'[r].payer == ledger[r].payer && ledger'[r].refunds >= ledger[r].refunds
          && (ledger[r].payer != id ==> ledger'[r] == ledger[r]))
    && (forall r :: r in ledger' && ledger'[r].payer != id ==> r in ledger)
  }

  lemma OtherThreads(rows: Rows, ledger: Ledger, rows': Rows, ledger': Ledger, id: nat, th: Thread)
    requires TouchesOnly(rows, ledger, rows', ledger', id)
    requires ThreadOk(rows, ledger, th) && Owned(th) != Some(id)
    ensures ThreadOk(rows', ledger', th)
  {
  }

  lemma OtherRows(flag: bool, rows: Rows, ledger: Ledger, rows': Rows, ledger': Ledger, id: nat, i: nat)
    requires TouchesOnly(rows, ledger, rows', ledger', id)
    requires i in rows && i != id && rows[i].id == i && RowMoney(flag, ledger, rows[i])
    ensures RowMoney(flag, ledger', rows'[i])
  {
  }

  /** A request that moves without touching the tables. */
  lemma MoveInv(s: State, t: nat, th: Thread)
    requires Inv(s) && ThreadOk(s.rows, s.ledger, th)
    requires Owned(th).Some? ==> t in s.threads && Owned(th) == Owned(s.threads[t])
    ensures Inv(Goto(s, t, th))
  {
  }

  /** A request that changes one row which no other request owns. */
  lemma TouchInv(s: State, t: nat, id: nat, rows': Rows, ledger': Ledger, th: Thread)
    requires Inv(s) && TouchesOnly(s.rows, s.ledger, rows', ledger', id)
    requires forall u :: u in s.threads && u != t ==> Owned(s.threads[u]) != Some(id)
    requires id in rows' && rows'[id].id == id && RowMoney(s.schemaHasRefunding, ledger', rows'[id])
    requires KeysUnique(rows') && LedgerOk(rows', ledger')
    requires ThreadOk(rows', ledger', th) && Owned(th) in {None, Some(id)}
    ensures Inv(Goto(s.(rows := rows', ledger := ledger'), t, th))
  {
    var s' := Goto(s.(rows := rows', ledger := ledger'), t, th);
    forall i | i in rows'
      ensures rows'[i].id == i && RowMoney(s.schemaHasRefunding, ledger', rows'[i])
    {
      if i != id {
        OtherRows(s.schemaHasRefunding, s.rows, s.ledger, rows', ledger', id, i);
      }
    }
    forall u | u in s'.threads
      ensures ThreadOk(rows', ledger', s'.threads[u])
    {
      if u != t {
        OtherThreads(s.rows, s.ledger, rows', ledger', id, s.threads[u]);
      }
    }
  }

  // ------------------------------------------------------------------
  // Every step keeps it
  // ------------------------------------------------------------------

  lemma LookupInv(s: State, t: nat, fails: bool)
    requires Inv(s) && t in s.threads && s.threads[t].PayLookup?
    ensures Inv(DoLookup(s, t, s.threads[t].req, fails))
  {
    hide OwnersUnique, LedgerOk;
    MoveInv(s, t, DoLookup(s, t, s.threads[t].req, fails).threads[t]);
  }

  lemma FreshRow(rows: Rows, ledger: Ledger, id: nat, p: Payment)
    requires KeysUnique(rows) && LedgerOk(rows, ledger) && id !in rows && !KeyTaken(rows, p.key)
    ensures KeysUnique(rows[id := p]) && LedgerOk(rows[id := p], ledger) && !ChargedFor(ledger, id)
  {
  }

  lemma InsertInv(s: State, t: nat, id: nat, write: Write, now: int)
    requires Inv(s) && t in s.threads && s.threads[t].PayInsert?
    ensures Inv(DoInsert(s, t, s.threads[t].req, id, write, now))
  {
    hide RowsOk, KeysUnique, LedgerOk, OwnersUnique;
    var req := s.threads[t].req;
    if id !in s.rows && !KeyTaken(s.rows, req.key) && write.TakesEffect() {
      var p := NewPayment(req, id, now);
      FreshRow(s.rows, s.ledger, id, p);
      assert forall u :: u in s.threads ==> ThreadOk(s.rows, s.ledger, s.threads[u]);
      assert RowMoney(s.schemaHasRefunding, s.ledger, p);
      TouchInv(s, t, id, s.rows[id := p], s.ledger, if write.Applied? then PayCharge(req, p, 0) else PayDone(req, None));
    } else if id !in s.rows {
      MoveInv(s, t, DoInsert(s, t, req, id, write, now).threads[t]);
    }
  }

  lemma RefetchInv(s: State, t: nat, fails: bool)
    requires Inv(s) && t in s.threads && s.threads[t].PayRefetch?
    ensures Inv(DoRefetch(s, t, s.threads[t].req, fails))
  {
    hide OwnersUnique, LedgerOk;
    MoveInv(s, t, PayDone(s.threads[t].req, if fails then None else FindByKey(s.rows, s.threads[t].req.key)));
  }

  lemma ChargeInv(s: State, t: nat, reply: Reply)
    requires Inv(s) && t in s.threads && s.threads[t].PayCharge?
    ensures Inv(DoCharge(s, t, s.threads[t], reply))
  {
    var th := s.threads[t];
    if reply.Accepted? && reply.ref !in s.ledger {
      TouchInv(s, t, th.copy.id, s.rows, s.ledger[reply.ref := Txn(th.copy.id, th.req.amount, 0)],
               PayMarkSuccess(th.req, th.copy, reply.ref));
    }
  }

  lemma MarkFailedInv(s: State, t: nat, write: Write, now: int)
    requires Inv(s) && t in s.threads && s.threads[t].PayMarkFailed?
    ensures Inv(DoMarkFailed(s, t, s.threads[t], write, now))
  {
    hide KeysUnique, LedgerOk;
    var th := s.threads[t];
    if write.TakesEffect() {
      var p := th.copy.(status := Failed, updatedAt := now);
      assert ThreadOk(s.rows, s.ledger, th);
      assert UpdateRow(s.rows, p) == s.rows[p.id := p];
      RewriteRow(s.rows, s.ledger, p);
      TouchInv(s, t, th.copy.id, UpdateRow(s.rows, p), s.ledger, PayDone(th.req, if write.Applied? && !th.cancelled then Some(p) else None));
    }
  }

  lemma MarkSuccessInv(s: State, t: nat, write: Write, now: int)
    requires Inv(s) && t in s.threads && s.threads[t].PayMarkSuccess?
    ensures Inv(DoMarkSuccess(s, t, s.threads[t], write, now))
  {
    hide KeysUnique, LedgerOk;
    var th := s.threads[t];
    if write.TakesEffect() {
      var p := th.copy.(ref := Some(th.txn), status := Success, paidAt := Some(now), updatedAt := now);
      assert ThreadOk(s.rows, s.ledger, th);
      assert UpdateRow(s.rows, p) == s.rows[p.id := p];
      RewriteRow(s.rows, s.ledger, p);
      TouchInv(s, t, th.copy.id, UpdateRow(s.rows, p), s.ledger, PayDone(th.req, if write.Applied? then Some(p) else None));
    }
  }

  lemma CheckRefundKeyInv(s: State, t: nat, fails: bool)
    requires Inv(s) && t in s.threads && s.threads[t].RefundLookup?
    ensures Inv(DoCheckRefundKey(s, t, s.threads[t], fails))
  {
    hide OwnersUnique, LedgerOk;
    MoveInv(s, t, DoCheckRefundKey(s, t, s.threads[t], fails).threads[t]);
  }

  lemma ReadForRefundInv(s: State, t: nat, fails: bool)
    requires Inv(s) && t in s.threads && s.threads[t].RefundRead?
    ensures Inv(DoReadForRefund(s, t, s.threads[t].pid, fails))
  {
    hide OwnersUnique, LedgerOk;
    MoveInv(s, t, DoReadForRefund(s, t, s.threads[t].pid, fails).threads[t]);
  }

  lemma RewriteRow(rows: Rows, ledger: Ledger, p: Payment)
    requires KeysUnique(rows) && LedgerOk(rows, ledger)
    requires p.id in rows && rows[p.id].key == p.key && rows[p.id].amount == p.amount
    ensures KeysUnique(rows[p.id := p]) && LedgerOk(rows[p.id := p], ledger)
  {
  }

  lemma SuccessHasNoOwner(s: State, id: nat)
    requires Inv(s) && id in s.rows && s.rows[id].status.Success?
    ensures forall u :: u in s.threads ==> Owned(s.threads[u]) != Some(id)
  {
    forall u | u in s.threads
      ensures Owned(s.threads[u]) != Some(id)
    {
      assert ThreadOk(s.rows, s.ledger, s.threads[u]);
    }
  }

  lemma LockForRefundInv(s: State, t: nat, write: Write, now: int)
    requires Inv(s) && t in s.threads && s.threads[t].RefundLock?
    ensures Inv(DoLockForRefund(s, t, s.threads[t].copy, write, now))
  {
    var copy := s.threads[t].copy;
    if write.TakesEffect() && StatusAllowed(s, Refunding) && s.rows[copy.id].status.Success? {
      var p := copy.(status := Refunding, updatedAt := now);
      assert ThreadOk(s.rows, s.ledger, s.threads[t]);
      SuccessHasNoOwner(s, copy.id);
      assert UpdateRow(s.rows, p) == s.rows[copy.id := p];
      RewriteRow(s.rows, s.ledger, p);
      assert RowMoney(s.schemaHasRefunding, s.ledger, s.rows[copy.id]);
      TouchInv(s, t, copy.id, UpdateRow(s.rows, p), s.ledger, if write.Applied? then RefundCall(p, 0) else RefundDone(None));
    } else {
      MoveInv(s, t, RefundDone(None));
    }
  }

  lemma RefundInv(s: State, t: nat, reply: Reply)
    requires Inv(s) && t in s.threads && s.threads[t].RefundCall?
    ensures Inv(DoRefund(s, t, s.threads[t], reply))
  {
    var th := s.threads[t];
    assert ThreadOk(s.rows, s.ledger, th);
    if reply.Accepted? {
      var ledger' := Refunded1(s.ledger, th.copy.ref);
      assert ledger'.Keys == s.ledger.Keys;
      TouchInv(s, t, th.copy.id, s.rows, ledger', RefundMark(th.copy));
    } else {
      MoveInv(s, t, DoRefund(s, t, th, reply).threads[t]);
    }
  }

  lemma RevertInv(s: State, t: nat, write: Write, now: int)
    requires Inv(s) && t in s.threads && s.threads[t].RefundRevert?
    ensures Inv(DoRevert(s, t, s.threads[t].copy, write, now))
  {
    hide RowsOk, KeysUnique, LedgerOk;
    var th := s.threads[t];
    if write.TakesEffect() {
      var p := th.copy.(status := Success, updatedAt := now);
      assert ThreadOk(s.rows, s.ledger, th);
      assert UpdateRow(s.rows, p) == s.rows[p.id := p];
      RewriteRow(s.rows, s.ledger, p);
      TouchInv(s, t, th.copy.id, UpdateRow(s.rows, p), s.ledger, RefundDone(None));
    }
  }

  lemma MarkRefundedInv(s: State, t: nat, write: Write, now: int)
    requires Inv(s) && t in s.threads && s.threads[t].RefundMark?
    ensures Inv(DoMarkRefunded(s, t, s.threads[t].copy, write, now))
  {
    hide KeysUnique, LedgerOk;
    var th := s.threads[t];
    if write.TakesEffect() {
      var p := th.copy.(status := Refunded, updatedAt := now);
      assert ThreadOk(s.rows, s.ledger, th);
      assert UpdateRow(s.rows, p) == s.rows[p.id := p];
      RewriteRow(s.rows, s.ledger, p);
      TouchInv(s, t, th.copy.id, UpdateRow(s.rows, p), s.ledger, RefundDone(Some(p)));
    }
  }

  lemma InitInv(schemaHasRefunding: bool)
    ensures Inv(Init(schemaHasRefunding))
  {
  }

  lemma StepInv(s: State, a: Action)
    requires Inv(s)
    ensures Inv(Step(s, a))
  {
    hide RowsOk, KeysUnique, LedgerOk, OwnersUnique;
    if a.BeginPay? || a.BeginRefund? {
      MoveInv(s, a.t, if a.BeginPay? then PayLookup(a.req) else RefundLookup(a.pid, a.refundKey));
    } else if a.t in s.threads {
      var th := s.threads[a.t];
      match a
      case Lookup(t, fails) =>
        if th.PayLookup? { LookupInv(s, t, fails); }
      case Insert(t, id, write, now) =>
        if th.PayInsert? { InsertInv(s, t, id, write, now); }
      case Refetch(t, fails) =>
        if th.PayRefetch? { RefetchInv(s, t, fails); }
      case Charge(t, reply) =>
        if th.PayCharge? { ChargeInv(s, t, reply); }
      case MarkFailed(t, write, now) =>
        if th.PayMarkFailed? { MarkFailedInv(s, t, write, now); }
      case MarkSuccess(t, write, now) =>
        if th.PayMarkSuccess? { MarkSuccessInv(s, t, write, now); }
      case CheckRefundKey(t, fails) =>
        if th.RefundLookup? { CheckRefundKeyInv(s, t, fails); }
      case ReadForRefund(t, fails) =>
        if th.RefundRead? { ReadForRefundInv(s, t, fails); }
      case LockForRefund(t, write, now) =>
        if th.RefundLock? { LockForRefundInv(s, t, write, now); }
      case Refund(t, reply) =>
        if th.RefundCall? { RefundInv(s, t, reply); }
      case Revert(t, write, now) =>
        if th.RefundRevert? { RevertInv(s, t, write, now); }
      case MarkRefunded(t, write, now) =>
        if th.RefundMark? { MarkRefundedInv(s, t, write, now); }
      case Crash(t) =>
        if !th.PayDone? && !th.RefundDone? { MoveInv(s, t, Crashed); }
      case _ =>
    }
  }

  lemma {:induction false} RunInv(s: State, schedule: seq<Action>)
    requires Inv(s)
    ensures Inv(Run(s, schedule))
    decreases |schedule|
  {
    if schedule != [] {
      StepInv(s, schedule[0]);
      RunInv(Step(s, schedule[0]), schedule[1..]);
    }
  }
}
