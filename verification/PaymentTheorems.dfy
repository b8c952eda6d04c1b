/** Money safety of the payment service, over every schedule. */
module PaymentTheorems {
  import opened Wrappers
  import opened PaymentMachine
  import opened PaymentInvariant

  // ------------------------------------------------------------------
  // Counting charges and refunds
  // ------------------------------------------------------------------

  /** The gateway's charges for one payment row. */
  function ChargeRefs(ledger: Ledger, id: nat): set<nat> {
    set r | r in ledger && ledger[r].payer == id
  }

  function Charges(ledger: Ledger, id: nat): nat {
    |ChargeRefs(ledger, id)|
  }

  ghost function SumRefunds(ledger: Ledger, refs: set<nat>): nat
    requires refs <= ledger.Keys
  {
    if refs == {} then 0
    else
      var r :| r in refs;
      ledger[r].refunds + SumRefunds(ledger, refs - {r})
  }

  ghost function Refunds(ledger: Ledger, id: nat): nat {
    SumRefunds(ledger, ChargeRefs(ledger, id))
  }

  /** The gateway's charges for all rows that carry one idempotency key. */
  function KeyChargeRefs(s: State, key: string): set<nat> {
    set r | r in s.ledger && s.ledger[r].payer in s.rows && s.rows[s.ledger[r].payer].key == key
  }

  lemma SingletonSum(ledger: Ledger, refs: set<nat>, r: nat)
    requires refs <= ledger.Keys && r in refs
    requires forall q :: q in refs ==> q == r
    ensures |refs| == 1 && SumRefunds(ledger, refs) == ledger[r].refunds
  {
    assert refs == {r};
    assert refs - {r} == {};
  }

  // ------------------------------------------------------------------
  // Money safety
  // ------------------------------------------------------------------

  /** The table of the design: what each status says about charges and refunds. */
  predicate MoneyMatchesStatus(status: Status, charges: nat, refunds: nat) {
    match status
    case Pending => charges <= 1 && refunds == 0
    case Failed => charges == 0 && refunds == 0
    case Success => charges == 1 && refunds == 0
    case Refunding => charges == 1 && refunds <= 1
    case Refunded => charges == 1 && refunds == 1
  }

  /** In every reachable state, whatever was interleaved, retried, lost or crashed. */
  lemma MoneySafety(flag: bool, schedule: seq<Action>, id: nat)
    requires id in Run(Init(flag), schedule).rows
    ensures var s := Run(Init(flag), schedule);
            MoneyMatchesStatus(s.rows[id].status, Charges(s.ledger, id), Refunds(s.ledger, id))
  {
    RunInv(Init(flag), schedule);
    var s := Run(Init(flag), schedule);
    var p, refs := s.rows[id], ChargeRefs(s.ledger, id);
    if r :| r in refs {
      SingletonSum(s.ledger, refs, r);
    }
    if p.ref.Some? {
      assert p.ref.value in refs;
    }
  }

  /** Per idempotency key: one row, at most one charge, never more refunds than charges. */
  lemma OneChargePerKey(flag: bool, schedule: seq<Action>, key: string)
    ensures var s := Run(Init(flag), schedule);
            && (forall i, j :: i in s.rows && j in s.rows && s.rows[i].key == s.rows[j].key == key ==> i == j)
            && |KeyChargeRefs(s, key)| <= 1
            && SumRefunds(s.ledger, KeyChargeRefs(s, key)) <= |KeyChargeRefs(s, key)|
  {
    RunInv(Init(flag), schedule);
    var s := Run(Init(flag), schedule);
    var refs := KeyChargeRefs(s, key);
    if r :| r in refs {
      SingletonSum(s.ledger, refs, r);
      assert RowMoney(s.schemaHasRefunding, s.ledger, s.rows[s.ledger[r].payer]);
    }
  }

  /** What the payment handed back to a caller says about the money: a paid status
      stands for exactly one charge of that amount, a failed one for none. */
  lemma ReturnedPaymentIsTrue(flag: bool, schedule: seq<Action>, t: nat)
    requires var s := Run(Init(flag), schedule);
             t in s.threads && s.threads[t].PayDone? && s.threads[t].result.Some?
    ensures var s := Run(Init(flag), schedule);
            var p := s.threads[t].result.value;
            && p.key == s.threads[t].req.key && p.id in s.rows
            && (p.status.Success? || p.status.Refunding? || p.status.Refunded? ==>
                  && p.ref.Some? && ChargeRefs(s.ledger, p.id) == {p.ref.value}
                  && s.ledger[p.ref.value].amount == p.amount)
            && (p.status.Failed? ==> ChargeRefs(s.ledger, p.id) == {})
  {
    RunInv(Init(flag), schedule);
    var s := Run(Init(flag), schedule);
    var p := s.threads[t].result.value;
    assert ThreadOk(s.rows, s.ledger, s.threads[t]);
    assert RowMoney(s.schemaHasRefunding, s.ledger, s.rows[p.id]);
  }

  /** All successful ProcessPayment calls with one key return the same payment. */
  lemma SamePaymentForKey(flag: bool, schedule: seq<Action>, t: nat, u: nat)
    requires var s := Run(Init(flag), schedule);
             && t in s.threads && s.threads[t].PayDone? && s.threads[t].result.Some?
             && u in s.threads && s.threads[u].PayDone? && s.threads[u].result.Some?
             && s.threads[t].req.key == s.threads[u].req.key
    ensures var s := Run(Init(flag), schedule);
            && s.threads[t].result.value.id == s.threads[u].result.value.id
            && s.threads[t].result.value.amount == s.threads[u].result.value.amount
  {
    RunInv(Init(flag), schedule);
    var s := Run(Init(flag), schedule);
    assert ThreadOk(s.rows, s.ledger, s.threads[t]);
    assert ThreadOk(s.rows, s.ledger, s.threads[u]);
  }

  // ------------------------------------------------------------------
  // Ownership makes the blind writes safe
  // ------------------------------------------------------------------

  /** A write that first compares the entire row with what the writer last knew. */
  function CompareAndSet(rows: Rows, known: Payment, p: Payment): Rows {
    if p.id in rows && rows[p.id] == known then rows[p.id := p] else rows
  }

  /** The row that an unconditional UPDATE is about to write, if the action is one. */
  function BlindWrite(th: Thread, a: Action): Option<Payment> {
    match a
    case MarkFailed(_, _, now) =>
      if th.PayMarkFailed? then Some(th.copy.(status := Failed, updatedAt := now)) else None
    case MarkSuccess(_, _, now) =>
      if th.PayMarkSuccess?
      then Some(th.copy.(ref := Some(th.txn), status := Success, paidAt := Some(now), updatedAt := now))
      else None
    case Revert(_, _, now) =>
      if th.RefundRevert? then Some(th.copy.(status := Success, updatedAt := now)) else None
    case MarkRefunded(_, _, now) =>
      if th.RefundMark? then Some(th.copy.(status := Refunded, updatedAt := now)) else None
    case _ => None
  }

  /** Every unconditional UPDATE, in every reachable state, is issued by the only
      request that owns the row, finds there exactly the version its issuer last
      wrote, and so has the effect of a full compare-and-set. */
  lemma BlindWritesAreCompareAndSet(flag: bool, schedule: seq<Action>, a: Action)
    requires var s := Run(Init(flag), schedule);
             a.t in s.threads && BlindWrite(s.threads[a.t], a).Some?
    ensures var s := Run(Init(flag), schedule);
            var th, p := s.threads[a.t], BlindWrite(s.threads[a.t], a).value;
            && p.id in s.rows && s.rows[p.id] == th.copy
            && (forall u :: u in s.threads && u != a.t ==> Owned(s.threads[u]) != Some(p.id))
            && Step(s, a).rows == if a.write.TakesEffect() then CompareAndSet(s.rows, th.copy, p) else s.rows
  {
    RunInv(Init(flag), schedule);
    var s := Run(Init(flag), schedule);
    var th := s.threads[a.t];
    assert ThreadOk(s.rows, s.ledger, th);
    assert Owned(th) == Some(th.copy.id);
  }

  /** The status check cannot be fooled by success-refunding-success: when it
      passes, the row still equals the copy read earlier, its time stamp apart,
      so writing the old copy's columns back loses nothing. */
  lemma StatusCheckSuffices(flag: bool, schedule: seq<Action>, t: nat)
    requires var s := Run(Init(flag), schedule);
             && t in s.threads && s.threads[t].RefundLock?
             && s.threads[t].copy.id in s.rows && s.rows[s.threads[t].copy.id].status.Success?
    ensures var s := Run(Init(flag), schedule);
            var copy := s.threads[t].copy;
            && s.rows[copy.id] == copy.(updatedAt := s.rows[copy.id].updatedAt)
            && (forall u :: u in s.threads ==> Owned(s.threads[u]) != Some(copy.id))
            && forall now :: UpdateRowIfStatus(s.rows, copy.(status := Refunding, updatedAt := now), Success)
                             == s.rows[copy.id := s.rows[copy.id].(status := Refunding, updatedAt := now)]
  {
    RunInv(Init(flag), schedule);
    var s := Run(Init(flag), schedule);
    var copy := s.threads[t].copy;
    assert ThreadOk(s.rows, s.ledger, s.threads[t]);
    SuccessHasNoOwner(s, copy.id);
  }

  // ------------------------------------------------------------------
  // A step moves one request
  // ------------------------------------------------------------------

  lemma PayStepOthers(s: State, a: Action, u: nat)
    requires a.t in s.threads && u in s.threads && u != a.t && IsPayAction(a)
    ensures var s' := PayStep(s, s.threads[a.t], a);
            u in s'.threads && s'.threads[u] == s.threads[u]
  {
    hide UpdateRow, KeyTaken, NewPayment;
  }

  lemma RefundStepOthers(s: State, a: Action, u: nat)
    requires a.t in s.threads && u in s.threads && u != a.t && !IsPayAction(a)
    ensures var s' := RefundStep(s, s.threads[a.t], a);
            u in s'.threads && s'.threads[u] == s.threads[u]
  {
    hide UpdateRow, UpdateRowIfStatus, Refunded1, StatusAllowed;
  }

  lemma OthersStay(s: State, a: Action, u: nat)
    requires u in s.threads && u != a.t
    ensures u in Step(s, a).threads && Step(s, a).threads[u] == s.threads[u]
  {
    hide PayStep, RefundStep;
    if !a.BeginPay? && !a.BeginRefund? && a.t in s.threads {
      if IsPayAction(a) {
        PayStepOthers(s, a, u);
      } else {
        RefundStepOthers(s, a, u);
      }
    }
  }

  // ------------------------------------------------------------------
  // The life of a row
  // ------------------------------------------------------------------

  predicate StatusEdge(p: Status, q: Status) {
    match p
    case Pending => q.Success? || q.Failed?
    case Success => q.Refunding?
    case Refunding => q.Success? || q.Refunded?
    case _ => false
  }

  /** How one row may differ after one step. */
  predicate RowEvolves(p: Payment, q: Payment) {
    && q.id == p.id && q.billingId == p.billingId && q.amount == p.amount && q.key == p.key
    && (q.status == p.status || StatusEdge(p.status, q.status))
    && (p.ref.Some? ==> q.ref == p.ref && q.paidAt == p.paidAt)
  }

  lemma PayWriteEvolves(s: State, a: Action, id: nat)
    requires id in s.rows && s.rows[id].id == id && RowMoney(s.schemaHasRefunding, s.ledger, s.rows[id])
    requires a.t in s.threads && ThreadOk(s.rows, s.ledger, s.threads[a.t]) && IsPayAction(a)
    ensures var rows' := PayStep(s, s.threads[a.t], a).rows; id in rows' && RowEvolves(s.rows[id], rows'[id])
  {
    hide ChargedFor, FindByKey;
  }

  lemma RefundWriteEvolves(s: State, a: Action, id: nat)
    requires id in s.rows && s.rows[id].id == id && RowMoney(s.schemaHasRefunding, s.ledger, s.rows[id])
    requires a.t in s.threads && ThreadOk(s.rows, s.ledger, s.threads[a.t]) && !IsPayAction(a)
    ensures var rows' := RefundStep(s, s.threads[a.t], a).rows; id in rows' && RowEvolves(s.rows[id], rows'[id])
  {
    hide ChargedFor, FindByKey, Refunded1;
  }

  lemma RowStays(p: Payment)
    ensures RowEvolves(p, p)
  {
  }

  lemma StepEvolves(s: State, a: Action, id: nat)
    requires Inv(s) && id in s.rows
    ensures id in Step(s, a).rows && RowEvolves(s.rows[id], Step(s, a).rows[id])
  {
    hide RowEvolves, RowMoney, ThreadOk, PayStep, RefundStep;
    RowStays(s.rows[id]);
    if a.t in s.threads && IsPayAction(a) {
      PayWriteEvolves(s, a, id);
    } else if a.t in s.threads {
      RefundWriteEvolves(s, a, id);
    }
  }

  /** Rows are never lost; a paid row keeps its reference and payment time; failed
      and refunded rows keep their status for ever. */
  lemma {:induction false} PaidIsFrozen(s: State, schedule: seq<Action>, id: nat)
    requires Inv(s) && id in s.rows
    ensures var s' := Run(s, schedule);
            && id in s'.rows
            && s'.rows[id].key == s.rows[id].key && s'.rows[id].amount == s.rows[id].amount
            && (s.rows[id].ref.Some? ==> SamePaid(s.rows[id], s'.rows[id]))
            && (s.rows[id].status.Failed? || s.rows[id].status.Refunded? ==> s'.rows[id].status == s.rows[id].status)
    decreases |schedule|
  {
    if schedule != [] {
      StepInv(s, schedule[0]);
      StepEvolves(s, schedule[0], id);
      PaidIsFrozen(Step(s, schedule[0]), schedule[1..], id);
    }
  }

  lemma {:induction false} FlagConstant(s: State, schedule: seq<Action>)
    ensures Run(s, schedule).schemaHasRefunding == s.schemaHasRefunding
    decreases |schedule|
  {
    if schedule != [] {
      FlagConstant(Step(s, schedule[0]), schedule[1..]);
    }
  }

  /** Under the shipped schema, whose status constraint does not list 'refunding',
      the lock of RefundPayment can never be taken: nothing is ever refunded. */
  lemma ShippedSchemaNeverRefunds(schedule: seq<Action>)
    ensures var s := Run(Init(false), schedule);
            && (forall id :: id in s.rows ==> !s.rows[id].status.Refunding? && !s.rows[id].status.Refunded?)
            && (forall r :: r in s.ledger ==> s.ledger[r].refunds == 0)
  {
    RunInv(Init(false), schedule);
    FlagConstant(Init(false), schedule);
    var s := Run(Init(false), schedule);
    forall r | r in s.ledger
      ensures s.ledger[r].refunds == 0
    {
      assert RowMoney(s.schemaHasRefunding, s.ledger, s.rows[s.ledger[r].payer]);
    }
  }
}
