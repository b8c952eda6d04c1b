/** The payment service in its own form: the repository's statements over a
    mutable table, and the two use cases as straight-line code with retry loops.
    Between any two statements other requests may take any number of steps; the
    code is proved to take only steps of the payment machine, so everything
    proved about that machine's reachable states holds of it. What a request does when
    it is alone, whatever fails, is proved as well. */
module PaymentService {
  import opened Wrappers
  import opened PaymentMachine
  import opened PaymentInvariant
  import opened PaymentContracts

  datatype CreateResult = Created | Conflict | CreateError

  // ------------------------------------------------------------------
  // Entering the service
  // ------------------------------------------------------------------

  lemma EnterPay(s: State, t: nat, req: PayRequest)
    requires t !in s.threads
    ensures Step(s, BeginPay(t, req)) == Goto(s, t, PayLookup(req))
  {
  }

  lemma EnterRefund(s: State, t: nat, pid: nat, refundKey: string)
    requires t !in s.threads
    ensures Step(s, BeginRefund(t, pid, refundKey)) == Goto(s, t, RefundLookup(pid, refundKey))
  {
  }

  /** The copy that an owner holds is the row. */
  lemma OwnedRow(s: State, t: nat)
    requires Inv(s) && t in s.threads && Owned(s.threads[t]).Some?
    ensures var copy := s.threads[t].copy; copy.id in s.rows && s.rows[copy.id] == copy
  {
    hide RowsOk, KeysUnique, LedgerOk, OwnersUnique;
    assert ThreadOk(s.rows, s.ledger, s.threads[t]);
  }

  /** Rows are never lost, so the loser of a race on the key finds the winner's. */
  lemma WinnerIsThere(s: State, t: nat)
    requires Inv(s) && t in s.threads && s.threads[t].PayRefetch?
    ensures HasKey(s.rows, s.threads[t].req.key)
  {
    hide RowsOk, KeysUnique, LedgerOk, OwnersUnique;
    assert ThreadOk(s.rows, s.ledger, s.threads[t]);
  }

  lemma RefundedIsBack(s: State, t: nat)
    requires Inv(s) && t in s.threads && s.threads[t].RefundDone?
    ensures var result := s.threads[t].result; result.Some? && result.value.status.Refunded? ==> MoneyBack(s.ledger, result.value)
  {
    hide RowsOk, KeysUnique, LedgerOk, OwnersUnique, MoneyBack;
    assert ThreadOk(s.rows, s.ledger, s.threads[t]);
  }

  class Service {
    const schemaHasRefunding: bool
    /** The payments table. */
    var rows: map<nat, Payment>
    /** The gateway's ledger. */
    var ledger: map<nat, Txn>
    /** Where every request is. */
    ghost var threads: map<nat, Thread>

    ghost function S(): State
      reads this
    {
      State(schemaHasRefunding, rows, ledger, threads)
    }

    constructor (schemaHasRefunding: bool)
      ensures S() == Init(schemaHasRefunding)
    {
      this.schemaHasRefunding := schemaHasRefunding;
      rows, ledger, threads := map[], map[], map[];
    }

    // ----------------------------------------------------------------
    // The repository
    // ----------------------------------------------------------------

    /** INSERT under the unique key; the reply may be lost. */
    method CreatePayment(p: Payment, env: Env) returns (r: CreateResult, write: Write)
      requires p.id !in rows
      modifies this`rows
      ensures rows == if write.TakesEffect() && !KeyTaken(old(rows), p.key) then old(rows)[p.id := p] else old(rows)
      ensures r == match write
                   case Applied => if KeyTaken(old(rows), p.key) then Conflict else Created
                   case _ => CreateError
      ensures env.Told? ==> write == env.write
    {
      write := *;
      if env.Told? {
        write := env.write;
      }
      var found := GetByIdempotencyKey(p.key);
      if write.TakesEffect() && found.None? {
        rows := rows[p.id := p];
      }
      r := if !write.Applied? then CreateError else if found.Some? then Conflict else Created;
    }

    method GetByIdempotencyKey(key: string) returns (r: Option<Payment>)
      ensures r.Some? ==> r.value.key == key && exists id :: id in rows && rows[id] == r.value
      ensures r.None? ==> !KeyTaken(rows, key)
    {
      var todo := rows.Keys;
      while todo != {}
        invariant todo <= rows.Keys
        invariant forall id :: id in rows && id !in todo ==> rows[id].key != key
      {
        var id :| id in todo;
        if rows[id].key == key {
          return Some(rows[id]);
        }
        todo := todo - {id};
      }
      return None;
    }

    /** UPDATE by id; an error tells nothing about whether it took effect. */
    method UpdatePayment(p: Payment, env: Env) returns (write: Write)
      modifies this`rows
      ensures rows == if write.TakesEffect() then UpdateRow(old(rows), p) else old(rows)
      ensures env.Told? ==> write == env.finish
    {
      write := *;
      if env.Told? {
        write := env.finish;
      }
      if write.TakesEffect() && p.id in rows {
        var row := rows[p.id];
        rows := rows[p.id := row.(status := p.status, ref := p.ref, paidAt := p.paidAt, key := p.key, updatedAt := p.updatedAt)];
      }
    }

    /** UPDATE by id and status. */
    method UpdatePaymentWithStatusCheck(p: Payment, expected: Status, env: Env) returns (ok: bool, write: Write)
      modifies this`rows
      ensures rows == if write.TakesEffect() && StatusAllowed(S(), p.status)
                      then UpdateRowIfStatus(old(rows), p, expected) else old(rows)
      ensures ok <==> && write.Applied? && StatusAllowed(S(), p.status)
                      && p.id in old(rows) && old(rows)[p.id].status == expected
      ensures env.Told? ==> write == env.write
    {
      ok, write := false, *;
      if env.Told? {
        write := env.write;
      }
      if write.TakesEffect() && (p.status.Refunding? ==> schemaHasRefunding) && p.id in rows && rows[p.id].status == expected {
        var row := rows[p.id];
        rows := rows[p.id := row.(status := p.status, ref := p.ref, paidAt := p.paidAt, key := p.key, updatedAt := p.updatedAt)];
        ok := write.Applied?;
      }
    }

    // ----------------------------------------------------------------
    // The gateway and the other requests
    // ----------------------------------------------------------------

    /** What an attempt comes to: the gateway declines as often as told, and then accepts,
        unless the request is cancelled at that point. */
    method Answer(env: Env, attempt: nat) returns (reply: Reply)
      ensures env.Told? ==>
                && (reply.Declined? <==> attempt < env.declines)
                && (reply.Interrupted? <==> attempt >= env.declines && env.interrupted)
    {
      reply := *;
      if env.Told? {
        reply := if attempt < env.declines then Declined else if env.interrupted then Interrupted else Accepted(0);
      }
    }

    method GatewayCharge(payer: nat, amount: int, env: Env, attempt: nat) returns (reply: Reply)
      modifies this`ledger
      ensures reply.Accepted? ==> reply.ref !in old(ledger) && ledger == old(ledger)[reply.ref := Txn(payer, amount, 0)]
      ensures !reply.Accepted? ==> ledger == old(ledger)
      ensures env.Told? ==>
                && (reply.Declined? <==> attempt < env.declines)
                && (reply.Interrupted? <==> attempt >= env.declines && env.interrupted)
    {
      reply := Answer(env, attempt);
      if reply.Accepted? {
        var ref := Fresh(ledger.Keys);
        ledger := ledger[ref := Txn(payer, amount, 0)];
        reply := Accepted(ref);
      }
    }

    method GatewayRefund(ref: Option<nat>, env: Env, attempt: nat) returns (reply: Reply)
      modifies this`ledger
      ensures ledger == if reply.Accepted? then Refunded1(old(ledger), ref) else old(ledger)
      ensures env.Told? ==>
                && (reply.Declined? <==> attempt < env.declines)
                && (reply.Interrupted? <==> attempt >= env.declines && env.interrupted)
    {
      reply := Answer(env, attempt);
      if reply.Accepted? && ref.Some? && ref.value in ledger {
        var txn := ledger[ref.value];
        ledger := ledger[ref.value := txn.(refunds := txn.refunds + 1)];
      }
    }

    /** Whether a read fails. */
    method Failing(told: bool, env: Env) returns (fails: bool)
      ensures env.Told? ==> fails == told
    {
      fails := *;
      if env.Told? {
        fails := told;
      }
    }

    /** Anything the other requests may do meanwhile, unless it is alone: its callers
        know no more of it than its contract, so they are proved against every
        interleaving. */
    method Interference(ghost s0: State, ghost t: nat, env: Env)
      requires Reaches(s0, S()) && t in threads && Inv(S())
      modifies this
      ensures Reaches(s0, S()) && t in threads && threads[t] == old(threads[t]) && Inv(S())
      ensures env.Alone() ==> S() == old(S())
    {
    }

    /** uuid.New(), or the gateway's next reference. */
    method Fresh(taken: set<nat>) returns (id: nat)
      ensures id !in taken
    {
      id := 0;
      var todo := taken;
      while todo != {}
        invariant todo <= taken
        invariant forall i :: i in taken && i !in todo ==> i < id
      {
        var i :| i in todo;
        id := if i < id then id else i + 1;
        todo := todo - {i};
      }
    }

    // ----------------------------------------------------------------
    // The use cases
    // ----------------------------------------------------------------

    /** This request's own statement was a step of the machine. */
    ghost method Advance(s0: State, s: State, a: Action)
      requires Reaches(s0, s) && Inv(s) && S() == Step(s, a)
      ensures Reaches(s0, S()) && Inv(S())
    {
      ReachesStep(s0, s, a);
      StepInv(s, a);
    }

    /** The request enters the service. */
    ghost method Begin(t: nat, th: Thread, a: Action)
      requires Inv(S()) && t !in threads && Step(S(), a) == Goto(S(), t, th)
      modifies this`threads
      ensures Reaches(old(S()), S()) && Inv(S()) && threads == old(threads)[t := th]
    {
      ghost var s0 := S();
      assert Run(s0, []) == s0;
      threads := threads[t := th];
      Advance(s0, s0, a);
    }

    /** ProcessPayment, run as request t. */
    method ProcessPayment(ghost t: nat, req: PayRequest, now: int, env: Env) returns (result: Option<Payment>)
      requires Inv(S()) && t !in threads
      modifies this
      ensures Reaches(old(S()), S()) && Inv(S())
      ensures t in threads && threads[t] == PayDone(req, result)
      ensures env.Alone() ==> Pays(old(rows), old(ledger), rows, ledger, req, now, env, result)
      ensures env.Works() ==> result.Some?
    {
      hide Reaches, Inv, Step, HasKey, Existing, PaysAs;
      ghost var s0 := S();
      EnterPay(s0, t, req);
      Begin(t, PayLookup(req), BeginPay(t, req));
      Interference(s0, t, env);

      var stop;
      stop, result := CheckKey(s0, t, req, env);
      if stop {
        return;
      }
      Interference(s0, t, env);
      result := PayNew(s0, t, req, now, env);
    }

    /** From the insert on. */
    method PayNew(ghost s0: State, ghost t: nat, req: PayRequest, now: int, env: Env) returns (result: Option<Payment>)
      requires Reaches(s0, S()) && Inv(S()) && t in threads && threads[t] == PayInsert(req)
      modifies this
      ensures Reaches(s0, S()) && Inv(S()) && t in threads && threads[t] == PayDone(req, result)
      ensures env.Alone() && !HasKey(old(rows), req.key) ==>
                if env.write.NotApplied? then rows == old(rows) && ledger == old(ledger) && result.None?
                else exists id, ref :: id !in old(rows) && ref !in old(ledger)
                                       && PaysAs(old(rows), old(ledger), rows, ledger, req, now, env, id, ref, result)
      ensures env.Works() ==> result.Some?
    {
      hide Reaches, Inv, HasKey, Existing;
      ghost var was, charges := rows, ledger;
      var created, payment := InsertPending(s0, t, req, now, env);
      if created.CreateError? {
        if env.Alone() && !HasKey(was, req.key) && env.write.ReplyLost? {
          var ref := Unused(charges);
          assert PaysAs(was, charges, rows, ledger, req, now, env, payment.id, ref, None);
        }
        return None;
      }
      Interference(s0, t, env);
      if created.Conflict? {
        result := FetchAfterConflict(s0, t, req, env);
        return;
      }

      ghost var ref;
      result, ref := ChargePending(s0, t, req, payment, now, env);
      if env.Alone() && !HasKey(was, req.key) {
        assert PaysAs(was, charges, rows, ledger, req, now, env, payment.id, ref, result);
      }
    }

    /** The gateway is asked for the money, and the row tells what came of it. */
    method ChargePending(ghost s0: State, ghost t: nat, req: PayRequest, payment: Payment, now: int, env: Env)
      returns (result: Option<Payment>, ghost ref: nat)
      requires Reaches(s0, S()) && Inv(S()) && t in threads && threads[t] == PayCharge(req, payment, 0)
      modifies this
      ensures Reaches(s0, S()) && Inv(S()) && t in threads && threads[t] == PayDone(req, result)
      ensures env.Works() ==> result.Some?
      ensures env.Alone() ==>
                var last := if env.Accepts() then payment.(status := Success, ref := Some(ref), paidAt := Some(now), updatedAt := now)
                            else payment.(status := Failed, updatedAt := now);
                && ref !in old(ledger) && payment.id in old(rows)
                && rows == old(rows)[payment.id := if env.finish.NotApplied? then payment else last]
                && ledger == (if env.Accepts() then old(ledger)[ref := Txn(payment.id, req.amount, 0)] else old(ledger))
                && result == if env.finish.Applied? && (env.Accepts() || env.declines >= 3) then Some(last) else None
    {
      hide Reaches, Inv, UpdateRow;
      ghost var unused := Unused(ledger);
      var reply := ChargeWithRetry(s0, t, req, payment, env);
      ref := if reply.Accepted? then reply.ref else unused;
      if reply.Accepted? {
        result := Succeed(s0, t, req, payment, reply.ref, now, env);
      } else {
        result := Fail(s0, t, req, payment, reply.Interrupted?, now, env);
      }
    }

    /** The idempotency check that opens ProcessPayment: only a lookup that succeeds and
        finds nothing lets the request go on. */
    method CheckKey(ghost s0: State, ghost t: nat, req: PayRequest, env: Env) returns (stop: bool, result: Option<Payment>)
      requires Reaches(s0, S()) && Inv(S()) && t in threads && threads[t] == PayLookup(req)
      modifies this`threads
      ensures Reaches(s0, S()) && Inv(S()) && t in threads
      ensures threads[t] == if stop then PayDone(req, result) else PayInsert(req)
      ensures env.Told? ==>
                && stop == (env.lookupFails || HasKey(rows, req.key))
                && (result.Some? <==> !env.lookupFails && HasKey(rows, req.key))
      ensures result.Some? ==> stop && Existing(rows, req.key, result)
      ensures !stop ==> !HasKey(rows, req.key)
    {
      hide Reaches, Existing, HasKey;
      ghost var s := S();
      FoundIsExisting(s, req.key);
      var fails := Failing(env.Told? && env.lookupFails, env);
      result := None;
      if !fails {
        result := GetByIdempotencyKey(req.key);
        FoundIsUnique(rows, req.key, result);
      }
      stop := fails || result.Some?;
      threads := threads[t := if stop then PayDone(req, result) else PayInsert(req)];
      Advance(s0, s, Lookup(t, fails));
    }

    /** Creates the pending row that this request then owns. */
    method InsertPending(ghost s0: State, ghost t: nat, req: PayRequest, now: int, env: Env)
      returns (created: CreateResult, payment: Payment)
      requires Reaches(s0, S()) && Inv(S()) && t in threads && threads[t] == PayInsert(req)
      modifies this`rows, this`threads
      ensures Reaches(s0, S()) && Inv(S()) && t in threads
      ensures threads[t] == match created
                            case Created => PayCharge(req, payment, 0)
                            case Conflict => PayRefetch(req)
                            case CreateError => PayDone(req, None)
      ensures env.Told? && env.write.Applied? ==> !created.CreateError?
      ensures payment.id !in old(rows)
      ensures payment == Payment(payment.id, req.billingId, req.amount, req.key, Pending, None, None, now)
      ensures env.Told? && !HasKey(old(rows), req.key) ==>
                && (if env.write.Applied? then created.Created? else created.CreateError?)
                && rows == if env.write.NotApplied? then old(rows) else old(rows)[payment.id := payment]
    {
      hide Reaches;
      ghost var s := S();
      assert KeyTaken(rows, req.key) <==> HasKey(rows, req.key);
      var id := Fresh(rows.Keys);
      payment := Payment(id, req.billingId, req.amount, req.key, Pending, None, None, now);
      var write;
      created, write := CreatePayment(payment, env);
      threads := threads[t := match created
                              case Created => PayCharge(req, payment, 0)
                              case Conflict => PayRefetch(req)
                              case CreateError => PayDone(req, None)];
      Advance(s0, s, Insert(t, id, write, now));
    }

    /** Where a request stands after `attempt` charge attempts, the last of which
        came to `reply`. */
    ghost function AfterCharge(req: PayRequest, payment: Payment, attempt: nat, reply: Reply): Thread {
      match reply
      case Accepted(ref) => PayMarkSuccess(req, payment, ref)
      case Interrupted => PayMarkFailed(req, payment, true)
      case Declined =>
        if attempt < MAX_ATTEMPTS then PayCharge(req, payment, attempt) else PayMarkFailed(req, payment, false)
    }

    /** retry.Do around the gateway's Charge: at most three attempts. */
    method ChargeWithRetry(ghost s0: State, ghost t: nat, req: PayRequest, payment: Payment, env: Env) returns (reply: Reply)
      requires Reaches(s0, S()) && Inv(S()) && t in threads && threads[t] == PayCharge(req, payment, 0)
      modifies this
      ensures Reaches(s0, S()) && Inv(S()) && t in threads
      ensures threads[t] == AfterCharge(req, payment, 3, reply)
      ensures env.Told? ==>
                && (reply.Accepted? <==> env.declines < 3 && !env.interrupted)
                && (reply.Interrupted? <==> env.declines < 3 && env.interrupted)
      ensures env.Alone() ==> rows == old(rows)
      ensures env.Alone() ==> if reply.Accepted?
                              then reply.ref !in old(ledger) && ledger == old(ledger)[reply.ref := Txn(payment.id, req.amount, 0)]
                              else ledger == old(ledger)
    {
      hide Reaches, Inv;
      var attempt := 0;
      reply := Declined;
      while attempt < MAX_ATTEMPTS && reply.Declined?
        invariant Reaches(s0, S()) && Inv(S()) && t in threads && attempt <= MAX_ATTEMPTS
        invariant threads[t] == AfterCharge(req, payment, attempt, reply)
        invariant env.Told? ==> if reply.Declined? then attempt <= env.declines
                                else attempt == env.declines + 1 && (reply.Interrupted? <==> env.interrupted)
        invariant env.Alone() ==> rows == old(rows)
        invariant env.Alone() ==> if reply.Accepted?
                                  then reply.ref !in old(ledger) && ledger == old(ledger)[reply.ref := Txn(payment.id, req.amount, 0)]
                                  else ledger == old(ledger)
      {
        ghost var s := S();
        reply := GatewayCharge(payment.id, req.amount, env, attempt);
        attempt := attempt + 1;
        threads := threads[t := AfterCharge(req, payment, attempt, reply)];
        Advance(s0, s, Charge(t, reply));
        Interference(s0, t, env);
      }
    }

    method Fail(ghost s0: State, ghost t: nat, req: PayRequest, copy: Payment, cancelled: bool, now: int, env: Env)
      returns (result: Option<Payment>)
      requires Reaches(s0, S()) && Inv(S()) && t in threads && threads[t] == PayMarkFailed(req, copy, cancelled)
      modifies this`rows, this`threads
      ensures Reaches(s0, S()) && Inv(S()) && t in threads && threads[t] == PayDone(req, result)
      ensures copy.id in old(rows) && old(rows)[copy.id] == copy
      ensures env.Told? ==>
                var p := copy.(status := Failed, updatedAt := now);
                && rows == (if env.finish.NotApplied? then old(rows) else old(rows)[copy.id := p])
                && result == if env.finish.Applied? && !cancelled then Some(p) else None
    {
      hide Reaches, Inv;
      ghost var s := S();
      OwnedRow(s, t);
      var payment := copy.(status := Failed, updatedAt := now);
      UpdateSpelled(rows, payment);
      var write := UpdatePayment(payment, env);
      result := if write.Applied? && !cancelled then Some(payment) else None;
      threads := threads[t := PayDone(req, result)];
      Advance(s0, s, MarkFailed(t, write, now));
    }

    method Succeed(ghost s0: State, ghost t: nat, req: PayRequest, copy: Payment, txn: nat, now: int, env: Env)
      returns (result: Option<Payment>)
      requires Reaches(s0, S()) && Inv(S()) && t in threads && threads[t] == PayMarkSuccess(req, copy, txn)
      modifies this`rows, this`threads
      ensures Reaches(s0, S()) && Inv(S()) && t in threads && threads[t] == PayDone(req, result)
      ensures copy.id in old(rows) && old(rows)[copy.id] == copy
      ensures env.Told? ==>
                var p := copy.(ref := Some(txn), status := Success, paidAt := Some(now), updatedAt := now);
                && rows == (if env.finish.NotApplied? then old(rows) else old(rows)[copy.id := p])
                && result == if env.finish.Applied? then Some(p) else None
    {
      hide Reaches, Inv;
      ghost var s := S();
      OwnedRow(s, t);
      var payment := copy.(ref := Some(txn), status := Success, paidAt := Some(now), updatedAt := now);
      UpdateSpelled(rows, payment);
      var write := UpdatePayment(payment, env);
      result := if write.Applied? then Some(payment) else None;
      threads := threads[t := PayDone(req, result)];
      Advance(s0, s, MarkSuccess(t, write, now));
    }

    /** The loser of the race on the unique key answers with the winner's row. */
    method FetchAfterConflict(ghost s0: State, ghost t: nat, req: PayRequest, env: Env) returns (result: Option<Payment>)
      requires Reaches(s0, S()) && Inv(S()) && t in threads && threads[t] == PayRefetch(req)
      modifies this`threads
      ensures Reaches(s0, S()) && Inv(S()) && t in threads && threads[t] == PayDone(req, result)
      ensures env.Told? ==> (result.Some? <==> !env.refetchFails)
      ensures result.Some? ==> Existing(rows, req.key, result)
    {
      hide Reaches, Existing, HasKey;
      ghost var s := S();
      WinnerIsThere(s, t);
      FoundIsExisting(s, req.key);
      var fails := Failing(env.Told? && env.refetchFails, env);
      result := None;
      if !fails {
        result := GetByIdempotencyKey(req.key);
        FoundIsUnique(rows, req.key, result);
      }
      threads := threads[t := PayDone(req, result)];
      Advance(s0, s, Refetch(t, fails));
    }

    /** RefundPayment, run as request t. */
    method RefundPayment(ghost t: nat, pid: nat, refundKey: string, now: int, env: Env) returns (result: Option<Payment>)
      requires Inv(S()) && t !in threads
      modifies this
      ensures Reaches(old(S()), S()) && Inv(S())
      ensures t in threads && threads[t] == RefundDone(result)
      ensures env.Alone() ==>
                Refunds(schemaHasRefunding, old(rows), old(ledger), rows, ledger, pid, refundKey, now, env, result)
      ensures result.Some? && refundKey == "" ==>
                var p := result.value;
                && p.id == pid && p.status.Refunded? && p.ref.Some?
                && p.ref.value in ledger && ledger[p.ref.value].payer == pid && ledger[p.ref.value].refunds >= 1
    {
      hide Reaches, Inv, Step, HasKey, Existing, RefundsById;
      ghost var s0 := S();
      EnterRefund(s0, t, pid, refundKey);
      Begin(t, RefundLookup(pid, refundKey), BeginRefund(t, pid, refundKey));
      Interference(s0, t, env);

      var stop;
      stop, result := CheckRefund(s0, t, pid, refundKey, env);
      if stop {
        return;
      }
      Interference(s0, t, env);
      result := RefundById(s0, t, pid, now, env);
    }

    /** From reading the payment on. */
    method RefundById(ghost s0: State, ghost t: nat, pid: nat, now: int, env: Env) returns (result: Option<Payment>)
      requires Reaches(s0, S()) && Inv(S()) && t in threads && threads[t] == RefundRead(pid)
      modifies this
      ensures Reaches(s0, S()) && Inv(S()) && t in threads && threads[t] == RefundDone(result)
      ensures env.Alone() ==>
                RefundsById(schemaHasRefunding, old(rows), old(ledger), rows, ledger, pid, now, env, result)
      ensures result.Some? ==> result.value.id == pid && result.value.status.Refunded? && MoneyBack(ledger, result.value)
    {
      hide Reaches, Inv, Refunded1, MoneyBack;
      ghost var was := S();
      var payment := ReadPaid(s0, t, pid, env);
      if payment.None? {
        return None;
      }
      Interference(s0, t, env);
      if env.Alone() {
        PaidCharge(was, pid);
      }

      var locked := TakeRefundLock(s0, t, payment.value, now, env);
      if locked.None? {
        return None;
      }
      Interference(s0, t, env);

      result := RefundLocked(s0, t, locked.value, now, env);
      RefundedIsBack(S(), t);
    }

    /** The gateway is asked to give the money back, and the row tells what came of it. */
    method RefundLocked(ghost s0: State, ghost t: nat, payment: Payment, now: int, env: Env) returns (result: Option<Payment>)
      requires Reaches(s0, S()) && Inv(S()) && t in threads && threads[t] == RefundCall(payment, 0)
      modifies this
      ensures Reaches(s0, S()) && Inv(S()) && t in threads && threads[t] == RefundDone(result)
      ensures result.Some? ==> result.value.id == payment.id && result.value.status.Refunded?
      ensures env.Alone() ==>
                var last := payment.(status := if env.Accepts() then Refunded else Success, updatedAt := now);
                && payment.id in old(rows)
                && rows == (if env.finish.NotApplied? then old(rows) else old(rows)[payment.id := last])
                && result == (if env.Accepts() then Some(last) else None)
                && ledger == if env.Accepts() then Refunded1(old(ledger), payment.ref) else old(ledger)
    {
      hide Reaches, Inv, UpdateRow, Refunded1;
      var reply := RefundWithRetry(s0, t, payment, env);
      result := FinishRefund(s0, t, payment, reply, now, env);
    }

    method CheckRefund(ghost s0: State, ghost t: nat, pid: nat, refundKey: string, env: Env)
      returns (stop: bool, result: Option<Payment>)
      requires Reaches(s0, S()) && Inv(S()) && t in threads && threads[t] == RefundLookup(pid, refundKey)
      modifies this`threads
      ensures Reaches(s0, S()) && Inv(S()) && t in threads
      ensures threads[t] == if stop then RefundDone(result) else RefundRead(pid)
      ensures refundKey == "" ==> !stop
      ensures env.Told? ==>
                && stop == (refundKey != "" && (env.lookupFails || HasKey(rows, refundKey)))
                && (result.Some? <==> refundKey != "" && !env.lookupFails && HasKey(rows, refundKey))
      ensures result.Some? ==> refundKey != "" && Existing(rows, refundKey, result)
    {
      hide Reaches, Existing, HasKey;
      ghost var s := S();
      FoundIsExisting(s, refundKey);
      var fails := Failing(env.Told? && env.lookupFails, env);
      result := None;
      if refundKey != "" && !fails {
        result := GetByIdempotencyKey(refundKey);
        FoundIsUnique(rows, refundKey, result);
      }
      stop := refundKey != "" && (fails || result.Some?);
      threads := threads[t := if stop then RefundDone(result) else RefundRead(pid)];
      Advance(s0, s, CheckRefundKey(t, fails));
    }

    /** GetByID and the guard on the status. */
    method ReadPaid(ghost s0: State, ghost t: nat, pid: nat, env: Env) returns (payment: Option<Payment>)
      requires Reaches(s0, S()) && Inv(S()) && t in threads && threads[t] == RefundRead(pid)
      modifies this`threads
      ensures Reaches(s0, S()) && Inv(S()) && t in threads
      ensures threads[t] == if payment.Some? then RefundLock(payment.value) else RefundDone(None)
      ensures env.Told? ==>
                payment == if !env.readFails && pid in rows && rows[pid].status.Success? then Some(rows[pid]) else None
      ensures payment.Some? ==> payment.value.id == pid
    {
      hide Reaches;
      ghost var s := S();
      var fails := Failing(env.Told? && env.readFails, env);
      payment := None;
      if !fails && pid in rows && rows[pid].status.Success? {
        payment := Some(rows[pid]);
      }
      threads := threads[t := if payment.Some? then RefundLock(payment.value) else RefundDone(None)];
      Advance(s0, s, ReadForRefund(t, fails));
    }

    /** The intermediate status that keeps other refunds out. */
    method TakeRefundLock(ghost s0: State, ghost t: nat, copy: Payment, now: int, env: Env) returns (locked: Option<Payment>)
      requires Reaches(s0, S()) && Inv(S()) && t in threads && threads[t] == RefundLock(copy)
      modifies this`rows, this`threads
      ensures Reaches(s0, S()) && Inv(S()) && t in threads
      ensures threads[t] == if locked.Some? then RefundCall(locked.value, 0) else RefundDone(None)
      ensures locked.Some? ==> locked.value == copy.(status := Refunding, updatedAt := now)
      ensures env.Told? && copy.id in old(rows) && old(rows)[copy.id] == copy ==>
                var p := copy.(status := Refunding, updatedAt := now);
                && locked == (if schemaHasRefunding && env.write.Applied? then Some(p) else None)
                && rows == if schemaHasRefunding && !env.write.NotApplied? then old(rows)[copy.id := p] else old(rows)
    {
      hide Reaches, RowsOk, KeysUnique, LedgerOk, OwnersUnique;
      ghost var s := S();
      assert ThreadOk(rows, ledger, threads[t]);
      hide Inv;
      var payment := copy.(status := Refunding, updatedAt := now);
      var ok, write := UpdatePaymentWithStatusCheck(payment, Success, env);
      locked := if ok then Some(payment) else None;
      threads := threads[t := if ok then RefundCall(payment, 0) else RefundDone(None)];
      Advance(s0, s, LockForRefund(t, write, now));
    }

    ghost function AfterRefund(payment: Payment, attempt: nat, reply: Reply): Thread {
      if reply.Accepted? then RefundMark(payment)
      else if reply.Declined? && attempt < MAX_ATTEMPTS then RefundCall(payment, attempt)
      else RefundRevert(payment)
    }

    /** retry.Do around the gateway's Refund. */
    method RefundWithRetry(ghost s0: State, ghost t: nat, payment: Payment, env: Env) returns (reply: Reply)
      requires Reaches(s0, S()) && Inv(S()) && t in threads && threads[t] == RefundCall(payment, 0)
      modifies this
      ensures Reaches(s0, S()) && Inv(S()) && t in threads
      ensures threads[t] == AfterRefund(payment, 3, reply)
      ensures env.Told? ==> (reply.Accepted? <==> env.declines < 3 && !env.interrupted)
      ensures env.Alone() ==> rows == old(rows)
      ensures env.Alone() ==> ledger == if reply.Accepted? then Refunded1(old(ledger), payment.ref) else old(ledger)
    {
      hide Reaches, Inv;
      var attempt := 0;
      reply := Declined;
      while attempt < MAX_ATTEMPTS && reply.Declined?
        invariant Reaches(s0, S()) && Inv(S()) && t in threads && attempt <= MAX_ATTEMPTS
        invariant threads[t] == AfterRefund(payment, attempt, reply)
        invariant env.Told? ==> if reply.Declined? then attempt <= env.declines
                                else attempt == env.declines + 1 && (reply.Interrupted? <==> env.interrupted)
        invariant env.Alone() ==> rows == old(rows)
        invariant env.Alone() ==> ledger == if reply.Accepted? then Refunded1(old(ledger), payment.ref) else old(ledger)
      {
        reply := TryRefund(s0, t, payment, attempt, env);
        attempt := attempt + 1;
        Interference(s0, t, env);
      }
    }

    method TryRefund(ghost s0: State, ghost t: nat, payment: Payment, attempt: nat, env: Env) returns (reply: Reply)
      requires Reaches(s0, S()) && Inv(S()) && t in threads && threads[t] == RefundCall(payment, attempt)
      modifies this`ledger, this`threads
      ensures Reaches(s0, S()) && Inv(S()) && t in threads
      ensures threads[t] == AfterRefund(payment, attempt + 1, reply)
      ensures env.Told? ==>
                && (reply.Declined? <==> attempt < env.declines)
                && (reply.Interrupted? <==> attempt >= env.declines && env.interrupted)
      ensures ledger == if reply.Accepted? then Refunded1(old(ledger), payment.ref) else old(ledger)
    {
      hide Reaches;
      ghost var s := S();
      reply := GatewayRefund(payment.ref, env, attempt);
      threads := threads[t := AfterRefund(payment, attempt + 1, reply)];
      Advance(s0, s, Refund(t, reply));
    }

    /** Success is given back after a refused refund; an accepted one is recorded,
        and reported even if recording it fails. */
    method FinishRefund(ghost s0: State, ghost t: nat, copy: Payment, reply: Reply, now: int, env: Env)
      returns (result: Option<Payment>)
      requires Reaches(s0, S()) && Inv(S()) && t in threads && threads[t] == AfterRefund(copy, 3, reply)
      modifies this`rows, this`threads
      ensures Reaches(s0, S()) && Inv(S()) && t in threads && threads[t] == RefundDone(result)
      ensures copy.id in old(rows) && old(rows)[copy.id] == copy
      ensures result == if reply.Accepted? then Some(copy.(status := Refunded, updatedAt := now)) else None
      ensures env.Told? ==>
                var last := copy.(status := if reply.Accepted? then Refunded else Success, updatedAt := now);
                rows == if env.finish.NotApplied? then old(rows) else old(rows)[copy.id := last]
    {
      hide Reaches, Inv;
      ghost var s := S();
      OwnedRow(s, t);
      var payment := copy.(status := if reply.Accepted? then Refunded else Success, updatedAt := now);
      UpdateSpelled(rows, payment);
      var write := UpdatePayment(payment, env);
      result := if reply.Accepted? then Some(payment) else None;
      threads := threads[t := RefundDone(result)];
      Advance(s0, s, if reply.Accepted? then MarkRefunded(t, write, now) else Revert(t, write, now));
    }
  }
}
