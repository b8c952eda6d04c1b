/** What the two use cases of the payment service promise a request that is alone,
    whatever fails, written out in terms of the table, the ledger and the answer. */
module PaymentContracts {
  import opened Wrappers
  import opened PaymentMachine
  import opened PaymentInvariant

  /** Anything may happen; or the statements fail as told, and the gateway first declines
      some attempts and then accepts, or the request is cancelled at that point. `write`
      is the insert, or the update that locks a refund; `finish` the last update. Other
      requests may still interfere, unless this one is alone. */
  datatype Env =
    | Stormy
    | Told(alone: bool, lookupFails: bool, readFails: bool, refetchFails: bool, write: Write, finish: Write,
           declines: nat, interrupted: bool)
  {
    predicate Alone() {
      Told? && alone
    }

    /** No statement fails, and the request is not cancelled. */
    predicate Works() {
      Told? && !lookupFails && !refetchFails && write.Applied? && finish.Applied? && (declines >= 3 || !interrupted)
    }

    /** One of the three attempts is accepted. */
    predicate Accepts() {
      Told? && declines < 3 && !interrupted
    }
  }

  ghost predicate HasKey(rows: Rows, key: string) {
    exists id :: id in rows && rows[id].key == key
  }

  predicate Existing(rows: Rows, key: string, found: Option<Payment>) {
    found.Some? && found.value.id in rows && rows[found.value.id] == found.value && found.value.key == key
  }

  /** The new row `id`: paid with one new charge, or failed without one. It stays pending
      where the last update does not take effect, and then nobody is told; a cancelled
      request is never answered. */
  ghost predicate PaysAs(rows: Rows, ledger: Ledger, rows': Rows, ledger': Ledger,
                         req: PayRequest, now: int, env: Env, id: nat, ref: nat, result: Option<Payment>)
    requires env.Told?
  {
    var pending := Payment(id, req.billingId, req.amount, req.key, Pending, None, None, now);
    if env.write.ReplyLost? then rows' == rows[id := pending] && ledger' == ledger && result.None?
    else
      var last := if env.Accepts() then pending.(status := Success, ref := Some(ref), paidAt := Some(now))
                  else pending.(status := Failed);
      && rows' == rows[id := if env.finish.NotApplied? then pending else last]
      && ledger' == (if env.Accepts() then ledger[ref := Txn(id, req.amount, 0)] else ledger)
      && result == if env.finish.Applied? && (env.Accepts() || env.declines >= 3) then Some(last) else None
  }

  /** ProcessPayment. */
  ghost predicate Pays(rows: Rows, ledger: Ledger, rows': Rows, ledger': Ledger,
                       req: PayRequest, now: int, env: Env, result: Option<Payment>)
    requires env.Told?
  {
    if env.lookupFails then rows' == rows && ledger' == ledger && result.None?
    else if HasKey(rows, req.key) then rows' == rows && ledger' == ledger && Existing(rows, req.key, result)
    else if env.write.NotApplied? then rows' == rows && ledger' == ledger && result.None?
    else exists id, ref :: id !in rows && ref !in ledger && PaysAs(rows, ledger, rows', ledger', req, now, env, id, ref, result)
  }

  /** The paid row: refunded once at the gateway, or given its status back. It stays
      locked where the last update does not take effect; a refund is answered all the
      same. */
  ghost predicate RefundsRow(rows: Rows, ledger: Ledger, rows': Rows, ledger': Ledger,
                             pid: nat, now: int, env: Env, result: Option<Payment>)
    requires env.Told? && pid in rows
  {
    var locked := rows[pid].(status := Refunding, updatedAt := now);
    if env.write.ReplyLost? then rows' == rows[pid := locked] && ledger' == ledger && result.None?
    else
      var last := locked.(status := if env.Accepts() then Refunded else Success);
      && rows' == rows[pid := if env.finish.NotApplied? then locked else last]
      && result == (if env.Accepts() then Some(last) else None)
      && if env.Accepts() then
           && locked.ref.Some? && locked.ref.value in ledger && ledger[locked.ref.value].refunds == 0
           && ledger' == ledger[locked.ref.value := ledger[locked.ref.value].(refunds := 1)]
         else ledger' == ledger
  }

  /** RefundPayment. */
  ghost predicate Refunds(schemaHasRefunding: bool, rows: Rows, ledger: Ledger, rows': Rows, ledger': Ledger,
                          pid: nat, refundKey: string, now: int, env: Env, result: Option<Payment>)
    requires env.Told?
  {
    if refundKey != "" && env.lookupFails then rows' == rows && ledger' == ledger && result.None?
    else if refundKey != "" && HasKey(rows, refundKey) then rows' == rows && ledger' == ledger && Existing(rows, refundKey, result)
    else RefundsById(schemaHasRefunding, rows, ledger, rows', ledger', pid, now, env, result)
  }

  ghost predicate RefundsById(schemaHasRefunding: bool, rows: Rows, ledger: Ledger, rows': Rows, ledger': Ledger,
                              pid: nat, now: int, env: Env, result: Option<Payment>)
    requires env.Told?
  {
    if env.readFails || pid !in rows || !rows[pid].status.Success? || !schemaHasRefunding || env.write.NotApplied?
    then rows' == rows && ledger' == ledger && result.None?
    else RefundsRow(rows, ledger, rows', ledger', pid, now, env, result)
  }

  // ------------------------------------------------------------------
  // The machine's statements, spelled out
  // ------------------------------------------------------------------

  /** With unique keys a lookup has only one possible answer. */
  lemma FoundIsUnique(rows: map<nat, Payment>, key: string, found: Option<Payment>)
    requires KeysUnique(rows)
    requires found.Some? ==> found.value.key == key && exists id :: id in rows && rows[id] == found.value
    requires found.None? ==> !KeyTaken(rows, key)
    ensures FindByKey(rows, key) == found
  {
  }

  lemma FoundIsExisting(s: State, key: string)
    requires Inv(s)
    ensures FindByKey(s.rows, key).Some? <==> HasKey(s.rows, key)
    ensures FindByKey(s.rows, key).Some? ==> Existing(s.rows, key, FindByKey(s.rows, key))
  {
    hide RowMoney, LedgerOk, ThreadsOk, OwnersUnique;
    assert KeyTaken(s.rows, key) <==> HasKey(s.rows, key);
  }

  lemma UpdateSpelled(rows: Rows, p: Payment)
    requires p.id in rows && Written(rows[p.id], p) == p
    ensures UpdateRow(rows, p) == rows[p.id := p]
  {
  }

  /** A paid row carries its own charge, not yet refunded. */
  lemma PaidCharge(s: State, pid: nat)
    requires Inv(s) && pid in s.rows && s.rows[pid].status.Success?
    ensures var p := s.rows[pid];
            && p.id == pid && p.ref.Some? && p.ref.value in s.ledger && s.ledger[p.ref.value].refunds == 0
            && Refunded1(s.ledger, p.ref) == s.ledger[p.ref.value := s.ledger[p.ref.value].(refunds := 1)]
  {
    hide KeysUnique, LedgerOk, ThreadsOk, OwnersUnique;
    assert RowMoney(s.schemaHasRefunding, s.ledger, s.rows[pid]);
  }
}
