/** What the four use cases of the billing service promise a request that is alone,
    whatever fails, written out in terms of the table and the answer. */
module BillingContracts {
  import opened Wrappers
  import opened BillingMachine
  import opened BillingInvariant
  import Pricing

  /** Anything may happen; or the statements fail as told. Other requests may still
      interfere, unless this one is alone. */
  datatype Env =
    | Stormy
    | Told(alone: bool, keyFails: bool, readFails: bool, refetchFails: bool, write: Write)
  {
    predicate Alone() {
      Told? && alone
    }

    /** No statement fails. */
    predicate Works() {
      Told? && !keyFails && !readFails && !refetchFails && write.Applied?
    }
  }

  ghost predicate HasKey(rows: Rows, key: string) {
    exists id :: id in rows && rows[id].key == key
  }

  ghost predicate HasRecord(rows: Rows, r: string) {
    exists id :: id in rows && rows[id].reservationId == r
  }

  predicate InTable(rows: Rows, found: Option<Record>) {
    found.Some? && found.value.id in rows && rows[found.value.id] == found.value
  }

  /** Nothing changes; the answer is an error. */
  predicate Refused(rows: Rows, rows': Rows, result: Option<Record>) {
    rows' == rows && result.None?
  }

  /** The update that raises the version, where it takes effect and where it does not. */
  predicate Updated(rows: Rows, rows': Rows, r: Record, env: Env, result: Option<Record>)
    requires env.Told? && r.id in rows
  {
    var stored := r.(version := rows[r.id].version + 1);
    if env.write.NotApplied? then Refused(rows, rows', result)
    else rows' == rows[r.id := stored] && result == if env.write.Applied? then Some(stored) else None
  }

  /** StartBilling: what there is under the key, or for the reservation, is answered as
      it is; only where there is neither, a new pending record is made. */
  ghost predicate Starts(rows: Rows, rows': Rows, r: string, fee: int, key: string, now: int, env: Env, result: Option<Record>)
    requires env.Told?
  {
    if env.keyFails then Refused(rows, rows', result)
    else if HasKey(rows, key) then rows' == rows && InTable(rows, result) && result.value.key == key
    else if env.readFails then Refused(rows, rows', result)
    else if HasRecord(rows, r) then rows' == rows && InTable(rows, result) && result.value.reservationId == r
    else if env.write.NotApplied? then Refused(rows, rows', result)
    else exists id :: id !in rows && StartsAs(rows, rows', r, fee, key, now, env, id, result)
  }

  predicate StartsAs(rows: Rows, rows': Rows, r: string, fee: int, key: string, now: int, env: Env, id: nat, result: Option<Record>)
    requires env.Told?
  {
    var record := Record(id, r, fee, 0, 0, Pricing.AsInt64(fee), 0, 0, false, key, Pending, 0, now);
    rows' == rows[id := record] && result == if env.write.Applied? then Some(record) else None
  }

  /** CalculateFee: a pending record gets the fees of the stay; any other is refused. */
  predicate Calculates(rows: Rows, rows': Rows, id: nat, checkIn: int, checkOut: int, now: int, env: Env, result: Option<Record>)
    requires env.Told? && id in rows && rows[id].id == id
  {
    if env.readFails || !rows[id].status.Pending? then Refused(rows, rows', result)
    else
      var fee := Pricing.CalculateSessionFee(checkIn, checkOut);
      var changed := rows[id].(parkingFee := fee.parkingFee, overnightFee := fee.overnightFee,
                               durationMinutes := fee.durationMinutes, billedHours := fee.billedHours,
                               isOvernight := fee.isOvernight, status := Calculated, updatedAt := now,
                               totalAmount := Pricing.AsInt64(rows[id].bookingFee + fee.parkingFee + fee.overnightFee));
      Updated(rows, rows', changed, env, result)
  }

  /** GenerateInvoice: an invoiced record is answered as it is, a pending one refused. */
  predicate Invoices(rows: Rows, rows': Rows, id: nat, now: int, env: Env, result: Option<Record>)
    requires env.Told? && id in rows && rows[id].id == id
  {
    if env.readFails || rows[id].status.Pending? then Refused(rows, rows', result)
    else if rows[id].status.Invoiced? then rows' == rows && result == Some(rows[id])
    else Updated(rows, rows', rows[id].(status := Invoiced, updatedAt := now), env, result)
  }

  /** ApplyOvernightFee: the amount asked for, or the fee of one night if that is not
      positive; a record already marked overnight is answered as it is. */
  predicate AppliesOvernight(rows: Rows, rows': Rows, id: nat, amount: int, now: int, env: Env, result: Option<Record>)
    requires env.Told? && id in rows && rows[id].id == id
  {
    if env.readFails then Refused(rows, rows', result)
    else if rows[id].isOvernight then rows' == rows && result == Some(rows[id])
    else
      var fee := if amount > 0 then amount else 20_000;
      var changed := rows[id].(overnightFee := fee, isOvernight := true, updatedAt := now,
                               totalAmount := Pricing.AsInt64(rows[id].bookingFee + rows[id].parkingFee + fee));
      Updated(rows, rows', changed, env, result)
  }

  // ------------------------------------------------------------------
  // The machine's terms, spelled out
  // ------------------------------------------------------------------

  /** A request that changes its reservation's record, in the machine's terms. */
  ghost predicate Served(rows: Rows, rows': Rows, req: Request, now: int, env: Env, result: Option<Record>)
    requires env.Told?
  {
    var found := FindByReservation(rows, req.reservationId);
    if env.readFails || found.None? then Refused(rows, rows', result)
    else if AlreadyDone(req, found.value) then rows' == rows && result == found
    else if !Applies(req, found.value) || env.write.NotApplied? then Refused(rows, rows', result)
    else
      var m := Modified(req, found.value, now);
      rows' == rows[found.value.id := m] && result == if env.write.Applied? then Some(m) else None
  }

  lemma ServedSpelled(rows: Rows, rows': Rows, req: Request, now: int, env: Env, result: Option<Record>)
    requires Unique(rows) && (forall id :: id in rows ==> rows[id].id == id)
    requires env.Told? && Served(rows, rows', req, now, env, result)
    ensures !HasRecord(rows, req.reservationId) ==> Refused(rows, rows', result)
    ensures forall id :: id in rows && rows[id].reservationId == req.reservationId ==>
              && (req.CalculateFee? ==> Calculates(rows, rows', id, req.checkIn, req.checkOut, now, env, result))
              && (req.GenerateInvoice? ==> Invoices(rows, rows', id, now, env, result))
              && (req.ApplyOvernightFee? ==> AppliesOvernight(rows, rows', id, req.amount, now, env, result))
  {
    hide Served, Refused, Calculates, Invoices, AppliesOvernight, HasRecord;
    if !HasRecord(rows, req.reservationId) {
      NoRecordRefused(rows, rows', req, now, env, result);
    }
    forall id | id in rows && rows[id].reservationId == req.reservationId
      ensures req.CalculateFee? ==> Calculates(rows, rows', id, req.checkIn, req.checkOut, now, env, result)
      ensures req.GenerateInvoice? ==> Invoices(rows, rows', id, now, env, result)
      ensures req.ApplyOvernightFee? ==> AppliesOvernight(rows, rows', id, req.amount, now, env, result)
    {
      FoundIsUnique(rows, rows[id]);
      RecordServed(rows, rows', req, id, now, env, result);
    }
  }

  lemma NoRecordRefused(rows: Rows, rows': Rows, req: Request, now: int, env: Env, result: Option<Record>)
    requires env.Told? && Served(rows, rows', req, now, env, result) && !HasRecord(rows, req.reservationId)
    ensures Refused(rows, rows', result)
  {
    hide Modified, AlreadyDone, Applies;
    assert !ReservationTaken(rows, req.reservationId);
  }

  lemma RecordServed(rows: Rows, rows': Rows, req: Request, id: nat, now: int, env: Env, result: Option<Record>)
    requires env.Told? && id in rows && rows[id].id == id && FindByReservation(rows, req.reservationId) == Some(rows[id])
    requires Served(rows, rows', req, now, env, result)
    ensures req.CalculateFee? ==> Calculates(rows, rows', id, req.checkIn, req.checkOut, now, env, result)
    ensures req.GenerateInvoice? ==> Invoices(rows, rows', id, now, env, result)
    ensures req.ApplyOvernightFee? ==> AppliesOvernight(rows, rows', id, req.amount, now, env, result)
  {
    hide FindByReservation, Pricing.CalculateSessionFee, Pricing.AsInt64;
  }

  /** With unique columns a lookup answers with the row itself. */
  lemma LookupsSpelled(s: State, r: string, key: string)
    requires Inv(s)
    ensures KeyTaken(s.rows, key) <==> HasKey(s.rows, key)
    ensures ReservationTaken(s.rows, r) <==> HasRecord(s.rows, r)
    ensures FindByKey(s.rows, key).Some? <==> HasKey(s.rows, key)
    ensures FindByReservation(s.rows, r).Some? <==> HasRecord(s.rows, r)
    ensures FindByKey(s.rows, key).Some? ==> InTable(s.rows, FindByKey(s.rows, key))
    ensures FindByReservation(s.rows, r).Some? ==> InTable(s.rows, FindByReservation(s.rows, r))
  {
    hide Replay, ThreadsOk, RecordOk, HistoryOk;
  }
}
