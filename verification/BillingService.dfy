/** The billing service in its own form: the repository's statements over a
    mutable table and the four use cases with their bounded retry loops, every
    statement of which is proved to be a step of the billing machine, whatever
    other requests do in between. What a request does when it is alone, whatever
    fails, is proved as well. */
module BillingService {
  import opened Wrappers
  import opened BillingMachine
  import opened BillingInvariant
  import opened BillingContracts
  import Pricing

  lemma Enter(s: State, t: nat, req: Request)
    requires t !in s.threads
    ensures Step(s, Begin(t, req)) == Goto(s, t, if req.StartBilling? then StartByKey(req) else ReadRecord(req, 0))
  {
  }

  lemma RowsAreKeyed(s: State)
    requires Inv(s)
    ensures Unique(s.rows) && forall id :: id in s.rows ==> s.rows[id].id == id
  {
  }

  /** What was read is the record of the request's reservation, and is to be changed. */
  ghost predicate Changeable(rows: Rows, req: Request, record: Record, env: Env)
    requires env.Told?
  {
    && !env.readFails && FindByReservation(rows, req.reservationId) == Some(record)
    && record.id in rows && rows[record.id] == record && Applies(req, record) && !AlreadyDone(req, record)
  }

  lemma IdentityStays(req: Request, base: Record, now: int)
    ensures var m := Modified(req, base, now);
            m.id == base.id && m.reservationId == base.reservationId && m.key == base.key
  {
  }

  /** The key is that of a record for another reservation, and there is none for this one. */
  ghost predicate KeyElsewhere(rows: Rows, r: string, key: string) {
    !HasRecord(rows, r) && exists id :: id in rows && rows[id].key == key && rows[id].reservationId != r
  }

  /** Records are never lost: what an insert conflicted with is still there. */
  lemma ConflictIsThere(s: State, t: nat)
    requires Inv(s) && t in s.threads && s.threads[t].StartRefetch?
    ensures var req := s.threads[t].req;
            req.StartBilling? && (!HasRecord(s.rows, req.reservationId) ==> KeyElsewhere(s.rows, req.reservationId, req.key))
  {
    hide RowsOk, Unique, Replay;
    assert ThreadOk(s.rows, s.threads[t]);
    var req := s.threads[t].req;
    assert ReservationTaken(s.rows, req.reservationId) <==> HasRecord(s.rows, req.reservationId);
    if !HasRecord(s.rows, req.reservationId) {
      var id :| id in s.rows && s.rows[id].key == req.key;
      assert s.rows[id].reservationId != req.reservationId;
    }
  }

  class Service {
    /** The billing_records table. */
    var rows: map<nat, Record>
    ghost var threads: map<nat, Thread>
    ghost var log: seq<Commit>

    ghost function S(): State
      reads this
    {
      State(rows, threads, log)
    }

    constructor ()
      ensures S() == INIT
    {
      rows, threads, log := map[], map[], [];
    }

    // ----------------------------------------------------------------
    // The repository
    // ----------------------------------------------------------------

    method GetByReservationID(r: string) returns (found: Option<Record>)
      requires Unique(rows)
      ensures found == FindByReservation(rows, r)
    {
      var todo := rows.Keys;
      while todo != {}
        invariant todo <= rows.Keys
        invariant forall id :: id in rows && id !in todo ==> rows[id].reservationId != r
      {
        var id :| id in todo;
        if rows[id].reservationId == r {
          FoundIsUnique(rows, rows[id]);
          return Some(rows[id]);
        }
        todo := todo - {id};
      }
      return None;
    }

    method GetByIdempotencyKey(key: string) returns (found: Option<Record>)
      requires Unique(rows)
      ensures found == FindByKey(rows, key)
    {
      var todo := rows.Keys;
      while todo != {}
        invariant todo <= rows.Keys
        invariant forall id :: id in rows && id !in todo ==> rows[id].key != key
      {
        var id :| id in todo;
        if rows[id].key == key {
          FoundIsUnique(rows, rows[id]);
          return Some(rows[id]);
        }
        todo := todo - {id};
      }
      return None;
    }

    /** INSERT under two unique columns. */
    method CreateBillingRecord(r: Record, env: Env) returns (conflict: bool, write: Write)
      requires r.id !in rows && Unique(rows)
      modifies this`rows
      ensures conflict <==> KeyTaken(old(rows), r.key) || ReservationTaken(old(rows), r.reservationId)
      ensures rows == if write.TakesEffect() && !conflict then old(rows)[r.id := r] else old(rows)
      ensures env.Told? ==> write == env.write
    {
      write := *;
      if env.Told? {
        write := env.write;
      }
      var byKey := GetByIdempotencyKey(r.key);
      var byReservation := GetByReservationID(r.reservationId);
      conflict := byKey.Some? || byReservation.Some?;
      if write.TakesEffect() && !conflict {
        rows := rows[r.id := r];
      }
    }

    /** UPDATE under the version check. On success the in-memory version has been
        raised; on any failure it is set back. */
    method UpdateBillingRecord(record: Record, env: Env) returns (stored: Record, hit: bool, write: Write)
      modifies this`rows
      ensures hit <==> record.id in old(rows) && old(rows)[record.id].version == record.version
      ensures rows == if write.TakesEffect() && hit
                      then old(rows)[record.id := Written(old(rows)[record.id], record.(version := record.version + 1))]
                      else old(rows)
      ensures stored == if write.Applied? && hit then record.(version := record.version + 1) else record
      ensures env.Told? ==> write == env.write
    {
      write := *;
      if env.Told? {
        write := env.write;
      }
      stored := record.(version := record.version + 1);
      hit := record.id in rows && rows[record.id].version == record.version;
      if write.TakesEffect() && hit {
        var row := rows[record.id];
        rows := rows[record.id := stored.(reservationId := row.reservationId, key := row.key)];
      }
      if !write.Applied? || !hit {
        stored := stored.(version := record.version);
      }
    }

    method NewId() returns (id: nat)
      ensures id !in rows
    {
      id := 0;
      var todo := rows.Keys;
      while todo != {}
        invariant todo <= rows.Keys
        invariant forall i :: i in rows && i !in todo ==> i < id
      {
        var i :| i in todo;
        id := if i < id then id else i + 1;
        todo := todo - {i};
      }
    }

    /** Whether a read fails. */
    method Failing(told: bool, env: Env) returns (fails: bool)
      ensures env.Told? ==> fails == told
    {
      fails := *;
      if env.Told? {
        fails := told;
      }
    }

    // ----------------------------------------------------------------
    // Other requests
    // ----------------------------------------------------------------

    /** Anything other requests may do meanwhile, unless this one is alone; callers know
        only the contract. */
    method Interference(ghost s0: State, ghost t: nat, env: Env)
      requires Reaches(s0, S()) && t in threads && Inv(S())
      modifies this
      ensures Reaches(s0, S()) && t in threads && threads[t] == old(threads[t]) && Inv(S())
      ensures env.Alone() ==> S() == old(S())
    {
    }

    /** This request's own statement was a step of the machine. */
    ghost method Advance(s0: State, s: State, a: Action)
      requires Reaches(s0, s) && Inv(s) && S() == Step(s, a)
      ensures Reaches(s0, S()) && Inv(S())
    {
      ReachesStep(s0, s, a);
      StepInv(s, a);
    }

    method BeginRequest(ghost t: nat, req: Request, env: Env)
      requires Inv(S()) && t !in threads
      modifies this
      ensures Reaches(old(S()), S()) && Inv(S()) && t in threads
      ensures threads[t] == if req.StartBilling? then StartByKey(req) else ReadRecord(req, 0)
      ensures env.Alone() ==> rows == old(rows)
    {
      ghost var s0 := S();
      assert Run(s0, []) == s0;
      Enter(s0, t, req);
      threads := threads[t := if req.StartBilling? then StartByKey(req) else ReadRecord(req, 0)];
      Advance(s0, s0, Begin(t, req));
      Interference(s0, t, env);
    }

    // ----------------------------------------------------------------
    // StartBilling
    // ----------------------------------------------------------------

    method StartBilling(ghost t: nat, req: Request, now: int, env: Env) returns (result: Option<Record>)
      requires Inv(S()) && t !in threads && req.StartBilling?
      modifies this
      ensures Reaches(old(S()), S()) && Inv(S())
      ensures t in threads && threads[t] == Done(req, result)
      ensures env.Alone() ==>
                Starts(old(rows), rows, req.reservationId, req.bookingFee, req.key, now, env, result)
      ensures env.Works() && result.None? ==> KeyElsewhere(rows, req.reservationId, req.key)
    {
      hide Reaches, Inv, Step, HasKey, HasRecord, KeyElsewhere;
      ghost var s0 := S();
      BeginRequest(t, req, env);
      var stop;
      stop, result := CheckKey(s0, t, req, env);
      if stop {
        return;
      }
      Interference(s0, t, env);
      stop, result := CheckReservation(s0, t, req, env);
      if stop {
        return;
      }
      Interference(s0, t, env);
      var refetch;
      refetch, result := TryInsert(s0, t, req, now, env);
      if !refetch {
        return;
      }
      Interference(s0, t, env);
      result := FetchAfterConflict(s0, t, req, env);
    }

    method CheckKey(ghost s0: State, ghost t: nat, req: Request, env: Env) returns (stop: bool, result: Option<Record>)
      requires Reaches(s0, S()) && Inv(S()) && req.StartBilling? && t in threads && threads[t] == StartByKey(req)
      modifies this`threads
      ensures Reaches(s0, S()) && Inv(S()) && t in threads
      ensures threads[t] == if stop then Done(req, result) else StartByReservation(req)
      ensures env.Told? ==>
                && stop == (env.keyFails || HasKey(rows, req.key))
                && (result.Some? <==> !env.keyFails && HasKey(rows, req.key))
      ensures result.Some? ==> InTable(rows, result) && result.value.key == req.key
      ensures !stop ==> !HasKey(rows, req.key)
    {
      hide Reaches, HasKey, HasRecord, InTable;
      ghost var s := S();
      LookupsSpelled(s, req.reservationId, req.key);
      var fails := Failing(env.Told? && env.keyFails, env);
      result := None;
      if !fails {
        result := GetByIdempotencyKey(req.key);
      }
      stop := fails || result.Some?;
      threads := threads[t := if stop then Done(req, result) else StartByReservation(req)];
      Advance(s0, s, LookupKey(t, fails));
    }

    method CheckReservation(ghost s0: State, ghost t: nat, req: Request, env: Env) returns (stop: bool, result: Option<Record>)
      requires Reaches(s0, S()) && Inv(S()) && t in threads && threads[t] == StartByReservation(req)
      modifies this`threads
      ensures Reaches(s0, S()) && Inv(S()) && t in threads
      ensures threads[t] == if stop then Done(req, result) else StartInsert(req)
      ensures env.Told? ==>
                && stop == (env.readFails || HasRecord(rows, req.reservationId))
                && (result.Some? <==> !env.readFails && HasRecord(rows, req.reservationId))
      ensures result.Some? ==> InTable(rows, result) && result.value.reservationId == req.reservationId
      ensures !stop ==> !HasRecord(rows, req.reservationId)
    {
      hide Reaches, HasKey, HasRecord, InTable;
      ghost var s := S();
      LookupsSpelled(s, req.reservationId, "");
      var fails := Failing(env.Told? && env.readFails, env);
      result := None;
      if !fails {
        result := GetByReservationID(req.reservationId);
      }
      stop := fails || result.Some?;
      threads := threads[t := if stop then Done(req, result) else StartInsert(req)];
      Advance(s0, s, LookupReservation(t, fails));
    }

    method TryInsert(ghost s0: State, ghost t: nat, req: Request, now: int, env: Env)
      returns (refetch: bool, result: Option<Record>)
      requires Reaches(s0, S()) && Inv(S()) && req.StartBilling? && t in threads && threads[t] == StartInsert(req)
      modifies this
      ensures Reaches(s0, S()) && Inv(S()) && t in threads
      ensures threads[t] == if refetch then StartRefetch(req) else Done(req, result)
      ensures env.Told? && !HasKey(old(rows), req.key) && !HasRecord(old(rows), req.reservationId) ==>
                && !refetch
                && if env.write.NotApplied? then Refused(old(rows), rows, result)
                   else exists id :: id !in old(rows)
                          && StartsAs(old(rows), rows, req.reservationId, req.bookingFee, req.key, now, env, id, result)
      ensures env.Told? && env.write.Applied? && (HasKey(old(rows), req.key) || HasRecord(old(rows), req.reservationId)) ==>
                refetch && rows == old(rows)
      ensures env.Told? && env.write.Applied? ==> refetch || result.Some?
    {
      hide Reaches, HasKey, HasRecord;
      ghost var s := S();
      LookupsSpelled(s, req.reservationId, req.key);
      var id := NewId();
      var record := Record(id, req.reservationId, req.bookingFee, 0, 0, Pricing.CalculateTotal(req.bookingFee, 0, 0),
                           0, 0, false, req.key, Pending, 0, now);
      var conflict, write := CreateBillingRecord(record, env);
      refetch := conflict && write.Applied?;
      result := if !conflict && write.Applied? then Some(record) else None;
      threads := threads[t := if refetch then StartRefetch(req) else Done(req, result)];
      if write.TakesEffect() && !conflict {
        log := log + [Commit(req, id, now)];
      }
      Advance(s0, s, Insert(t, id, write, now));
      if env.Told? && !conflict && !write.NotApplied? {
        assert StartsAs(s.rows, rows, req.reservationId, req.bookingFee, req.key, now, env, id, result);
      }
    }

    method FetchAfterConflict(ghost s0: State, ghost t: nat, req: Request, env: Env) returns (result: Option<Record>)
      requires Reaches(s0, S()) && Inv(S()) && t in threads && threads[t] == StartRefetch(req)
      modifies this`threads
      ensures Reaches(s0, S()) && Inv(S()) && t in threads && threads[t] == Done(req, result)
      ensures env.Told? ==> (result.Some? <==> !env.refetchFails && HasRecord(rows, req.reservationId))
      ensures result.Some? ==> InTable(rows, result) && result.value.reservationId == req.reservationId
      ensures !HasRecord(rows, req.reservationId) ==> KeyElsewhere(rows, req.reservationId, req.key)
    {
      hide Reaches, HasKey, HasRecord, InTable;
      ghost var s := S();
      LookupsSpelled(s, req.reservationId, "");
      ConflictIsThere(s, t);
      var fails := Failing(env.Told? && env.refetchFails, env);
      result := None;
      if !fails {
        result := GetByReservationID(req.reservationId);
      }
      threads := threads[t := Done(req, result)];
      Advance(s0, s, Refetch(t, fails));
    }

    // ----------------------------------------------------------------
    // CalculateFee, GenerateInvoice, ApplyOvernightFee
    // ----------------------------------------------------------------

    method CalculateFee(ghost t: nat, req: Request, now: int, env: Env) returns (result: Option<Record>)
      requires Inv(S()) && t !in threads && req.CalculateFee?
      modifies this
      ensures Reaches(old(S()), S()) && Inv(S())
      ensures t in threads && threads[t] == Done(req, result)
      ensures env.Alone() && !HasRecord(old(rows), req.reservationId) ==> Refused(old(rows), rows, result)
      ensures env.Alone() ==>
                forall id :: id in old(rows) && old(rows)[id].reservationId == req.reservationId ==>
                  Calculates(old(rows), rows, id, req.checkIn, req.checkOut, now, env, result)
    {
      hide Reaches, Inv, Step, HasRecord, Served, Refused, Calculates, Invoices, AppliesOvernight, FindByReservation,
           Pricing.CalculateSessionFee, Pricing.CalculateTotal;
      ghost var s0 := S();
      RowsAreKeyed(s0);
      BeginRequest(t, req, env);
      var attempt := 0;
      while true
        invariant Reaches(s0, S()) && Inv(S()) && t in threads && threads[t] == ReadRecord(req, attempt)
        invariant attempt <= MAX_RETRIES
        invariant env.Alone() ==> rows == old(rows) && attempt == 0
        decreases MAX_RETRIES - attempt
      {
        var again;
        again, result := CalculateOnce(s0, t, req, attempt, now, env);
        if !again {
          if env.Alone() {
            ServedSpelled(s0.rows, rows, req, now, env, result);
          }
          return;
        }
        attempt := attempt + 1;
        Interference(s0, t, env);
      }
    }

    /** One attempt: read the pending record, price the stay, write back. */
    method CalculateOnce(ghost s0: State, ghost t: nat, req: Request, attempt: nat, now: int, env: Env)
      returns (again: bool, result: Option<Record>)
      requires Reaches(s0, S()) && Inv(S()) && req.CalculateFee? && t in threads && threads[t] == ReadRecord(req, attempt)
      modifies this
      ensures Reaches(s0, S()) && Inv(S()) && t in threads
      ensures threads[t] == if again then ReadRecord(req, attempt + 1) else Done(req, result)
      ensures again ==> attempt < 2
      ensures env.Alone() ==> !again && Served(old(rows), rows, req, now, env, result)
    {
      hide Reaches, Inv, Served, FindByReservation, Pricing.CalculateSessionFee, Pricing.CalculateTotal;
      var stop, record;
      again := false;
      stop, result, record := ReadOne(s0, t, req, attempt, now, env);
      if stop {
        return;
      }
      Interference(s0, t, env);
      var fee := Pricing.CalculateSessionFee(req.checkIn, req.checkOut);
      var changed := record.(
        parkingFee := fee.parkingFee, overnightFee := fee.overnightFee,
        durationMinutes := fee.durationMinutes, billedHours := fee.billedHours, isOvernight := fee.isOvernight,
        totalAmount := Pricing.CalculateTotal(record.bookingFee, fee.parkingFee, fee.overnightFee),
        status := Calculated, updatedAt := now);
      again, result := WriteOne(s0, t, req, attempt, record, changed, now, env);
    }

    method GenerateInvoice(ghost t: nat, req: Request, now: int, env: Env) returns (result: Option<Record>)
      requires Inv(S()) && t !in threads && req.GenerateInvoice?
      modifies this
      ensures Reaches(old(S()), S()) && Inv(S())
      ensures t in threads && threads[t] == Done(req, result)
      ensures env.Alone() && !HasRecord(old(rows), req.reservationId) ==> Refused(old(rows), rows, result)
      ensures env.Alone() ==>
                forall id :: id in old(rows) && old(rows)[id].reservationId == req.reservationId ==>
                  Invoices(old(rows), rows, id, now, env, result)
    {
      hide Reaches, Inv, Step, HasRecord, Served, Refused, Calculates, Invoices, AppliesOvernight, FindByReservation,
           Pricing.CalculateSessionFee, Pricing.CalculateTotal;
      ghost var s0 := S();
      RowsAreKeyed(s0);
      BeginRequest(t, req, env);
      var stop, again, record;
      stop, result, record := ReadOne(s0, t, req, 0, now, env);
      if stop {
        if env.Alone() {
          ServedSpelled(s0.rows, rows, req, now, env, result);
        }
        return;
      }
      Interference(s0, t, env);
      var changed := record.(status := Invoiced, updatedAt := now);
      again, result := WriteOne(s0, t, req, 0, record, changed, now, env);
      if env.Alone() {
        ServedSpelled(s0.rows, rows, req, now, env, result);
      }
    }

    method ApplyOvernightFee(ghost t: nat, req: Request, now: int, env: Env) returns (result: Option<Record>)
      requires Inv(S()) && t !in threads && req.ApplyOvernightFee?
      modifies this
      ensures Reaches(old(S()), S()) && Inv(S())
      ensures t in threads && threads[t] == Done(req, result)
      ensures env.Alone() && !HasRecord(old(rows), req.reservationId) ==> Refused(old(rows), rows, result)
      ensures env.Alone() ==>
                forall id :: id in old(rows) && old(rows)[id].reservationId == req.reservationId ==>
                  AppliesOvernight(old(rows), rows, id, req.amount, now, env, result)
    {
      hide Reaches, Inv, Step, HasRecord, Served, Refused, Calculates, Invoices, AppliesOvernight, FindByReservation,
           Pricing.CalculateSessionFee, Pricing.CalculateTotal;
      ghost var s0 := S();
      RowsAreKeyed(s0);
      BeginRequest(t, req, env);
      var attempt := 0;
      while true
        invariant Reaches(s0, S()) && Inv(S()) && t in threads && threads[t] == ReadRecord(req, attempt)
        invariant attempt <= MAX_RETRIES
        invariant env.Alone() ==> rows == old(rows) && attempt == 0
        decreases MAX_RETRIES - attempt
      {
        var again;
        again, result := ApplyOnce(s0, t, req, attempt, now, env);
        if !again {
          if env.Alone() {
            ServedSpelled(s0.rows, rows, req, now, env, result);
          }
          return;
        }
        attempt := attempt + 1;
        Interference(s0, t, env);
      }
    }

    /** One attempt: read the record, set the overnight fee, write back. */
    method ApplyOnce(ghost s0: State, ghost t: nat, req: Request, attempt: nat, now: int, env: Env)
      returns (again: bool, result: Option<Record>)
      requires Reaches(s0, S()) && Inv(S()) && req.ApplyOvernightFee? && t in threads && threads[t] == ReadRecord(req, attempt)
      modifies this
      ensures Reaches(s0, S()) && Inv(S()) && t in threads
      ensures threads[t] == if again then ReadRecord(req, attempt + 1) else Done(req, result)
      ensures again ==> attempt < 2
      ensures env.Alone() ==> !again && Served(old(rows), rows, req, now, env, result)
    {
      hide Reaches, Inv, Served, FindByReservation, Pricing.CalculateSessionFee, Pricing.CalculateTotal;
      var stop, record;
      again := false;
      stop, result, record := ReadOne(s0, t, req, attempt, now, env);
      if stop {
        return;
      }
      Interference(s0, t, env);
      var overnightFee := req.amount;
      if overnightFee <= 0 {
        overnightFee := Pricing.OVERNIGHT_PER_NIGHT;
      }
      var changed := record.(
        overnightFee := overnightFee, isOvernight := true,
        totalAmount := Pricing.CalculateTotal(record.bookingFee, record.parkingFee, overnightFee), updatedAt := now);
      again, result := WriteOne(s0, t, req, attempt, record, changed, now, env);
    }

    /** GetByReservationID and the guard on what was read. */
    method ReadOne(ghost s0: State, ghost t: nat, req: Request, ghost attempt: nat, ghost now: int, env: Env)
      returns (stop: bool, result: Option<Record>, record: Record)
      requires Reaches(s0, S()) && Inv(S()) && t in threads && threads[t] == ReadRecord(req, attempt)
      modifies this`threads
      ensures Reaches(s0, S()) && Inv(S()) && t in threads
      ensures threads[t] == if stop then Done(req, result) else WriteBack(req, attempt, record)
      ensures env.Told? && stop ==> Served(rows, rows, req, now, env, result)
      ensures env.Told? && !stop ==> Changeable(rows, req, record, env)
    {
      hide Reaches, FindByReservation, Modified;
      ghost var s := S();
      LookupsSpelled(s, req.reservationId, "");
      var fails := Failing(env.Told? && env.readFails, env);
      var found := GetByReservationID(req.reservationId);
      record := if found.Some? then found.value
                else Record(0, "", 0, 0, 0, 0, 0, 0, false, "", Pending, 0, 0);
      result := if !fails && found.Some? && AlreadyDone(req, record) then found else None;
      stop := fails || found.None? || AlreadyDone(req, record) || !Applies(req, record);
      threads := threads[t := if stop then Done(req, result) else WriteBack(req, attempt, record)];
      Advance(s0, s, Read(t, fails));
    }

    /** The version-checked write, and whether to read again: only if the version did not
        match, and at most twice. */
    method WriteOne(ghost s0: State, ghost t: nat, req: Request, attempt: nat, ghost base: Record, changed: Record, now: int, env: Env)
      returns (again: bool, result: Option<Record>)
      requires Reaches(s0, S()) && Inv(S()) && t in threads && threads[t] == WriteBack(req, attempt, base)
      requires changed.id == base.id && changed.version == base.version
      requires changed.(version := base.version + 1) == Modified(req, base, now)
      modifies this
      ensures Reaches(s0, S()) && Inv(S()) && t in threads
      ensures again ==> attempt < 2 && !req.GenerateInvoice?
      ensures threads[t] == if again then ReadRecord(req, attempt + 1) else Done(req, result)
      ensures env.Told? ==>
                var hit := base.id in old(rows) && old(rows)[base.id].version == base.version;
                && again == (env.write.Applied? && !hit && attempt < 2 && !req.GenerateInvoice?)
                && (result.Some? <==> env.write.Applied? && hit)
      ensures env.Told? && Changeable(old(rows), req, base, env) ==> Served(old(rows), rows, req, now, env, result)
    {
      hide Reaches, Inv, Modified, FindByReservation, Applies, AlreadyDone;
      ghost var s := S();
      IdentityStays(req, base, now);
      var stored, hit, write := UpdateBillingRecord(changed, env);
      again := write.Applied? && !hit && Retries(req, attempt);
      result := if write.Applied? && hit then Some(stored) else None;
      threads := threads[t := if again then ReadRecord(req, attempt + 1) else Done(req, result)];
      if write.TakesEffect() && hit {
        log := log + [Commit(req, changed.id, now)];
      }
      Advance(s0, s, Update(t, write, now));
    }
  }
}
