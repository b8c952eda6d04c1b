/** The table of the billing service is, in every reachable state, the result of
    running the committed requests one after the other, each atomically. */
module BillingInvariant {
  import opened Wrappers
  import opened BillingMachine
  import Pricing

  // ------------------------------------------------------------------
  // The atomic specification
  // ------------------------------------------------------------------

  /** A whole request, from first read to last write, run alone on the table. */
  ghost function Atomic(rows: Rows, c: Commit): Rows {
    var found := FindByReservation(rows, c.req.reservationId);
    if c.req.StartBilling? then
      if KeyTaken(rows, c.req.key) || found.Some? || c.id in rows then rows
      else rows[c.id := NewRecord(c.req, c.id, c.now)]
    else if found.None? || !Applies(c.req, found.value) then rows
    else rows[found.value.id := Modified(c.req, found.value, c.now)]
  }

  ghost function Replay(log: seq<Commit>): Rows {
    if log == [] then map[] else Atomic(Replay(log[..|log| - 1]), log[|log| - 1])
  }

  /** Commits of one kind for one reservation. */
  function CountCommits(log: seq<Commit>, r: string, kind: Request -> bool): nat {
    if log == [] then 0
    else
      var c := log[|log| - 1];
      CountCommits(log[..|log| - 1], r, kind) + if c.req.reservationId == r && kind(c.req) then 1 else 0
  }

  const ANY_KIND := (req: Request) => true
  const STARTS := (req: Request) => req.StartBilling?
  const CALCULATIONS := (req: Request) => req.CalculateFee?
  const INVOICES := (req: Request) => req.GenerateInvoice?

  // ------------------------------------------------------------------
  // The invariant
  // ------------------------------------------------------------------

  predicate RecordOk(r: Record) {
    && r.totalAmount == Pricing.CalculateTotal(r.bookingFee, r.parkingFee, r.overnightFee)
    && (r.isOvernight <==> r.overnightFee > 0)
    && r.parkingFee >= 0 && r.overnightFee >= 0
    && (r.status.Pending? ==> r.parkingFee == 0)
  }

  /** What the history says about a record. */
  predicate HistoryOk(log: seq<Commit>, r: Record) {
    && CountCommits(log, r.reservationId, ANY_KIND) == r.version + 1
    && CountCommits(log, r.reservationId, STARTS) == 1
    && CountCommits(log, r.reservationId, CALCULATIONS) == (if r.status.Pending? then 0 else 1)
    && CountCommits(log, r.reservationId, INVOICES) == (if r.status.Invoiced? then 1 else 0)
  }

  ghost predicate RowsOk(rows: Rows, log: seq<Commit>) {
    && (forall id :: id in rows ==> rows[id].id == id && RecordOk(rows[id]) && HistoryOk(log, rows[id]))
    && (forall r: string :: !ReservationTaken(rows, r) ==> CountCommits(log, r, ANY_KIND) == 0)
  }

  predicate Unique(rows: Rows) {
    && (forall i, j :: i in rows && j in rows && rows[i].reservationId == rows[j].reservationId ==> i == j)
    && (forall i, j :: i in rows && j in rows && rows[i].key == rows[j].key ==> i == j)
  }

  /** A copy is an old version of its row, and the row itself if versions agree. */
  predicate IsVersionOf(rows: Rows, copy: Record) {
    && copy.id in rows
    && copy.reservationId == rows[copy.id].reservationId
    && copy.version <= rows[copy.id].version
    && (copy.version == rows[copy.id].version ==> copy == rows[copy.id])
  }

  predicate ThreadOk(rows: Rows, th: Thread) {
    match th
    case StartByKey(req) => req.StartBilling?
    case StartByReservation(req) => req.StartBilling?
    case StartInsert(req) => req.StartBilling?
    case StartRefetch(req) => req.StartBilling? && (KeyTaken(rows, req.key) || ReservationTaken(rows, req.reservationId))
    case ReadRecord(req, attempt) => !req.StartBilling? && attempt <= MAX_RETRIES
    case WriteBack(req, attempt, base) =>
      && attempt <= MAX_RETRIES
      && IsVersionOf(rows, base) && base.reservationId == req.reservationId && Applies(req, base)
    case Done(req, Some(r)) => IsVersionOf(rows, r)
    case _ => true
  }

  predicate ThreadsOk(rows: Rows, threads: map<nat, Thread>) {
    forall t :: t in threads ==> ThreadOk(rows, threads[t])
  }

  ghost predicate Inv(s: State) {
    && RowsOk(s.rows, s.log)
    && Unique(s.rows)
    && ThreadsOk(s.rows, s.threads)
    && s.rows == Replay(s.log)
  }

  // ------------------------------------------------------------------
  // Steps that do not write
  // ------------------------------------------------------------------

  lemma MoveInv(s: State, t: nat, th: Thread)
    requires Inv(s) && ThreadOk(s.rows, th)
    ensures Inv(Goto(s, t, th))
  {
  }

  lemma FoundIsUnique(rows: Rows, found: Record)
    requires Unique(rows) && exists id :: id in rows && rows[id] == found
    ensures FindByReservation(rows, found.reservationId) == Some(found)
    ensures FindByKey(rows, found.key) == Some(found)
  {
  }

  lemma FoundIsVersion(rows: Rows, log: seq<Commit>, found: Record)
    requires RowsOk(rows, log) && exists id :: id in rows && rows[id] == found
    ensures IsVersionOf(rows, found)
  {
  }

  lemma DoneFoundInv(s: State, t: nat, req: Request, found: Option<Record>)
    requires Inv(s)
    requires found.Some? ==> exists id :: id in s.rows && s.rows[id] == found.value
    ensures Inv(Goto(s, t, Done(req, found)))
  {
    if found.Some? {
      FoundIsVersion(s.rows, s.log, found.value);
    }
    MoveInv(s, t, Done(req, found));
  }

  // ------------------------------------------------------------------
  // Steps that write
  // ------------------------------------------------------------------

  lemma CountSnoc(log: seq<Commit>, c: Commit, r: string, kind: Request -> bool)
    ensures CountCommits(log + [c], r, kind)
            == CountCommits(log, r, kind) + if c.req.reservationId == r && kind(c.req) then 1 else 0
  {
    assert (log + [c])[..|log|] == log;
  }

  lemma ReplaySnoc(log: seq<Commit>, c: Commit)
    ensures Replay(log + [c]) == Atomic(Replay(log), c)
  {
    assert (log + [c])[..|log|] == log;
  }

  lemma CountZero(log: seq<Commit>, r: string, kind: Request -> bool)
    requires CountCommits(log, r, ANY_KIND) == 0
    ensures CountCommits(log, r, kind) == 0
  {
  }

  /** One more commit for reservation r leaves every other record's history alone. */
  lemma HistoryFrame(log: seq<Commit>, c: Commit, r: Record)
    requires HistoryOk(log, r) && c.req.reservationId != r.reservationId
    ensures HistoryOk(log + [c], r)
  {
    CountSnoc(log, c, r.reservationId, ANY_KIND);
    CountSnoc(log, c, r.reservationId, STARTS);
    CountSnoc(log, c, r.reservationId, CALCULATIONS);
    CountSnoc(log, c, r.reservationId, INVOICES);
  }

  lemma NewHistory(log: seq<Commit>, c: Commit, r: Record)
    requires CountCommits(log, r.reservationId, ANY_KIND) == 0
    requires c.req.StartBilling? && c.req.reservationId == r.reservationId && r.version == 0 && r.status.Pending?
    ensures HistoryOk(log + [c], r)
  {
    CountZero(log, r.reservationId, STARTS);
    CountZero(log, r.reservationId, CALCULATIONS);
    CountZero(log, r.reservationId, INVOICES);
    CountSnoc(log, c, r.reservationId, ANY_KIND);
    CountSnoc(log, c, r.reservationId, STARTS);
    CountSnoc(log, c, r.reservationId, CALCULATIONS);
    CountSnoc(log, c, r.reservationId, INVOICES);
  }

  lemma ModifiedOk(log: seq<Commit>, req: Request, r: Record, id: nat, now: int)
    requires RecordOk(r) && HistoryOk(log, r) && Applies(req, r) && req.reservationId == r.reservationId
    ensures RecordOk(Modified(req, r, now)) && HistoryOk(log + [Commit(req, id, now)], Modified(req, r, now))
  {
    var c := Commit(req, id, now);
    CountSnoc(log, c, r.reservationId, ANY_KIND);
    CountSnoc(log, c, r.reservationId, STARTS);
    CountSnoc(log, c, r.reservationId, CALCULATIONS);
    CountSnoc(log, c, r.reservationId, INVOICES);
  }

  /** Other requests' copies stay old versions when a row moves one version up. */
  lemma OtherThreads(rows: Rows, id: nat, r: Record, th: Thread)
    requires ThreadOk(rows, th)
    requires id in rows ==> r.version == rows[id].version + 1 && r.reservationId == rows[id].reservationId && r.key == rows[id].key
    ensures ThreadOk(rows[id := r], th)
  {
    if th.StartRefetch? {
      assert forall i :: i in rows ==>
               i in rows[id := r] && rows[id := r][i].key == rows[i].key && rows[id := r][i].reservationId == rows[i].reservationId;
    }
  }

  /** A new row, or the next version of an existing one. */
  predicate Fits(rows: Rows, id: nat, r: Record) {
    && r.id == id
    && (id in rows ==> r.version == rows[id].version + 1
                       && r.reservationId == rows[id].reservationId && r.key == rows[id].key)
    && (id !in rows ==> !ReservationTaken(rows, r.reservationId) && !KeyTaken(rows, r.key))
  }

  lemma CommitUnique(rows: Rows, id: nat, r: Record)
    requires Unique(rows) && Fits(rows, id, r)
    ensures Unique(rows[id := r])
  {
  }

  lemma CommitRows(rows: Rows, log: seq<Commit>, id: nat, r: Record, c: Commit)
    requires RowsOk(rows, log) && Unique(rows) && Fits(rows, id, r)
    requires RecordOk(r) && HistoryOk(log + [c], r) && c.req.reservationId == r.reservationId
    ensures RowsOk(rows[id := r], log + [c])
  {
    var rows', log' := rows[id := r], log + [c];
    forall i | i in rows'
      ensures rows'[i].id == i && RecordOk(rows'[i]) && HistoryOk(log', rows'[i])
    {
      if i != id {
        assert rows[i].reservationId != r.reservationId;
        HistoryFrame(log, c, rows[i]);
      }
    }
    forall q: string | !ReservationTaken(rows', q)
      ensures CountCommits(log', q, ANY_KIND) == 0
    {
      assert rows'[id].reservationId == r.reservationId;
      assert !ReservationTaken(rows, q) by {
        assert forall i :: i in rows ==> i in rows' && rows'[i].reservationId == rows[i].reservationId;
      }
      CountSnoc(log, c, q, ANY_KIND);
    }
  }

  /** The table after one commit, in all its parts. */
  lemma CommitInv(s: State, t: nat, id: nat, r: Record, c: Commit, th: Thread)
    requires Inv(s) && Fits(s.rows, id, r)
    requires RecordOk(r) && HistoryOk(s.log + [c], r) && c.req.reservationId == r.reservationId
    requires Atomic(s.rows, c) == s.rows[id := r]
    requires ThreadOk(s.rows[id := r], th)
    ensures Inv(Goto(s.(rows := s.rows[id := r], log := s.log + [c]), t, th))
  {
    hide RowsOk, Unique, RecordOk, HistoryOk;
    CommitUnique(s.rows, id, r);
    CommitRows(s.rows, s.log, id, r, c);
    ReplaySnoc(s.log, c);
    forall u | u in s.threads
      ensures ThreadOk(s.rows[id := r], s.threads[u])
    {
      OtherThreads(s.rows, id, r, s.threads[u]);
    }
  }

  lemma FreshIsAtomic(rows: Rows, log: seq<Commit>, req: Request, id: nat, now: int)
    requires RowsOk(rows, log) && req.StartBilling? && id !in rows
    requires !KeyTaken(rows, req.key) && !ReservationTaken(rows, req.reservationId)
    ensures HistoryOk(log + [Commit(req, id, now)], NewRecord(req, id, now)) && RecordOk(NewRecord(req, id, now))
    ensures Atomic(rows, Commit(req, id, now)) == rows[id := NewRecord(req, id, now)]
  {
    NewHistory(log, Commit(req, id, now), NewRecord(req, id, now));
  }

  lemma InsertInv(s: State, t: nat, id: nat, write: Write, now: int)
    requires Inv(s) && t in s.threads && s.threads[t].StartInsert? && s.threads[t].req.StartBilling?
    ensures Inv(DoInsert(s, t, s.threads[t].req, id, write, now))
  {
    hide Unique, RowsOk, RecordOk, HistoryOk;
    var req := s.threads[t].req;
    if id in s.rows {
    } else if write.TakesEffect() && !KeyTaken(s.rows, req.key) && !ReservationTaken(s.rows, req.reservationId) {
      var r, c := NewRecord(req, id, now), Commit(req, id, now);
      FreshIsAtomic(s.rows, s.log, req, id, now);
      CommitInv(s, t, id, r, c, Done(req, if write.Applied? then Some(r) else None));
    } else {
      MoveInv(s, t, DoInsert(s, t, req, id, write, now).threads[t]);
    }
  }

  /** The heart of the optimistic lock: a version that still matches means that
      nothing at all changed since the read, so writing the changed copy back is
      the atomic request. */
  lemma MatchingVersionIsAtomic(rows: Rows, log: seq<Commit>, req: Request, base: Record, now: int)
    requires RowsOk(rows, log) && Unique(rows)
    requires ThreadOk(rows, WriteBack(req, 0, base)) && Matches(rows, base)
    ensures rows[base.id] == base && RecordOk(base) && HistoryOk(log, base)
    ensures Written(rows[base.id], Modified(req, base, now)) == Modified(req, base, now)
    ensures Atomic(rows, Commit(req, base.id, now)) == rows[base.id := Modified(req, base, now)]
  {
    FoundIsUnique(rows, base);
  }

  lemma UpdateInv(s: State, t: nat, write: Write, now: int)
    requires Inv(s) && t in s.threads && s.threads[t].WriteBack?
    ensures Inv(DoUpdate(s, t, s.threads[t], write, now))
  {
    hide Unique, RowsOk, RecordOk, HistoryOk;
    var th := s.threads[t];
    assert ThreadOk(s.rows, th);
    if write.TakesEffect() && Matches(s.rows, th.base) {
      var rec := Modified(th.req, th.base, now);
      MatchingVersionIsAtomic(s.rows, s.log, th.req, th.base, now);
      ModifiedOk(s.log, th.req, th.base, rec.id, now);
      CommitInv(s, t, rec.id, rec, Commit(th.req, rec.id, now),
                Done(th.req, if write.Applied? then Some(rec) else None));
    } else {
      MoveInv(s, t, DoUpdate(s, t, th, write, now).threads[t]);
    }
  }

  lemma ReadInv(s: State, t: nat, fails: bool)
    requires Inv(s) && t in s.threads && s.threads[t].ReadRecord?
    ensures Inv(DoRead(s, t, s.threads[t].req, s.threads[t].attempt, fails))
  {
    var th := s.threads[t];
    var found := FindByReservation(s.rows, th.req.reservationId);
    assert ThreadOk(s.rows, th);
    if found.Some? {
      FoundIsVersion(s.rows, s.log, found.value);
    }
    MoveInv(s, t, DoRead(s, t, th.req, th.attempt, fails).threads[t]);
  }

  // ------------------------------------------------------------------
  // Every step keeps it
  // ------------------------------------------------------------------

  lemma InitInv()
    ensures Inv(INIT)
  {
  }

  lemma StepInv(s: State, a: Action)
    requires Inv(s)
    ensures Inv(Step(s, a))
  {
    hide RowsOk, Unique;
    if a.Begin? {
      MoveInv(s, a.t, if a.req.StartBilling? then StartByKey(a.req) else ReadRecord(a.req, 0));
    } else if a.t in s.threads {
      var th := s.threads[a.t];
      assert ThreadOk(s.rows, th);
      match a
      case LookupKey(t, fails) =>
        if th.StartByKey? {
          DoneFoundInv(s, t, th.req, if fails then None else FindByKey(s.rows, th.req.key));
          MoveInv(s, t, StartByReservation(th.req));
        }
      case LookupReservation(t, fails) =>
        if th.StartByReservation? {
          DoneFoundInv(s, t, th.req, if fails then None else FindByReservation(s.rows, th.req.reservationId));
          MoveInv(s, t, StartInsert(th.req));
        }
      case Insert(t, id, write, now) => if th.StartInsert? { InsertInv(s, t, id, write, now); }
      case Refetch(t, fails) =>
        if th.StartRefetch? {
          DoneFoundInv(s, t, th.req, if fails then None else FindByReservation(s.rows, th.req.reservationId));
        }
      case Read(t, fails) => if th.ReadRecord? { ReadInv(s, t, fails); }
      case Update(t, write, now) => if th.WriteBack? { UpdateInv(s, t, write, now); }
      case Crash(t) => if !th.Done? { MoveInv(s, t, Crashed); }
    }
  }

  lemma {:induction false} RunInv(s: State, schedule: seq<Action>)
    requires Inv(s)
    ensures Inv(Run(s, schedule))
    decreases |schedule|
  {
    if schedule != [] {
      StepInv(s, schedule[0]);
      RunInv(Step(s, schedule[0]), schedule[1..]);
    }
  }
}
