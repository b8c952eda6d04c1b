/** What the billing service guarantees over every schedule. */
module BillingTheorems {
  import opened Wrappers
  import opened BillingMachine
  import opened BillingInvariant
  import Pricing

  /** However requests interleave, retry, fail or crash, the table is exactly what
      running the committed ones atomically, in commit order, produces; and each
      record's version counts the updates committed to it. */
  lemma RefinesAtomicRequests(schedule: seq<Action>)
    ensures var s := Run(INIT, schedule);
            && s.rows == Replay(s.log)
            && forall id :: id in s.rows ==>
                 CountCommits(s.log, s.rows[id].reservationId, STARTS) == 1
                 && CountCommits(s.log, s.rows[id].reservationId, ANY_KIND) - 1 == s.rows[id].version
  {
    RunInv(INIT, schedule);
  }

  /** The history is that of the steps: the log grows by exactly the requests whose
      write takes effect, and the table changes in no other step. */
  lemma OnlyCommitsChangeTheTable(s: State, a: Action)
    requires Inv(s)
    ensures var s' := Step(s, a);
            || (s'.log == s.log && s'.rows == s.rows)
            || (&& a.t in s.threads && (s.threads[a.t].StartInsert? || s.threads[a.t].WriteBack?)
                && (exists id, now :: s'.log == s.log + [Commit(s.threads[a.t].req, id, now)])
                && s'.rows != s.rows)
  {
    hide RowsOk, Unique;
    if a.t in s.threads && s.threads[a.t].WriteBack? && a.Update? {
      var th := s.threads[a.t];
      assert ThreadOk(s.rows, th);
      if a.write.TakesEffect() && Matches(s.rows, th.base) {
        MatchingVersionIsAtomic(s.rows, s.log, th.req, th.base, a.now);
        var id, now := th.base.id, a.now;
        assert Step(s, a).log == s.log + [Commit(th.req, id, now)];
        assert Step(s, a).rows[id].version != s.rows[id].version;
      }
    } else if a.t in s.threads && s.threads[a.t].StartInsert? && a.Insert? {
      if Step(s, a).log != s.log {
        var id, now := a.id, a.now;
        assert Step(s, a).log == s.log + [Commit(s.threads[a.t].req, id, now)];
        assert id in Step(s, a).rows;
      }
    }
  }

  /** Bookkeeping that holds in every reachable state. */
  lemma RecordsBalance(schedule: seq<Action>, id: nat)
    requires id in Run(INIT, schedule).rows
    ensures var r := Run(INIT, schedule).rows[id];
            && r.totalAmount == Pricing.AsInt64(r.bookingFee + r.parkingFee + r.overnightFee)
            && (r.isOvernight <==> r.overnightFee > 0)
  {
    RunInv(INIT, schedule);
  }

  /** Per reservation: one record, one key, and at most one CalculateFee and one
      GenerateInvoice that ever take effect. */
  lemma OncePerReservation(schedule: seq<Action>, r: string)
    ensures var s := Run(INIT, schedule);
            && (forall i, j | i in s.rows && j in s.rows && s.rows[i].reservationId == r ::
                  s.rows[j].reservationId == r ==> i == j)
            && CountCommits(s.log, r, STARTS) <= 1
            && CountCommits(s.log, r, CALCULATIONS) <= 1
            && CountCommits(s.log, r, INVOICES) <= CountCommits(s.log, r, CALCULATIONS)
  {
    RunInv(INIT, schedule);
    var s := Run(INIT, schedule);
    if ReservationTaken(s.rows, r) {
      var id :| id in s.rows && s.rows[id].reservationId == r;
      assert HistoryOk(s.log, s.rows[id]);
    } else {
      CountZero(s.log, r, STARTS);
      CountZero(s.log, r, CALCULATIONS);
      CountZero(s.log, r, INVOICES);
    }
  }

  // ------------------------------------------------------------------
  // The life of a record
  // ------------------------------------------------------------------

  function Rank(st: Status): nat {
    match st
    case Pending => 0
    case Calculated => 1
    case Invoiced => 2
  }

  /** How a record may differ after one step. */
  predicate Evolves(p: Record, q: Record) {
    && q.id == p.id && q.reservationId == p.reservationId && q.key == p.key && q.bookingFee == p.bookingFee
    && Rank(p.status) <= Rank(q.status) <= Rank(p.status) + 1
    && p.version <= q.version <= p.version + 1
    && (q.version == p.version ==> q == p)
    && (p.isOvernight && !p.status.Pending? ==> q.isOvernight && q.totalAmount == p.totalAmount)
  }

  lemma StepEvolves(s: State, a: Action, id: nat)
    requires Inv(s) && id in s.rows
    ensures id in Step(s, a).rows && Evolves(s.rows[id], Step(s, a).rows[id])
  {
    hide Unique, RowsOk;
    RowIsOk(s, id);
    if a.t in s.threads && a.Update? && s.threads[a.t].WriteBack? {
      var th := s.threads[a.t];
      assert ThreadOk(s.rows, th);
      if a.write.TakesEffect() && Matches(s.rows, th.base) {
        MatchingVersionIsAtomic(s.rows, s.log, th.req, th.base, a.now);
      }
    }
  }

  /** The overnight fee that a request asks for: one night's, unless it names an amount. */
  function AskedFee(amount: int): int {
    if amount > 0 then amount else 20_000
  }

  /** The record with that overnight fee, marked, one version up. */
  predicate ChargedOvernight(p: Record, q: Record, fee: int) {
    q == p.(overnightFee := fee, isOvernight := true, version := p.version + 1, updatedAt := q.updatedAt,
            totalAmount := Pricing.AsInt64(p.bookingFee + p.parkingFee + fee))
  }

  /** The invoice is not frozen by its status: a step changes an invoiced record's
      total iff it is an effective ApplyOvernightFee on a record not yet marked
      overnight, and then by exactly the overnight fee that was asked for. */
  lemma InvoicedTotalChangesIff(s: State, a: Action, id: nat)
    requires Inv(s) && id in s.rows && s.rows[id].status.Invoiced?
    ensures Step(s, a).rows[id] != s.rows[id] <==>
            && a.Update? && a.t in s.threads && s.threads[a.t].WriteBack?
            && s.threads[a.t].req.ApplyOvernightFee? && s.threads[a.t].base == s.rows[id]
            && a.write.TakesEffect()
    ensures Step(s, a).rows[id] != s.rows[id] ==>
            !s.rows[id].isOvernight && ChargedOvernight(s.rows[id], Step(s, a).rows[id], AskedFee(s.threads[a.t].req.amount))
  {
    hide Unique, Pricing.AsInt64, Pricing.CalculateSessionFee, HistoryOk, Replay, Atomic, FindByKey, FindByReservation, NewRecord;
    if a.t in s.threads && s.threads[a.t].WriteBack? && a.Update? {
      var th := s.threads[a.t];
      assert ThreadOk(s.rows, th);
      if a.write.TakesEffect() && Matches(s.rows, th.base) {
        MatchingVersionIsAtomic(s.rows, s.log, th.req, th.base, a.now);
      }
    }
  }

  /** An invoiced record that is already marked overnight never changes again. */
  lemma {:induction false} OvernightInvoiceIsFrozen(s: State, schedule: seq<Action>, id: nat)
    requires Inv(s) && id in s.rows && s.rows[id].status.Invoiced? && s.rows[id].isOvernight
    ensures id in Run(s, schedule).rows && Run(s, schedule).rows[id] == s.rows[id]
    decreases |schedule|
  {
    if schedule != [] {
      StepInv(s, schedule[0]);
      StepEvolves(s, schedule[0], id);
      InvoicedTotalChangesIff(s, schedule[0], id);
      OvernightInvoiceIsFrozen(Step(s, schedule[0]), schedule[1..], id);
    }
  }

  /** The requests whose writes a run adds to the history. */
  ghost predicate Added(s: State, z: State, c: Commit) {
    |s.log| <= |z.log| && c in z.log[|s.log|..]
  }

  /** Over any run: an invoiced record is either unchanged, or was not marked overnight
      and carries the fee that one ApplyOvernightFee of that run asked for. */
  lemma {:induction false} InvoiceChangesAsAsked(s: State, schedule: seq<Action>, id: nat)
    requires Inv(s) && id in s.rows && s.rows[id].status.Invoiced?
    ensures var z := Run(s, schedule);
            && id in z.rows && s.log <= z.log
            && (z.rows[id] == s.rows[id]
                || (!s.rows[id].isOvernight
                    && exists c :: Added(s, z, c) && c.req.ApplyOvernightFee? && c.req.reservationId == s.rows[id].reservationId
                                   && ChargedOvernight(s.rows[id], z.rows[id], AskedFee(c.req.amount))))
    decreases |schedule|
  {
    hide ChargedOvernight, AskedFee;
    if schedule != [] {
      var a, rest := schedule[0], schedule[1..];
      var s1, z := Step(s, a), Run(Step(s, a), rest);
      StepInv(s, a);
      StepEvolves(s, a, id);
      InvoicedTotalChangesIff(s, a, id);
      LogGrows(s, a);
      InvoiceChangesAsAsked(s1, rest, id);
      if s1.rows[id] != s.rows[id] {
        MarkedByStep(s, a, id);
        OvernightInvoiceIsFrozen(s1, rest, id);
        var c := s1.log[|s.log|];
        assert z.log[|s.log|] == c && z.log[|s.log|..][0] == c;
        assert Added(s, z, c);
      } else if z.rows[id] != s.rows[id] {
        var c :| Added(s1, z, c) && c.req.ApplyOvernightFee? && c.req.reservationId == s1.rows[id].reservationId
                 && ChargedOvernight(s1.rows[id], z.rows[id], AskedFee(c.req.amount));
        assert z.log[|s1.log|..] == z.log[|s.log|..][|s1.log| - |s.log|..];
        assert Added(s, z, c);
      }
    }
  }

  lemma LogGrows(s: State, a: Action)
    ensures s.log <= Step(s, a).log
  {
    hide Modified, FindByReservation, FindByKey, NewRecord;
  }

  /** The step that changes an invoiced record adds its request to the history. */
  lemma MarkedByStep(s: State, a: Action, id: nat)
    requires Inv(s) && id in s.rows && s.rows[id].status.Invoiced?
    requires id in Step(s, a).rows && Step(s, a).rows[id] != s.rows[id]
    ensures var s' := Step(s, a);
            && s'.rows[id].status.Invoiced? && s'.rows[id].isOvernight && !s.rows[id].isOvernight
            && |s'.log| == |s.log| + 1
            && var c := s'.log[|s.log|];
               && c.req.ApplyOvernightFee? && c.req.reservationId == s.rows[id].reservationId
               && ChargedOvernight(s.rows[id], s'.rows[id], AskedFee(c.req.amount))
  {
    InvoicedTotalChangesIff(s, a, id);
    hide Unique, RowsOk, Replay, AskedFee, Modified;
    assert ThreadOk(s.rows, s.threads[a.t]);
  }

  /** A write whose version no longer matches, and does reach the table, sends a request
      back to reading, at most twice in its life; an invoice gives up at once. */
  lemma MismatchReadsAgain(schedule: seq<Action>, t: nat, now: int)
    requires var s := Run(INIT, schedule); t in s.threads && s.threads[t].WriteBack?
    ensures var s := Run(INIT, schedule); var th := s.threads[t];
            && th.attempt <= 2 && th.base.id in s.rows && th.base.version <= s.rows[th.base.id].version
            && (th.base.version < s.rows[th.base.id].version ==>
                  var s' := Step(s, Update(t, Applied, now));
                  && s'.rows == s.rows && s'.log == s.log
                  && s'.threads[t] == if th.req.GenerateInvoice? || th.attempt == 2 then Done(th.req, None)
                                      else ReadRecord(th.req, th.attempt + 1))
  {
    hide RowsOk, Unique, Replay;
    InitInv();
    RunInv(INIT, schedule);
    var s := Run(INIT, schedule);
    assert ThreadOk(s.rows, s.threads[t]);
  }

  lemma RowIsOk(s: State, id: nat)
    requires Inv(s) && id in s.rows
    ensures s.rows[id].id == id && RecordOk(s.rows[id])
  {
  }

  lemma TotalsDiffer(bookingFee: int, parkingFee: int)
    ensures var was := Pricing.CalculateTotal(bookingFee, parkingFee, 0);
            var becomes := Pricing.CalculateTotal(bookingFee, parkingFee, Pricing.OVERNIGHT_PER_NIGHT);
            becomes == Pricing.AsInt64(was + Pricing.OVERNIGHT_PER_NIGHT) && becomes != was
  {
    var sum, fee := bookingFee + parkingFee + Pricing.TWO_63, Pricing.OVERNIGHT_PER_NIGHT;
    assert (sum + fee) % Pricing.TWO_64 == (sum % Pricing.TWO_64 + fee) % Pricing.TWO_64;
  }

  /** Three steps of a new request change an issued invoice that is not marked
      overnight: its total grows by the nightly fee, in 64-bit arithmetic. */
  lemma InvoiceChangesAfterwards(s: State, id: nat, t: nat)
    requires Inv(s) && id in s.rows && s.rows[id].status.Invoiced? && !s.rows[id].isOvernight
    requires t !in s.threads
    ensures var req := ApplyOvernightFee(s.rows[id].reservationId, 0);
            var s' := Step(Step(Step(s, Begin(t, req)), Read(t, false)), Update(t, Applied, 0));
            && id in s'.rows && s'.rows[id].status.Invoiced?
            && s'.rows[id].totalAmount == Pricing.AsInt64(s.rows[id].totalAmount + Pricing.OVERNIGHT_PER_NIGHT)
            && s'.rows[id].totalAmount != s.rows[id].totalAmount
  {
    hide Unique, RowsOk, Pricing.AsInt64;
    var req, r := ApplyOvernightFee(s.rows[id].reservationId, 0), s.rows[id];
    RowIsOk(s, id);
    FoundIsUnique(s.rows, r);
    TotalsDiffer(r.bookingFee, r.parkingFee);
    var s1 := Step(s, Begin(t, req));
    assert s1 == Goto(s, t, ReadRecord(req, 0));
    var s2 := Step(s1, Read(t, false));
    assert s2 == Goto(s1, t, WriteBack(req, 0, r));
    assert Step(s2, Update(t, Applied, 0)).rows[id] == Modified(req, r, 0);
  }

  ghost predicate RecordStays(s: State, more: seq<Action>, id: nat)
    requires id in s.rows
  {
    id in Run(s, more).rows && Run(s, more).rows[id] == s.rows[id]
  }

  ghost predicate TotalStays(s: State, more: seq<Action>, id: nat)
    requires id in s.rows
  {
    id in Run(s, more).rows && Run(s, more).rows[id].totalAmount == s.rows[id].totalAmount
  }

  /** Exactly when an invoice is final: in every reachable state an invoiced record is
      the same in every continuation, and so is its total, if and only if it is marked
      overnight already. */
  lemma InvoiceIsFinalIff(schedule: seq<Action>, id: nat)
    requires var s := Run(INIT, schedule); id in s.rows && s.rows[id].status.Invoiced?
    ensures var s := Run(INIT, schedule);
            && ((forall more :: RecordStays(s, more, id)) <==> s.rows[id].isOvernight)
            && ((forall more :: TotalStays(s, more, id)) <==> s.rows[id].isOvernight)
  {
    hide Inv;
    InitInv();
    RunInv(INIT, schedule);
    var s := Run(INIT, schedule);
    if s.rows[id].isOvernight {
      forall more
        ensures RecordStays(s, more, id) && TotalStays(s, more, id)
      {
        OvernightInvoiceIsFrozen(s, more, id);
      }
    } else {
      var t := Unused(s.threads);
      var more := ChangesInvoice(s, id, t);
      assert !TotalStays(s, more, id) && !RecordStays(s, more, id);
    }
  }

  lemma ChangesInvoice(s: State, id: nat, t: nat) returns (more: seq<Action>)
    requires Inv(s) && id in s.rows && s.rows[id].status.Invoiced? && !s.rows[id].isOvernight
    requires t !in s.threads
    ensures !TotalStays(s, more, id)
  {
    InvoiceChangesAfterwards(s, id, t);
    hide Inv, Step;
    var a1, a2, a3 := Begin(t, ApplyOvernightFee(s.rows[id].reservationId, 0)), Read(t, false), Update(t, Applied, 0);
    more := [a1, a2, a3];
    assert more[1..] == [a2, a3] && more[1..][1..] == [a3] && more[1..][1..][1..] == [];
    assert Run(Step(s, a1), [a2, a3]) == Run(Step(Step(s, a1), a2), [a3]) by {
      assert [a2, a3][1..] == [a3];
    }
    assert Run(Step(Step(s, a1), a2), [a3]) == Run(Step(Step(Step(s, a1), a2), a3), []);
  }

  // ------------------------------------------------------------------
  // Answers
  // ------------------------------------------------------------------

  /** Whatever a request returns was a version of the stored record of that id,
      and it is the record itself while the versions agree. */
  lemma AnswersAreVersions(schedule: seq<Action>, t: nat)
    requires var s := Run(INIT, schedule);
             t in s.threads && s.threads[t].Done? && s.threads[t].result.Some?
    ensures IsVersionOf(Run(INIT, schedule).rows, Run(INIT, schedule).threads[t].result.value)
  {
    RunInv(INIT, schedule);
    var s := Run(INIT, schedule);
    assert ThreadOk(s.rows, s.threads[t]);
  }
}
