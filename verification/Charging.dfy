/** What became of the money: how a payment row, the gateway's replies to the attempts
    to charge for it and the gateway's ledger belong together, now and for ever. */
module Charging {
  import opened Wrappers
  import opened PaymentMachine
  import opened PaymentInvariant
  import PT = PaymentTheorems

  // ------------------------------------------------------------------
  // Charged or not
  // ------------------------------------------------------------------

  /** The gateway holds exactly one charge for this payment, of its amount. */
  predicate ChargedOnce(s: State, pid: nat) {
    pid in s.rows
    && exists ref :: ref in s.ledger && PT.ChargeRefs(s.ledger, pid) == {ref} && s.ledger[ref].amount == s.rows[pid].amount
  }

  predicate NotCharged(s: State, pid: nat) {
    PT.ChargeRefs(s.ledger, pid) == {}
  }

  /** Some request is still at the gateway with this payment. */
  predicate BeingCharged(s: State, pid: nat) {
    exists u :: u in s.threads && s.threads[u].PayCharge? && s.threads[u].copy.id == pid
  }

  predicate Paid(st: Status) {
    st.Success? || st.Refunding? || st.Refunded?
  }

  lemma OnceOrNot(s: State, pid: nat)
    requires Inv(s) && pid in s.rows
    ensures ChargedOnce(s, pid) <==> !NotCharged(s, pid)
  {
    if ref :| ref in PT.ChargeRefs(s.ledger, pid) {
      assert PT.ChargeRefs(s.ledger, pid) == {ref};
    }
  }

  lemma StatusTells(s: State, pid: nat)
    requires Inv(s) && pid in s.rows
    ensures Paid(s.rows[pid].status) ==> ChargedOnce(s, pid)
    ensures s.rows[pid].status.Failed? ==> NotCharged(s, pid)
    ensures !s.rows[pid].status.Pending? ==> !BeingCharged(s, pid)
    ensures BeingCharged(s, pid) ==> NotCharged(s, pid)
  {
    OnceOrNot(s, pid);
    assert RowMoney(s.schemaHasRefunding, s.ledger, s.rows[pid]);
    if u :| u in s.threads && s.threads[u].PayCharge? && s.threads[u].copy.id == pid {
      assert ThreadOk(s.rows, s.ledger, s.threads[u]);
    }
  }

  // ------------------------------------------------------------------
  // Both last
  // ------------------------------------------------------------------

  /** Charges stay in the ledger with their payer. */
  lemma LedgerGrows(s: State, a: Action)
    ensures forall r :: r in s.ledger ==> r in Step(s, a).ledger && Step(s, a).ledger[r].payer == s.ledger[r].payer
  {
    hide FindByKey, UpdateRow, UpdateRowIfStatus, KeyTaken, StatusAllowed;
  }

  lemma ChargedStep(s: State, a: Action, pid: nat)
    requires Inv(s) && ChargedOnce(s, pid)
    ensures ChargedOnce(Step(s, a), pid)
  {
    hide Inv, Step;
    StepInv(s, a);
    PT.StepEvolves(s, a, pid);
    LedgerGrows(s, a);
    OnceOrNot(Step(s, a), pid);
    var ref :| ref in s.ledger && PT.ChargeRefs(s.ledger, pid) == {ref};
    assert ref in PT.ChargeRefs(s.ledger, pid);
    assert ref in PT.ChargeRefs(Step(s, a).ledger, pid);
  }

  /** A charge is made only for a payment that is at the gateway. */
  lemma OnlyChargesCharge(s: State, a: Action, pid: nat)
    requires NotCharged(s, pid) && !NotCharged(Step(s, a), pid)
    ensures a.Charge? && a.reply.Accepted? && a.t in s.threads && s.threads[a.t].PayCharge? && s.threads[a.t].copy.id == pid
  {
    hide FindByKey, UpdateRow, UpdateRowIfStatus, KeyTaken, StatusAllowed;
    var ref :| ref in PT.ChargeRefs(Step(s, a).ledger, pid);
    assert ref in s.ledger ==> ref in PT.ChargeRefs(s.ledger, pid) || s.ledger[ref].payer != pid;
  }

  /** No request goes to the gateway with a payment that exists already. */
  lemma NoNewCharging(s: State, a: Action, pid: nat)
    requires pid in s.rows && !BeingCharged(s, pid)
    ensures !BeingCharged(Step(s, a), pid)
  {
    hide FindByKey, UpdateRow, UpdateRowIfStatus, KeyTaken, StatusAllowed, Refunded1;
    var s' := Step(s, a);
    if u :| u in s'.threads && s'.threads[u].PayCharge? && s'.threads[u].copy.id == pid {
      ChargingBegins(s, a, u);
    }
  }

  lemma ChargingBegins(s: State, a: Action, u: nat)
    requires u in Step(s, a).threads && Step(s, a).threads[u].PayCharge?
    ensures var th' := Step(s, a).threads[u];
            || (u in s.threads && s.threads[u].PayCharge? && s.threads[u].copy == th'.copy)
            || (a.Insert? && a.t == u && th'.copy.id == a.id && a.id !in s.rows)
  {
    if u in s.threads && u != a.t {
      hide Step;
      PT.OthersStay(s, a, u);
    } else {
      OwnChargingBegins(s, a, u);
    }
  }

  lemma OwnChargingBegins(s: State, a: Action, u: nat)
    requires u in Step(s, a).threads && Step(s, a).threads[u].PayCharge? && (u !in s.threads || u == a.t)
    ensures var th' := Step(s, a).threads[u];
            || (u in s.threads && s.threads[u].PayCharge? && s.threads[u].copy == th'.copy)
            || (a.Insert? && a.t == u && th'.copy.id == a.id && a.id !in s.rows)
  {
    if u in s.threads && IsPayAction(a) {
      hide Step, PayStep;
      StepIsPayStep(s, a);
      PayChargingBegins(s, a);
    } else {
      hide Step;
      NoPayThread(s, a, u);
    }
  }

  lemma PayChargingBegins(s: State, a: Action)
    requires a.t in s.threads && IsPayAction(a)
    ensures var th, s' := s.threads[a.t], PayStep(s, s.threads[a.t], a);
            a.t in s'.threads && var th' := s'.threads[a.t];
            th'.PayCharge? ==> (th.PayCharge? && th.copy == th'.copy) || (a.Insert? && th'.copy.id == a.id && a.id !in s.rows)
  {
    hide FindByKey, UpdateRow, KeyTaken;
  }

  lemma UnchargedStep(s: State, a: Action, pid: nat)
    requires Inv(s) && pid in s.rows && NotCharged(s, pid) && !BeingCharged(s, pid)
    ensures pid in Step(s, a).rows && NotCharged(Step(s, a), pid) && !BeingCharged(Step(s, a), pid)
  {
    hide Inv, Step, NotCharged;
    PT.StepEvolves(s, a, pid);
    NoNewCharging(s, a, pid);
    if !NotCharged(Step(s, a), pid) {
      OnlyChargesCharge(s, a, pid);
    }
  }

  /** A request that is at the gateway may still be answered with a charge. */
  lemma CanStillCharge(s: State, u: nat, ref: nat)
    requires u in s.threads && s.threads[u].PayCharge? && ref !in s.ledger
    ensures !NotCharged(Step(s, Charge(u, Accepted(ref))), s.threads[u].copy.id)
  {
    var s' := Step(s, Charge(u, Accepted(ref)));
    assert ref in PT.ChargeRefs(s'.ledger, s.threads[u].copy.id);
  }

  // ------------------------------------------------------------------
  // The gateway's replies
  // ------------------------------------------------------------------

  /** The reply to an attempt to charge for the payment, if the action is one. */
  ghost function ReplyIn(s: State, a: Action, pid: nat): seq<Reply> {
    if && a.Charge? && a.t in s.threads && s.threads[a.t].PayCharge? && s.threads[a.t].copy.id == pid
       && (a.reply.Accepted? ==> a.reply.ref !in s.ledger)
    then [a.reply] else []
  }

  /** All replies of a run, in order. */
  ghost function Replies(s: State, schedule: seq<Action>, pid: nat): seq<Reply>
    decreases |schedule|
  {
    if schedule == [] then [] else ReplyIn(s, schedule[0], pid) + Replies(Step(s, schedule[0]), schedule[1..], pid)
  }

  predicate AllDeclined(replies: seq<Reply>) {
    forall i :: 0 <= i < |replies| ==> replies[i].Declined?
  }

  /** The last attempt was accepted. */
  predicate WasAccepted(replies: seq<Reply>) {
    0 < |replies| <= 3 && AllDeclined(replies[..|replies| - 1]) && replies[|replies| - 1].Accepted?
  }

  /** The retry loop gave up: all three attempts were declined, or it was cancelled. */
  predicate GaveUp(replies: seq<Reply>) {
    || (|replies| == 3 && AllDeclined(replies))
    || (0 < |replies| <= 3 && AllDeclined(replies[..|replies| - 1]) && replies[|replies| - 1].Interrupted?)
  }

  /** Where a request stands and what the gateway has replied to it. */
  predicate ThreadHistory(th: Thread, pid: nat, replies: seq<Reply>) {
    && (th.PayCharge? && th.copy.id == pid ==> |replies| == th.attempt && AllDeclined(replies))
    && (th.PayMarkFailed? && th.copy.id == pid ==> GaveUp(replies))
    && (th.PayMarkSuccess? && th.copy.id == pid ==> WasAccepted(replies))
  }

  predicate History(s: State, pid: nat, replies: seq<Reply>) {
    && (pid !in s.rows ==> replies == [])
    && (WasAccepted(replies) || GaveUp(replies) || (|replies| < MAX_ATTEMPTS && AllDeclined(replies)))
    && (WasAccepted(replies) <==> !NotCharged(s, pid))
    && (pid in s.rows && s.rows[pid].status.Failed? ==> GaveUp(replies))
    && forall u :: u in s.threads ==> ThreadHistory(s.threads[u], pid, replies)
  }

  lemma OnlyOneOutcome(replies: seq<Reply>)
    ensures !(WasAccepted(replies) && GaveUp(replies))
  {
  }

  /** The only attempt under way ends, or goes on, as the gateway replies. */
  lemma AttemptHistory(s: State, a: Action, pid: nat, past: seq<Reply>)
    requires Inv(s) && History(s, pid, past) && ReplyIn(s, a, pid) != []
    ensures History(Step(s, a), pid, past + ReplyIn(s, a, pid))
  {
    hide Inv, Step, ThreadHistory, GaveUp, WasAccepted, AllDeclined, NotCharged;
    AttemptCharges(s, a, pid);
    AttemptOwn(s, a, pid, past);
    AttemptMoves(s, a, pid);
    forall u | u in s.threads && u != a.t
      ensures ThreadHistory(s.threads[u], pid, past + [a.reply])
    {
      AttemptOthers(s, a, pid, past + [a.reply], u);
    }
  }

  lemma AttemptOthers(s: State, a: Action, pid: nat, now: seq<Reply>, u: nat)
    requires Inv(s) && ReplyIn(s, a, pid) != [] && u in s.threads && u != a.t
    ensures ThreadHistory(s.threads[u], pid, now)
  {
    hide RowsOk, KeysUnique, LedgerOk, ThreadsOk;
    assert Owned(s.threads[a.t]) == Some(pid);
    assert Owned(s.threads[u]) != Some(pid);
  }

  lemma AttemptMoves(s: State, a: Action, pid: nat)
    requires ReplyIn(s, a, pid) != []
    ensures var s' := Step(s, a);
            s'.rows == s.rows && forall u :: u in s'.threads && u != a.t ==> u in s.threads && s'.threads[u] == s.threads[u]
  {
  }

  lemma AttemptOwn(s: State, a: Action, pid: nat, past: seq<Reply>)
    requires Inv(s) && ReplyIn(s, a, pid) != [] && ThreadHistory(s.threads[a.t], pid, past)
    ensures var now, s' := past + [a.reply], Step(s, a);
            && a.t in s'.threads && ThreadHistory(s'.threads[a.t], pid, now)
            && (WasAccepted(now) || GaveUp(now) || (|now| < 3 && AllDeclined(now)))
            && (WasAccepted(now) <==> a.reply.Accepted?)
  {
    hide RowsOk, KeysUnique, LedgerOk, OwnersUnique;
    var th, now := s.threads[a.t], past + [a.reply];
    assert ThreadOk(s.rows, s.ledger, th);
    assert now[..|past|] == past && now[|now| - 1] == a.reply;
  }

  lemma AttemptCharges(s: State, a: Action, pid: nat)
    requires Inv(s) && ReplyIn(s, a, pid) != []
    ensures pid in s.rows && s.rows[pid].status.Pending? && NotCharged(s, pid)
    ensures a.reply.Accepted? <==> !NotCharged(Step(s, a), pid)
  {
    assert ThreadOk(s.rows, s.ledger, s.threads[a.t]);
    assert NotCharged(s, pid);
    hide Inv, ThreadOk;
    if a.reply.Accepted? {
      CanStillCharge(s, a.t, a.reply.ref);
    } else if !NotCharged(Step(s, a), pid) {
      OnlyChargesCharge(s, a, pid);
    }
  }

  /** Every other step leaves the replies as they are. */
  lemma OtherHistory(s: State, a: Action, pid: nat, past: seq<Reply>)
    requires Inv(s) && History(s, pid, past) && ReplyIn(s, a, pid) == []
    ensures History(Step(s, a), pid, past)
  {
    hide GaveUp, WasAccepted, AllDeclined;
    var s' := Step(s, a);
    OtherCharges(s, a, pid);
    forall u | u in s'.threads
      ensures ThreadHistory(s'.threads[u], pid, past)
    {
      OtherThreadHistory(s, a, pid, past, u);
    }
    OtherRow(s, a, pid, past);
  }

  lemma OtherCharges(s: State, a: Action, pid: nat)
    requires Inv(s) && ReplyIn(s, a, pid) == []
    ensures NotCharged(Step(s, a), pid) <==> NotCharged(s, pid)
  {
    if NotCharged(s, pid) && !NotCharged(Step(s, a), pid) {
      OnlyChargesCharge(s, a, pid);
    }
    if ref :| ref in PT.ChargeRefs(s.ledger, pid) {
      LedgerGrows(s, a);
      assert ref in PT.ChargeRefs(Step(s, a).ledger, pid);
    }
  }

  lemma OtherThreadHistory(s: State, a: Action, pid: nat, past: seq<Reply>, u: nat)
    requires Inv(s) && History(s, pid, past) && ReplyIn(s, a, pid) == [] && u in Step(s, a).threads
    ensures ThreadHistory(Step(s, a).threads[u], pid, past)
  {
    hide Inv, GaveUp, WasAccepted, AllDeclined, NotCharged;
    if u in s.threads && u != a.t {
      hide Step;
      PT.OthersStay(s, a, u);
    } else if u == a.t && u in s.threads && IsPayAction(a) {
      hide Step, PayStep;
      OwnThreadHistory(s, a, pid, past);
      StepIsPayStep(s, a);
    } else {
      NoPayThread(s, a, u);
    }
  }

  lemma StepIsPayStep(s: State, a: Action)
    requires a.t in s.threads && IsPayAction(a)
    ensures Step(s, a) == PayStep(s, s.threads[a.t], a)
  {
  }

  /** Entering, refunding and crashing lead to no program point about a charge. */
  lemma NoPayThread(s: State, a: Action, u: nat)
    requires u in Step(s, a).threads && (u !in s.threads || (u == a.t && !IsPayAction(a)))
    ensures var th' := Step(s, a).threads[u];
            (u in s.threads && th' == s.threads[u]) || !(th'.PayCharge? || th'.PayMarkFailed? || th'.PayMarkSuccess?)
  {
    hide FindByKey, UpdateRow, UpdateRowIfStatus, KeyTaken, StatusAllowed, Refunded1;
    if !IsPayAction(a) {
      hide PayStep;
    } else {
      hide RefundStep;
    }
  }

  lemma OwnThreadHistory(s: State, a: Action, pid: nat, past: seq<Reply>)
    requires History(s, pid, past) && ReplyIn(s, a, pid) == [] && a.t in s.threads && IsPayAction(a)
    ensures var s' := PayStep(s, s.threads[a.t], a);
            a.t in s'.threads && ThreadHistory(s'.threads[a.t], pid, past)
  {
    hide GaveUp, WasAccepted, NotCharged, FindByKey, UpdateRow, KeyTaken;
    assert ThreadHistory(s.threads[a.t], pid, past);
  }

  /** A payment fails only by the hand of a request that gave up. */
  lemma OtherRow(s: State, a: Action, pid: nat, past: seq<Reply>)
    requires Inv(s) && History(s, pid, past) && ReplyIn(s, a, pid) == []
    ensures var s' := Step(s, a);
            && (pid !in s'.rows ==> past == [])
            && (pid in s'.rows && s'.rows[pid].status.Failed? ==> GaveUp(past))
  {
    hide GaveUp, WasAccepted, NotCharged, AllDeclined, Step, Inv;
    NewRowsPend(s, a, pid);
    if pid in s.rows {
      PT.StepEvolves(s, a, pid);
      if Step(s, a).rows[pid].status.Failed? && !s.rows[pid].status.Failed? {
        FailsByOwner(s, a, pid);
      }
    }
  }

  lemma NewRowsPend(s: State, a: Action, pid: nat)
    ensures pid in Step(s, a).rows && pid !in s.rows ==> Step(s, a).rows[pid].status.Pending?
  {
  }

  lemma FailsByOwner(s: State, a: Action, pid: nat)
    requires pid in s.rows && pid in Step(s, a).rows
    requires Step(s, a).rows[pid].status.Failed? && !s.rows[pid].status.Failed?
    ensures a.MarkFailed? && a.t in s.threads && s.threads[a.t].PayMarkFailed? && s.threads[a.t].copy.id == pid
  {
    hide PayStep, RefundStep;
    if a.t in s.threads && IsPayAction(a) {
      PayFails(s, a, pid);
    } else if a.t in s.threads {
      RefundNeverFails(s, a, pid);
    }
  }

  lemma PayFails(s: State, a: Action, pid: nat)
    requires a.t in s.threads && IsPayAction(a) && pid in s.rows && pid in PayStep(s, s.threads[a.t], a).rows
    requires PayStep(s, s.threads[a.t], a).rows[pid].status.Failed? && !s.rows[pid].status.Failed?
    ensures a.MarkFailed? && s.threads[a.t].PayMarkFailed? && s.threads[a.t].copy.id == pid
  {
    hide FindByKey, KeyTaken;
  }

  lemma RefundNeverFails(s: State, a: Action, pid: nat)
    requires a.t in s.threads && pid in s.rows
    ensures var s' := RefundStep(s, s.threads[a.t], a);
            pid in s'.rows && (s'.rows[pid].status.Failed? ==> s.rows[pid].status.Failed?)
  {
    hide FindByKey, Refunded1, StatusAllowed;
  }

  lemma {:induction false} RunHistory(s: State, past: seq<Reply>, schedule: seq<Action>, pid: nat)
    requires Inv(s) && History(s, pid, past)
    ensures History(Run(s, schedule), pid, past + Replies(s, schedule, pid))
    decreases |schedule|
  {
    hide Inv, History, Step, ReplyIn;
    if schedule == [] {
      assert past + [] == past;
    } else {
      var a := schedule[0];
      var reply := ReplyIn(s, a, pid);
      if reply == [] {
        OtherHistory(s, a, pid, past);
        assert past + reply == past;
      } else {
        AttemptHistory(s, a, pid, past);
      }
      StepInv(s, a);
      RunHistory(Step(s, a), past + reply, schedule[1..], pid);
      assert past + reply + Replies(Step(s, a), schedule[1..], pid) == past + Replies(s, schedule, pid);
    }
  }

  lemma InitHistory(flag: bool, pid: nat)
    ensures History(Init(flag), pid, [])
  {
  }

  /** In every run: a payment was charged exactly if its last attempt was accepted; a
      settled one is paid in that case and failed exactly if its retry loop gave up. */
  lemma RepliesTell(flag: bool, schedule: seq<Action>, pid: nat)
    requires pid in Run(Init(flag), schedule).rows
    ensures var s, replies := Run(Init(flag), schedule), Replies(Init(flag), schedule, pid);
            && (ChargedOnce(s, pid) <==> WasAccepted(replies))
            && (NotCharged(s, pid) <==> !WasAccepted(replies))
            && (!s.rows[pid].status.Pending? ==> (WasAccepted(replies) <==> !GaveUp(replies)))
            && (!s.rows[pid].status.Pending? ==> (Paid(s.rows[pid].status) <==> !GaveUp(replies)))
  {
    hide Inv, Run, Replies, NotCharged, ChargedOnce;
    var s, replies := Run(Init(flag), schedule), Replies(Init(flag), schedule, pid);
    InitInv(flag);
    InitHistory(flag, pid);
    RunHistory(Init(flag), [], schedule, pid);
    assert [] + replies == replies;
    RunInv(Init(flag), schedule);
    OnceOrNot(s, pid);
    StatusTells(s, pid);
    OnlyOneOutcome(replies);
  }
}
