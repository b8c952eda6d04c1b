/** Whether a confirmed or completed reservation has been paid for. The reservation
    service does not look: it goes on with whatever payment it is answered. So this is
    told, exactly, by what the gateway replied to the charge. */
module Settlement {
  import opened Wrappers
  import opened ParkingSystem
  import opened EndToEnd
  import opened Charging
  import E2E = EndToEndTheorems
  import RM = ReservationMachine
  import RI = ReservationInvariant
  import BM = BillingMachine
  import BI = BillingInvariant
  import PM = PaymentMachine
  import PI = PaymentInvariant
  import PT = PaymentTheorems

  // ------------------------------------------------------------------
  // The payment service's part of a run
  // ------------------------------------------------------------------

  ghost function PaymentSteps(s: System, a: Action): seq<PM.Action> {
    match a
    case P(pa) => if OutsidePayment(pa) then [pa] else []
    case CallPayment(t, u) =>
      if t in s.r.threads && t !in s.paymentCalls && u !in s.p.threads then
        var th := s.r.threads[t];
        if ChargeRequest(th).Some? then [PM.BeginPay(u, ChargeRequest(th).value)]
        else if th.ConfirmRefund? then [PM.BeginRefund(u, th.pid, "")]
        else []
      else []
    case _ => []
  }

  ghost function PaymentTrace(s: System, schedule: seq<Action>): seq<PM.Action>
    decreases |schedule|
  {
    if schedule == [] then [] else PaymentSteps(s, schedule[0]) + PaymentTrace(Step(s, schedule[0]), schedule[1..])
  }

  lemma StepTraces(s: System, a: Action)
    ensures Step(s, a).p == PM.Run(s.p, PaymentSteps(s, a))
  {
    hide PM.Step, RM.Step, BM.Step, ChargeRequest;
    var steps := PaymentSteps(s, a);
    if steps != [] {
      assert steps[1..] == [];
      assert PM.Run(s.p, steps) == PM.Run(PM.Step(s.p, steps[0]), []);
    }
  }

  /** Within a run of the whole system the payment service makes a run of its own. */
  lemma {:induction false} TraceRuns(s: System, schedule: seq<Action>)
    ensures Run(s, schedule).p == PM.Run(s.p, PaymentTrace(s, schedule))
    decreases |schedule|
  {
    hide Step, PaymentSteps;
    if schedule != [] {
      StepTraces(s, schedule[0]);
      TraceRuns(Step(s, schedule[0]), schedule[1..]);
      PM.RunAppend(s.p, PaymentSteps(s, schedule[0]), PaymentTrace(Step(s, schedule[0]), schedule[1..]));
    }
  }

  // ------------------------------------------------------------------
  // For ever
  // ------------------------------------------------------------------

  ghost predicate ChargedForEver(s: System, pid: nat) {
    forall more :: ChargedOnce(Run(s, more).p, pid)
  }

  ghost predicate NeverCharged(s: System, pid: nat) {
    forall more :: NotCharged(Run(s, more).p, pid)
  }

  lemma {:induction false} ChargedLasts(s: PM.State, more: seq<PM.Action>, pid: nat)
    requires PI.Inv(s) && ChargedOnce(s, pid)
    ensures ChargedOnce(PM.Run(s, more), pid)
    decreases |more|
  {
    hide PI.Inv, PM.Step, ChargedOnce;
    if more != [] {
      PI.StepInv(s, more[0]);
      ChargedStep(s, more[0], pid);
      ChargedLasts(PM.Step(s, more[0]), more[1..], pid);
    }
  }

  lemma {:induction false} UnchargedLasts(s: PM.State, more: seq<PM.Action>, pid: nat)
    requires PI.Inv(s) && pid in s.rows && NotCharged(s, pid) && !BeingCharged(s, pid)
    ensures NotCharged(PM.Run(s, more), pid)
    decreases |more|
  {
    hide PI.Inv, PM.Step, NotCharged, BeingCharged;
    if more != [] {
      PI.StepInv(s, more[0]);
      UnchargedStep(s, more[0], pid);
      UnchargedLasts(PM.Step(s, more[0]), more[1..], pid);
    }
  }

  lemma NowIsRun(s: System)
    ensures Run(s, []) == s
  {
  }

  lemma ChargedForEverIff(s: System, pid: nat)
    requires PI.Inv(s.p) && pid in s.p.rows
    ensures ChargedForEver(s, pid) <==> ChargedOnce(s.p, pid)
  {
    hide PI.Inv, Run, ChargedOnce;
    NowIsRun(s);
    if ChargedOnce(s.p, pid) {
      forall more
        ensures ChargedOnce(Run(s, more).p, pid)
      {
        TraceRuns(s, more);
        ChargedLasts(s.p, PaymentTrace(s, more), pid);
      }
    }
    if ChargedForEver(s, pid) {
      assert ChargedOnce(Run(s, []).p, pid);
    }
  }

  lemma NeverChargedIff(s: System, pid: nat)
    requires PI.Inv(s.p) && pid in s.p.rows
    ensures NeverCharged(s, pid) <==> NotCharged(s.p, pid) && !BeingCharged(s.p, pid)
  {
    hide PI.Inv, Run, NotCharged, PM.Step;
    NowIsRun(s);
    if NotCharged(s.p, pid) && !BeingCharged(s.p, pid) {
      forall more
        ensures NotCharged(Run(s, more).p, pid)
      {
        TraceRuns(s, more);
        UnchargedLasts(s.p, PaymentTrace(s, more), pid);
      }
    }
    if NeverCharged(s, pid) {
      assert NotCharged(Run(s, []).p, pid);
      if u :| u in s.p.threads && s.p.threads[u].PayCharge? && s.p.threads[u].copy.id == pid {
        var more := ChargesStill(s, u);
      }
    }
  }

  lemma ChargesStill(s: System, u: nat) returns (more: seq<Action>)
    requires u in s.p.threads && s.p.threads[u].PayCharge?
    ensures !NotCharged(Run(s, more).p, s.p.threads[u].copy.id)
  {
    var ref := Unused(s.p.ledger);
    var a := P(PM.Charge(u, PM.Accepted(ref)));
    CanStillCharge(s.p, u, ref);
    hide PM.Step, NotCharged;
    more := [a];
    assert more[1..] == [] && Run(s, more) == Run(Step(s, a), []);
  }

  // ------------------------------------------------------------------
  // The fate of a payment
  // ------------------------------------------------------------------

  /** Exactly when the payment is charged, once and for its amount, now and in every
      continuation; and when it never is: by the gateway's replies, and, once it is no
      longer pending, by its status. A pending payment has at most one charge. */
  ghost predicate FateIs(s: System, pid: nat, replies: seq<PM.Reply>)
    requires pid in s.p.rows
  {
    var st := s.p.rows[pid].status;
    && (ChargedForEver(s, pid) <==> WasAccepted(replies))
    && (NeverCharged(s, pid) <==> !WasAccepted(replies) && !BeingCharged(s.p, pid))
    && (GaveUp(replies) ==> NeverCharged(s, pid))
    && (ChargedOnce(s.p, pid) || NotCharged(s.p, pid))
    && (!st.Pending? ==>
          && (ChargedForEver(s, pid) <==> Paid(st))
          && (NeverCharged(s, pid) <==> st.Failed?)
          && (NeverCharged(s, pid) <==> GaveUp(replies)))
  }

  lemma Fate(s0: System, schedule: seq<Action>, pid: nat)
    requires IsInit(s0) && pid in Run(s0, schedule).p.rows
    ensures FateIs(Run(s0, schedule), pid, Replies(s0.p, PaymentTrace(s0, schedule), pid))
  {
    var flag := s0.p.schemaHasRefunding;
    var s, trace := Run(s0, schedule), PaymentTrace(s0, schedule);
    assert s0.p == PM.Init(flag);
    hide PI.Inv, Run, PM.Run, NotCharged, ChargedOnce, BeingCharged, ChargedForEver, NeverCharged, WasAccepted, GaveUp;
    TraceRuns(s0, schedule);
    PI.InitInv(flag);
    PI.RunInv(s0.p, trace);
    RepliesTell(flag, trace, pid);
    GaveUpIsOver(flag, trace, pid);
    StatusTells(s.p, pid);
    OnceOrNot(s.p, pid);
    ChargedForEverIff(s, pid);
    NeverChargedIff(s, pid);
    OnlyOneOutcome(Replies(s0.p, trace, pid));
  }

  lemma GaveUpIsOver(flag: bool, schedule: seq<PM.Action>, pid: nat)
    ensures GaveUp(Replies(PM.Init(flag), schedule, pid)) ==> !BeingCharged(PM.Run(PM.Init(flag), schedule), pid)
  {
    hide PI.Inv, PM.Run, NotCharged, Replies;
    var s, replies := PM.Run(PM.Init(flag), schedule), Replies(PM.Init(flag), schedule, pid);
    PI.InitInv(flag);
    InitHistory(flag, pid);
    RunHistory(PM.Init(flag), [], schedule, pid);
    assert [] + replies == replies;
    PI.RunInv(PM.Init(flag), schedule);
    forall u | u in s.threads && s.threads[u].PayCharge? && s.threads[u].copy.id == pid
      ensures !GaveUp(replies)
    {
      AttemptsLeft(s, u);
      assert ThreadHistory(s.threads[u], pid, replies);
    }
  }

  lemma AttemptsLeft(s: PM.State, u: nat)
    requires PI.Inv(s) && u in s.threads && s.threads[u].PayCharge?
    ensures s.threads[u].attempt < PM.MAX_ATTEMPTS
  {
    assert PI.ThreadOk(s.rows, s.ledger, s.threads[u]);
  }

  // ------------------------------------------------------------------
  // Confirmed, and completed
  // ------------------------------------------------------------------

  /** Every reservation that was ever confirmed has one booking payment, of the booking
      fee, on its own record. It is charged, once and for ever, exactly if the gateway
      accepted one of at most three attempts; it is settled without a charge exactly if
      all three were declined or the attempts were cancelled. */
  lemma ConfirmedMoney(s0: System, schedule: seq<Action>, id: string)
    requires IsInit(s0)
    requires var s := Run(s0, schedule); id in s.r.rows && s.r.rows[id].confirmedAt.Some?
    ensures var s := Run(s0, schedule);
            exists bid, pid ::
              && E2E.IsBookingOf(s.b.rows, s.p.rows, bid, pid, s.r.rows[id])
              && FateIs(s, pid, Replies(s0.p, PaymentTrace(s0, schedule), pid))
  {
    hide Inv, FateIs, Run;
    E2E.InitInv(s0);
    E2E.RunInv(s0, schedule);
    var bid, pid := E2E.ConfirmedIsBooked(Run(s0, schedule), id);
    Fate(s0, schedule, pid);
  }

  /** The same for the checkout payment of every completed reservation, over the total
      of its invoice. */
  lemma CompletedMoney(s0: System, schedule: seq<Action>, id: string)
    requires IsInit(s0)
    requires var s := Run(s0, schedule); id in s.r.rows && s.r.rows[id].status.Completed?
    ensures var s := Run(s0, schedule);
            exists bid, pid ::
              && E2E.IsInvoiceOf(s.b.rows, bid, s.r.rows[id])
              && E2E.IsPaymentOf(s.p.rows, pid, s.r.rows[id], bid, s.b.rows[bid].totalAmount)
              && FateIs(s, pid, Replies(s0.p, PaymentTrace(s0, schedule), pid))
  {
    hide Inv, FateIs, Run, E2E.IsInvoiceOf;
    E2E.InitInv(s0);
    E2E.RunInv(s0, schedule);
    var bid, pid := E2E.CompletedIsPaid(Run(s0, schedule), id);
    Fate(s0, schedule, pid);
  }
}
