/** The three services together. A request of the reservation service that waits
    for billing or payment may start one request there; that request then lives
    its own life, and may go on after its caller has given up on it. */
module ParkingSystem {
  import opened Wrappers
  import Pricing
  import RM = ReservationMachine
  import BM = BillingMachine
  import PM = PaymentMachine

  datatype System = System(
    r: RM.State,
    b: BM.State,
    p: PM.State,
    billingCalls: map<nat, nat>,
    paymentCalls: map<nat, nat>)

  /** R, B and P are steps inside one service. */
  datatype Action =
    | R(ra: RM.Action)
    | B(ba: BM.Action)
    | P(pa: PM.Action)
    | CallBilling(t: nat, u: nat)
    | BillingAnswer(t: nat, ok: bool)
    | CallPayment(t: nat, u: nat)
    | PaymentAnswer(t: nat, ok: bool)

  // ------------------------------------------------------------------
  // Idempotency keys
  // ------------------------------------------------------------------

  const BILLING_PREFIX := "billing-"
  const CHECKIN_PREFIX := "checkin-billing-"
  const BOOKING_PAYMENT_PREFIX := "booking-payment-"
  const CHECKOUT_PAYMENT_PREFIX := "payment-"

  function CheckoutKey(reservationId: string): string {
    CHECKOUT_PAYMENT_PREFIX + reservationId
  }

  function BookingKey(reservationId: string): string {
    BOOKING_PAYMENT_PREFIX + reservationId
  }

  predicate IsBookingKey(key: string) {
    BOOKING_PAYMENT_PREFIX <= key
  }

  predicate IsCheckoutKey(key: string) {
    CHECKOUT_PAYMENT_PREFIX <= key
  }

  // ------------------------------------------------------------------
  // Calls
  // ------------------------------------------------------------------

  /** The billing request that a waiting reservation request makes. */
  function BillingRequest(th: RM.Thread): Option<BM.Request> {
    match th
    case CreateBill(_, copy) => Some(BM.StartBilling(copy.id, Pricing.BOOKING_FEE, BILLING_PREFIX + copy.id))
    case ConfirmBill(copy) => Some(BM.StartBilling(copy.id, Pricing.BOOKING_FEE, BILLING_PREFIX + copy.id))
    case CheckInBill(copy) => Some(BM.StartBilling(copy.id, 0, CHECKIN_PREFIX + copy.id))
    case CheckOutFee(copy) =>
      if copy.checkedInAt.Some? && copy.checkedOutAt.Some?
      then Some(BM.CalculateFee(copy.id, copy.checkedInAt.value, copy.checkedOutAt.value)) else None
    case CheckOutInvoice(copy) => Some(BM.GenerateInvoice(copy.id))
    case CompleteInvoice(copy) => Some(BM.GenerateInvoice(copy.id))
    case _ => None
  }

  /** The charge that a waiting reservation request asks for; the payment service's
      handler turns away amounts out of range before anything else happens. */
  function ChargeRequest(th: RM.Thread): Option<PM.PayRequest> {
    match th
    case ConfirmPay(copy, bill) =>
      Some(PM.PayRequest(bill.recordId, Pricing.BOOKING_FEE, BookingKey(copy.id)))
    case CompletePay(copy, bill) =>
      if Pricing.AmountAccepted(bill.totalAmount)
      then Some(PM.PayRequest(bill.recordId, bill.totalAmount, CheckoutKey(copy.id))) else None
    case _ => None
  }

  function ToBill(rec: BM.Record): RM.Bill {
    RM.Bill(rec.id, rec.bookingFee, rec.parkingFee, rec.overnightFee, rec.totalAmount)
  }

  /** What the callee answered, if it has; other outcomes reach the caller as errors. */
  function BillingResult(s: System, t: nat): Option<RM.Bill> {
    if t in s.billingCalls && s.billingCalls[t] in s.b.threads then
      match s.b.threads[s.billingCalls[t]]
      case Done(_, Some(rec)) => Some(ToBill(rec))
      case _ => None
    else None
  }

  function PaymentResult(s: System, t: nat): Option<nat> {
    if t in s.paymentCalls && s.paymentCalls[t] in s.p.threads then
      match s.p.threads[s.paymentCalls[t]]
      case PayDone(_, Some(payment)) => Some(payment.id)
      case RefundDone(Some(payment)) => Some(payment.id)
      case _ => None
    else None
  }

  /** Requests that reach billing and payment from elsewhere: invoices may be asked
      for by anyone, payments may be made under any key that is neither a checkout nor
      a booking payment key, and any payment may be refunded. Fees are set by this system alone. */
  predicate OutsideBilling(a: BM.Action) {
    a.Begin? ==> a.req.GenerateInvoice?
  }

  predicate OutsidePayment(a: PM.Action) {
    a.BeginPay? ==> !IsCheckoutKey(a.req.key) && !IsBookingKey(a.req.key)
  }

  predicate OwnStep(a: RM.Action) {
    !a.BillingReply? && !a.PaymentReply?
  }

  // ------------------------------------------------------------------
  // Steps
  // ------------------------------------------------------------------

  ghost function DoCallBilling(s: System, t: nat, u: nat): System {
    if t in s.r.threads && BillingRequest(s.r.threads[t]).Some? && t !in s.billingCalls && u !in s.b.threads
    then s.(b := BM.Step(s.b, BM.Begin(u, BillingRequest(s.r.threads[t]).value)),
            billingCalls := s.billingCalls[t := u])
    else s
  }

  predicate AwaitsBilling(th: RM.Thread) {
    BillingRequest(th).Some? || th.CheckOutFee?
  }

  predicate AwaitsPayment(th: RM.Thread) {
    th.ConfirmPay? || th.CompletePay? || th.ConfirmRefund?
  }

  /** An answer, or at any time an error: time-out, open circuit, lost reply. */
  ghost function DoBillingAnswer(s: System, t: nat, ok: bool): System {
    if t in s.r.threads && AwaitsBilling(s.r.threads[t]) && (ok ==> BillingResult(s, t).Some?)
    then s.(r := RM.Step(s.r, RM.BillingReply(t, if ok then BillingResult(s, t) else None)),
            billingCalls := s.billingCalls - {t})
    else s
  }

  ghost function DoCallPayment(s: System, t: nat, u: nat): System {
    if t in s.r.threads && t !in s.paymentCalls && u !in s.p.threads then
      var th := s.r.threads[t];
      if ChargeRequest(th).Some? then
        s.(p := PM.Step(s.p, PM.BeginPay(u, ChargeRequest(th).value)), paymentCalls := s.paymentCalls[t := u])
      else if th.ConfirmRefund? then
        s.(p := PM.Step(s.p, PM.BeginRefund(u, th.pid, "")), paymentCalls := s.paymentCalls[t := u])
      else s
    else s
  }

  ghost function DoPaymentAnswer(s: System, t: nat, ok: bool): System {
    if t in s.r.threads && AwaitsPayment(s.r.threads[t]) && (ok ==> PaymentResult(s, t).Some?)
    then s.(r := RM.Step(s.r, RM.PaymentReply(t, if ok then PaymentResult(s, t) else None)),
            paymentCalls := s.paymentCalls - {t})
    else s
  }

  ghost function Step(s: System, a: Action): System {
    match a
    case R(ra) => if OwnStep(ra) then s.(r := RM.Step(s.r, ra)) else s
    case B(ba) => if OutsideBilling(ba) then s.(b := BM.Step(s.b, ba)) else s
    case P(pa) => if OutsidePayment(pa) then s.(p := PM.Step(s.p, pa)) else s
    case CallBilling(t, u) => DoCallBilling(s, t, u)
    case BillingAnswer(t, ok) => DoBillingAnswer(s, t, ok)
    case CallPayment(t, u) => DoCallPayment(s, t, u)
    case PaymentAnswer(t, ok) => DoPaymentAnswer(s, t, ok)
  }

  predicate IsInit(s: System) {
    RM.IsInit(s.r) && s.b == BM.INIT && s.p == PM.Init(s.p.schemaHasRefunding)
    && s.billingCalls == map[] && s.paymentCalls == map[]
  }

  ghost function Run(s: System, schedule: seq<Action>): System
    decreases |schedule|
  {
    if schedule == [] then s else Run(Step(s, schedule[0]), schedule[1..])
  }

  // ------------------------------------------------------------------
  // Reachability
  // ------------------------------------------------------------------

  ghost predicate Reaches(s: System, s': System) {
    exists schedule: seq<Action> :: Run(s, schedule) == s'
  }

  lemma {:induction false} RunAppend(s: System, one: seq<Action>, two: seq<Action>)
    ensures Run(s, one + two) == Run(Run(s, one), two)
    decreases |one|
  {
    hide Step;
    if one == [] {
      assert one + two == two;
    } else {
      assert (one + two)[0] == one[0] && (one + two)[1..] == one[1..] + two;
      RunAppend(Step(s, one[0]), one[1..], two);
    }
  }

  lemma ReachesItself(s: System)
    ensures Reaches(s, s)
  {
    assert Run(s, []) == s;
  }

  lemma ReachesStep(s: System, s': System, a: Action)
    requires Reaches(s, s')
    ensures Reaches(s, Step(s', a))
  {
    hide Step;
    var schedule :| Run(s, schedule) == s';
    RunAppend(s, schedule, [a]);
    assert Run(s', [a]) == Run(Step(s', a), []);
  }

  lemma ReachesOn(s: System, s1: System, s2: System)
    requires Reaches(s, s1) && Reaches(s1, s2)
    ensures Reaches(s, s2)
  {
    hide Step;
    var one :| Run(s, one) == s1;
    var two :| Run(s1, two) == s2;
    RunAppend(s, one, two);
  }
}
