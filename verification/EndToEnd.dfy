/** What holds across the three services: from the creation of a reservation to
    its completed checkout, bill and payment agree with what was parked. */
module EndToEnd {
  import opened Wrappers
  import opened ParkingSystem
  import Pricing
  import RMod = ReservationModel
  import RM = ReservationMachine
  import RI = ReservationInvariant
  import RT = ReservationTheorems
  import BM = BillingMachine
  import BI = BillingInvariant
  import BT = BillingTheorems
  import PM = PaymentMachine
  import PI = PaymentInvariant
  import PT = PaymentTheorems

  // ------------------------------------------------------------------
  // Links between the tables
  // ------------------------------------------------------------------

  ghost predicate Billed(b: BM.Rows, r: string) {
    BM.ReservationTaken(b, r)
  }

  /** The record `id` is reservation r's invoice over `total`. */
  predicate InvoicedTotal(b: BM.Rows, id: nat, r: string, total: int) {
    id in b && b[id].reservationId == r && b[id].status.Invoiced? && b[id].totalAmount == total
  }

  /** The bill is reservation r's invoice. */
  predicate InvoicedBill(b: BM.Rows, bill: RM.Bill, r: string) {
    && bill.recordId in b && b[bill.recordId].reservationId == r && b[bill.recordId].status.Invoiced?
    && bill == ToBill(b[bill.recordId])
  }

  predicate RecordOf(b: BM.Rows, id: nat, r: string) {
    id in b && b[id].reservationId == r
  }

  predicate PaidBy(p: PI.Rows, pid: nat, r: string) {
    pid in p && p[pid].key == CheckoutKey(r)
  }

  predicate BookedBy(p: PI.Rows, pid: nat, r: string) {
    pid in p && p[pid].key == BookingKey(r)
  }

  /** A payment under a checkout key is for that reservation's invoice, one under a
      booking payment key for the booking fee on that reservation's record. */
  predicate OwnPay(b: BM.Rows, key: string, billingId: nat, amount: int) {
    && (IsCheckoutKey(key) ==>
          InvoicedTotal(b, billingId, key[|CHECKOUT_PAYMENT_PREFIX|..], amount) && Pricing.AmountAccepted(amount))
    && (IsBookingKey(key) ==>
          RecordOf(b, billingId, key[|BOOKING_PAYMENT_PREFIX|..]) && amount == Pricing.BOOKING_FEE)
  }

  predicate FeesOf(row: RM.Reservation, rec: BM.Record) {
    if rec.status.Pending? then rec.parkingFee == 0 && rec.overnightFee == 0 && rec.version == 0
    else
      && row.checkedInAt.Some? && row.checkedOutAt.Some?
      && var fee := Pricing.CalculateSessionFee(row.checkedInAt.value, row.checkedOutAt.value);
         rec.parkingFee == fee.parkingFee && rec.overnightFee == fee.overnightFee
         && rec.billedHours == fee.billedHours && rec.durationMinutes == fee.durationMinutes
  }

  predicate RecordLinked(r: RM.Rows, rec: BM.Record) {
    && rec.reservationId in r
    && rec.bookingFee == Pricing.BOOKING_FEE
    && (rec.key == BILLING_PREFIX + rec.reservationId || rec.key == CHECKIN_PREFIX + rec.reservationId)
    && FeesOf(r[rec.reservationId], rec)
  }

  ghost predicate RowLinked(b: BM.Rows, p: PI.Rows, row: RM.Reservation) {
    && (row.confirmedAt.Some? ==> Billed(b, row.id) && exists pid :: BookedBy(p, pid, row.id))
    && (row.status.Completed? ==> exists pid :: PaidBy(p, pid, row.id))
  }

  ghost predicate TablesLinked(r: RM.Rows, b: BM.Rows, p: PI.Rows) {
    && (forall id :: id in b ==> RecordLinked(r, b[id]))
    && (forall id :: id in r ==> RowLinked(b, p, r[id]))
    && (forall id :: id in p ==> OwnPay(b, p[id].key, p[id].billingId, p[id].amount))
  }

  // ------------------------------------------------------------------
  // Links between requests and tables
  // ------------------------------------------------------------------

  function ReqOf(th: BM.Thread): Option<BM.Request> {
    if th.Crashed? then None else Some(th.req)
  }

  function PayReqOf(th: PM.Thread): Option<PM.PayRequest> {
    if th.PayLookup? || th.PayInsert? || th.PayRefetch? || th.PayCharge? || th.PayMarkFailed?
       || th.PayMarkSuccess? || th.PayDone?
    then Some(th.req) else None
  }

  /** The billing service is only ever asked what is right for the reservation: a
      zero booking fee only once there is a record, and fees only for the
      reservation's own times. */
  ghost predicate ReqLinked(r: RM.Rows, b: BM.Rows, req: BM.Request) {
    match req
    case StartBilling(id, fee, key) =>
      && id in r
      && ((fee == Pricing.BOOKING_FEE && key == BILLING_PREFIX + id)
          || (fee == 0 && key == CHECKIN_PREFIX + id && Billed(b, id)))
    case CalculateFee(id, checkIn, checkOut) =>
      id in r && r[id].checkedInAt == Some(checkIn) && r[id].checkedOutAt == Some(checkOut)
    case GenerateInvoice(_) => true
    case ApplyOvernightFee(_, _) => false
  }

  ghost predicate BThreadLinked(r: RM.Rows, b: BM.Rows, th: BM.Thread) {
    && (ReqOf(th).Some? ==> ReqLinked(r, b, ReqOf(th).value))
    && (th.Done? && th.result.Some? ==>
          var rec := th.result.value;
          && rec.id in b && b[rec.id].reservationId == th.req.reservationId
          && (th.req.GenerateInvoice? ==> rec.status.Invoiced? && b[rec.id] == rec))
  }

  predicate PThreadLinked(b: BM.Rows, th: PM.Thread) {
    PayReqOf(th).Some? ==> OwnPay(b, th.req.key, th.req.billingId, th.req.amount)
  }

  ghost predicate RThreadLinked(b: BM.Rows, p: PI.Rows, th: RM.Thread) {
    match th
    case ConfirmPay(copy, bill) => RecordOf(b, bill.recordId, copy.id)
    case ConfirmTxn(copy, pid) => Billed(b, copy.id) && BookedBy(p, pid, copy.id)
    case CheckInBill(copy) => Billed(b, copy.id)
    case CompletePay(copy, bill) => InvoicedBill(b, bill, copy.id)
    case CompleteTxn(copy, bill, pid) => InvoicedBill(b, bill, copy.id) && PaidBy(p, pid, copy.id)
    case CheckOutDone(copy, bill, payment) =>
      InvoicedBill(b, bill, copy.id) && (payment.Some? ==> PaidBy(p, payment.value, copy.id))
    case _ => true
  }

  ghost predicate ThreadsLinked(s: System) {
    && (forall t :: t in s.r.threads ==> RThreadLinked(s.b.rows, s.p.rows, s.r.threads[t]))
    && (forall u :: u in s.b.threads ==> BThreadLinked(s.r.rows, s.b.rows, s.b.threads[u]))
    && (forall u :: u in s.p.threads ==> PThreadLinked(s.b.rows, s.p.threads[u]))
  }

  /** An outstanding call still carries the request its caller made. */
  predicate BillingCallOk(r: map<nat, RM.Thread>, b: map<nat, BM.Thread>, t: nat, u: nat) {
    && t in r && u in b
    && (r[t].Crashed?
        || (BillingRequest(r[t]).Some? && (b[u].Crashed? || ReqOf(b[u]) == BillingRequest(r[t]))))
  }

  /** A payment request that refunds payment pid and no other, or has done so. */
  predicate RefundOf(th: PM.Thread, pid: nat) {
    match th
    case RefundLookup(id, refundKey) => id == pid && refundKey == ""
    case RefundRead(id) => id == pid
    case RefundLock(copy) => copy.id == pid
    case RefundCall(copy, _) => copy.id == pid
    case RefundRevert(copy) => copy.id == pid
    case RefundMark(copy) => copy.id == pid
    case RefundDone(None) => true
    case RefundDone(Some(p)) => p.id == pid && p.status.Refunded?
    case Crashed => true
    case _ => false
  }

  predicate PaymentCallOk(r: map<nat, RM.Thread>, p: map<nat, PM.Thread>, t: nat, u: nat) {
    && t in r && u in p
    && (r[t].Crashed?
        || (r[t].ConfirmRefund? && RefundOf(p[u], r[t].pid))
        || (ChargeRequest(r[t]).Some? && (p[u].Crashed? || PayReqOf(p[u]) == ChargeRequest(r[t]))))
  }

  predicate CallsLinked(s: System) {
    && (forall t :: t in s.billingCalls ==> BillingCallOk(s.r.threads, s.b.threads, t, s.billingCalls[t]))
    && (forall t :: t in s.paymentCalls ==> PaymentCallOk(s.r.threads, s.p.threads, t, s.paymentCalls[t]))
  }

  ghost predicate Inv(s: System) {
    && RI.Inv(s.r) && BI.Inv(s.b) && PI.Inv(s.p)
    && TablesLinked(s.r.rows, s.b.rows, s.p.rows)
    && ThreadsLinked(s)
    && CallsLinked(s)
  }

  // ------------------------------------------------------------------
  // The links last as the tables grow
  // ------------------------------------------------------------------

  predicate RLater(r: RM.Rows, r': RM.Rows) {
    forall id :: id in r ==> id in r' && RI.Later(r[id], r'[id])
  }

  /** Records keep what identifies them, and invoices change no more. */
  predicate BLater(b: BM.Rows, b': BM.Rows) {
    forall id :: id in b ==>
      && id in b' && b'[id].reservationId == b[id].reservationId
      && (b[id].status.Invoiced? ==> b'[id] == b[id])
  }

  predicate PLater(p: PI.Rows, p': PI.Rows) {
    forall id :: id in p ==>
      id in p' && p'[id].key == p[id].key && p'[id].amount == p[id].amount && p'[id].billingId == p[id].billingId
  }

  lemma RecordIsBill(b: BM.Rows, id: nat, r: string)
    requires RecordOf(b, id, r)
    ensures Billed(b, r)
  {
  }

  lemma BilledLasts(b: BM.Rows, b': BM.Rows, r: string)
    requires BLater(b, b') && Billed(b, r)
    ensures Billed(b', r)
  {
    var id :| id in b && b[id].reservationId == r;
    assert id in b' && b'[id].reservationId == r;
  }

  lemma RThreadLasts(b: BM.Rows, p: PI.Rows, b': BM.Rows, p': PI.Rows, th: RM.Thread)
    requires BLater(b, b') && PLater(p, p') && RThreadLinked(b, p, th)
    ensures RThreadLinked(b', p', th)
  {
    hide Billed;
    if th.ConfirmTxn? || th.CheckInBill? {
      BilledLasts(b, b', th.copy.id);
    }
  }

  lemma ReqLasts(r: RM.Rows, b: BM.Rows, r': RM.Rows, b': BM.Rows, req: BM.Request)
    requires RLater(r, r') && BLater(b, b') && ReqLinked(r, b, req)
    ensures ReqLinked(r', b', req)
  {
    hide Billed;
    if req.StartBilling? && Billed(b, req.reservationId) {
      BilledLasts(b, b', req.reservationId);
    }
  }

  lemma BThreadLasts(r: RM.Rows, b: BM.Rows, r': RM.Rows, b': BM.Rows, th: BM.Thread)
    requires RLater(r, r') && BLater(b, b') && BThreadLinked(r, b, th)
    ensures BThreadLinked(r', b', th)
  {
    hide RLater, ReqLinked;
    if ReqOf(th).Some? {
      ReqLasts(r, b, r', b', ReqOf(th).value);
    }
  }

  lemma RowLasts(b: BM.Rows, p: PI.Rows, b': BM.Rows, p': PI.Rows, row: RM.Reservation)
    requires BLater(b, b') && PLater(p, p') && RowLinked(b, p, row)
    ensures RowLinked(b', p', row)
  {
    hide Billed;
    if row.confirmedAt.Some? {
      BilledLasts(b, b', row.id);
      var pid :| BookedBy(p, pid, row.id);
      assert BookedBy(p', pid, row.id);
    }
    if row.status.Completed? {
      var pid :| PaidBy(p, pid, row.id);
      assert PaidBy(p', pid, row.id);
    }
  }

  lemma RecordLasts(r: RM.Rows, r': RM.Rows, rec: BM.Record)
    requires RLater(r, r') && RecordLinked(r, rec)
    ensures RecordLinked(r', rec)
  {
  }

  lemma OwnPayLasts(b: BM.Rows, b': BM.Rows, key: string, billingId: nat, amount: int)
    requires BLater(b, b') && OwnPay(b, key, billingId, amount)
    ensures OwnPay(b', key, billingId, amount)
  {
  }

  /** All thread links at once. */
  lemma ThreadsLast(s: System, s': System)
    requires ThreadsLinked(s)
    requires RLater(s.r.rows, s'.r.rows) && BLater(s.b.rows, s'.b.rows) && PLater(s.p.rows, s'.p.rows)
    requires forall t :: t in s'.r.threads ==>
               (t in s.r.threads && s'.r.threads[t] == s.r.threads[t]) || RThreadLinked(s'.b.rows, s'.p.rows, s'.r.threads[t])
    requires forall u :: u in s'.b.threads ==>
               (u in s.b.threads && s'.b.threads[u] == s.b.threads[u]) || BThreadLinked(s'.r.rows, s'.b.rows, s'.b.threads[u])
    requires forall u :: u in s'.p.threads ==>
               (u in s.p.threads && s'.p.threads[u] == s.p.threads[u]) || PThreadLinked(s'.b.rows, s'.p.threads[u])
    ensures ThreadsLinked(s')
  {
    hide RThreadLinked, BThreadLinked, RLater, PLater, BLater, OwnPay;
    forall t | t in s'.r.threads
      ensures RThreadLinked(s'.b.rows, s'.p.rows, s'.r.threads[t])
    {
      if t in s.r.threads && s'.r.threads[t] == s.r.threads[t] {
        RThreadLasts(s.b.rows, s.p.rows, s'.b.rows, s'.p.rows, s.r.threads[t]);
      }
    }
    forall u | u in s'.b.threads
      ensures BThreadLinked(s'.r.rows, s'.b.rows, s'.b.threads[u])
    {
      if u in s.b.threads && s'.b.threads[u] == s.b.threads[u] {
        BThreadLasts(s.r.rows, s.b.rows, s'.r.rows, s'.b.rows, s.b.threads[u]);
      }
    }
    forall u | u in s'.p.threads
      ensures PThreadLinked(s'.b.rows, s'.p.threads[u])
    {
      if u in s.p.threads && s'.p.threads[u] == s.p.threads[u] && PayReqOf(s.p.threads[u]).Some? {
        var req := s.p.threads[u].req;
        OwnPayLasts(s.b.rows, s'.b.rows, req.key, req.billingId, req.amount);
      }
    }
  }

  /** All table links at once. */
  lemma TablesLast(r: RM.Rows, b: BM.Rows, p: PI.Rows, r': RM.Rows, b': BM.Rows, p': PI.Rows)
    requires TablesLinked(r, b, p) && RLater(r, r') && BLater(b, b') && PLater(p, p')
    requires forall id :: id in b' ==> (id in b && b'[id] == b[id]) || RecordLinked(r', b'[id])
    requires forall id :: id in r' ==> (id in r && r'[id] == r[id]) || RowLinked(b', p', r'[id])
    requires forall id :: id in p' ==> id in p || OwnPay(b', p'[id].key, p'[id].billingId, p'[id].amount)
    ensures TablesLinked(r', b', p')
  {
    hide RecordLinked, RowLinked, RLater, BLater, OwnPay;
    forall id | id in b'
      ensures RecordLinked(r', b'[id])
    {
      if id in b && b'[id] == b[id] {
        RecordLasts(r, r', b[id]);
      }
    }
    forall id | id in r'
      ensures RowLinked(b', p', r'[id])
    {
      if id in r && r'[id] == r[id] {
        RowLasts(b, p, b', p', r[id]);
      }
    }
    forall id | id in p'
      ensures OwnPay(b', p'[id].key, p'[id].billingId, p'[id].amount)
    {
      if id in p {
        OwnPayLasts(b, b', p[id].key, p[id].billingId, p[id].amount);
      }
    }
  }

  // ------------------------------------------------------------------
  // Idempotency keys name their reservation
  // ------------------------------------------------------------------

  lemma PrefixCancels(prefix: string, x: string, y: string)
    requires prefix + x == prefix + y
    ensures x == y
  {
    assert x == (prefix + x)[|prefix|..];
    assert y == (prefix + y)[|prefix|..];
  }

  lemma KeyNamesReservation(x: string, y: string)
    ensures BILLING_PREFIX + x == BILLING_PREFIX + y ==> x == y
    ensures CHECKIN_PREFIX + x == CHECKIN_PREFIX + y ==> x == y
    ensures BILLING_PREFIX + x != CHECKIN_PREFIX + y
  {
    assert (BILLING_PREFIX + x)[0] == 'b' && (CHECKIN_PREFIX + y)[0] == 'c';
    if BILLING_PREFIX + x == BILLING_PREFIX + y {
      PrefixCancels(BILLING_PREFIX, x, y);
    }
    if CHECKIN_PREFIX + x == CHECKIN_PREFIX + y {
      PrefixCancels(CHECKIN_PREFIX, x, y);
    }
  }

  lemma PaymentKeyNamesReservation(x: string)
    ensures IsCheckoutKey(CheckoutKey(x)) && CheckoutKey(x)[|CHECKOUT_PAYMENT_PREFIX|..] == x
    ensures IsBookingKey(BookingKey(x)) && BookingKey(x)[|BOOKING_PAYMENT_PREFIX|..] == x
    ensures !IsCheckoutKey(BookingKey(x)) && !IsBookingKey(CheckoutKey(x))
  {
    assert BookingKey(x)[0] == 'b' && CheckoutKey(x)[0] == 'p';
  }

  // ------------------------------------------------------------------
  // A step of the billing service
  // ------------------------------------------------------------------

  lemma BillingIsLocal(b: BM.State, a: BM.Action, u: nat)
    requires u in b.threads
    ensures var b' := BM.Step(b, a);
            && u in b'.threads
            && (u != a.t ==> b'.threads[u] == b.threads[u])
            && (b'.threads[u].Crashed? || ReqOf(b'.threads[u]) == ReqOf(b.threads[u]))
  {
  }

  lemma ModifiedLinked(r: RM.Rows, b: BM.Rows, req: BM.Request, base: BM.Record, now: int)
    requires ReqLinked(r, b, req) && RecordLinked(r, base) && BM.Applies(req, base) && base.reservationId == req.reservationId
    ensures RecordLinked(r, BM.Modified(req, base, now)) && !base.status.Invoiced?
    ensures BM.Modified(req, base, now).reservationId == base.reservationId
    ensures req.GenerateInvoice? ==> BM.Modified(req, base, now).status.Invoiced?
  {
    hide Billed;
  }

  lemma BillingUpdateLinks(r: RM.Rows, b: BM.State, a: BM.Action)
    requires BI.Inv(b) && a.Update? && a.t in b.threads && b.threads[a.t].WriteBack?
    requires BThreadLinked(r, b.rows, b.threads[a.t])
    requires forall id :: id in b.rows ==> RecordLinked(r, b.rows[id])
    ensures var b' := BM.Step(b, a);
            && BLater(b.rows, b'.rows)
            && (forall id :: id in b'.rows ==> (id in b.rows && b'.rows[id] == b.rows[id]) || RecordLinked(r, b'.rows[id]))
            && BThreadLinked(r, b'.rows, b'.threads[a.t])
  {
    hide BI.RowsOk, BI.Unique, BI.Replay, BI.RecordOk, BI.HistoryOk, Billed, BI.Atomic, RecordLinked, ReqLinked;
    var th := b.threads[a.t];
    assert BI.ThreadOk(b.rows, th);
    if a.write.TakesEffect() && BM.Matches(b.rows, th.base) {
      BI.MatchingVersionIsAtomic(b.rows, b.log, th.req, th.base, a.now);
      var rec := BM.Modified(th.req, th.base, a.now);
      assert RecordLinked(r, b.rows[th.base.id]);
      ModifiedLinked(r, b.rows, th.req, th.base, a.now);
      assert BM.Step(b, a).rows == b.rows[rec.id := rec];
      ReqLasts(r, b.rows, r, BM.Step(b, a).rows, th.req) by {
        LaterReflexive(r);
      }
    }
  }

  lemma LaterReflexive(r: RM.Rows)
    ensures RLater(r, r)
  {
  }

  lemma BillingInsertLinks(r: RM.Rows, b: BM.State, a: BM.Action)
    requires BI.Inv(b) && a.Insert? && a.t in b.threads && b.threads[a.t].StartInsert?
    requires BThreadLinked(r, b.rows, b.threads[a.t])
    ensures var b' := BM.Step(b, a);
            && BLater(b.rows, b'.rows)
            && (forall id :: id in b'.rows ==> (id in b.rows && b'.rows[id] == b.rows[id]) || RecordLinked(r, b'.rows[id]))
            && BThreadLinked(r, b'.rows, b'.threads[a.t])
  {
    hide BI.RowsOk, BI.Unique, BI.Replay;
    var th := b.threads[a.t];
    assert BI.ThreadOk(b.rows, th);
    var b' := BM.Step(b, a);
    assert BLater(b.rows, b'.rows);
    ReqLasts(r, b.rows, r, b'.rows, th.req) by {
      LaterReflexive(r);
    }
  }

  /** The other steps of a billing request read only; what they return belongs to
      the reservation they were asked about. */
  lemma BillingReadLinks(r: RM.Rows, b: BM.State, a: BM.Action)
    requires BI.Inv(b) && !a.Begin? && !a.Update? && !a.Insert? && a.t in b.threads
    requires BThreadLinked(r, b.rows, b.threads[a.t])
    requires forall id :: id in b.rows ==> RecordLinked(r, b.rows[id])
    ensures BM.Step(b, a).rows == b.rows
    ensures BThreadLinked(r, b.rows, BM.Step(b, a).threads[a.t])
  {
    hide BI.Unique, BI.Replay, BI.RecordOk, BI.HistoryOk, Billed;
    var th := b.threads[a.t];
    assert BI.ThreadOk(b.rows, th);
    if a.LookupKey? && th.StartByKey? {
      var found := BM.FindByKey(b.rows, th.req.key);
      if found.Some? {
        KeyNamesReservation(th.req.reservationId, found.value.reservationId);
        KeyNamesReservation(found.value.reservationId, th.req.reservationId);
      }
    }
  }

  lemma BillingStepLinks(s: System, a: BM.Action)
    requires Inv(s)
    requires a.Begin? ==> ReqLinked(s.r.rows, s.b.rows, a.req)
    ensures Inv(s.(b := BM.Step(s.b, a)))
  {
    hide RI.Inv, BI.Inv, PI.Inv, TablesLinked, CallsLinked, ReqLinked, RLater, BLater, PLater, RThreadLinked;
    var s' := s.(b := BM.Step(s.b, a));
    BI.StepInv(s.b, a);
    BillingTables(s, a);
    Reflexive(s);
    TablesLast(s.r.rows, s.b.rows, s.p.rows, s.r.rows, s'.b.rows, s.p.rows);
    forall u | u in s'.b.threads
      ensures (u in s.b.threads && s'.b.threads[u] == s.b.threads[u]) || BThreadLinked(s.r.rows, s'.b.rows, s'.b.threads[u])
    {
      BillingThread(s, a, u);
    }
    ThreadsLast(s, s');
    BillingCallsLast(s, a);
  }

  lemma Reflexive(s: System)
    ensures RLater(s.r.rows, s.r.rows) && BLater(s.b.rows, s.b.rows) && PLater(s.p.rows, s.p.rows)
  {
  }

  lemma BillingTables(s: System, a: BM.Action)
    requires Inv(s)
    ensures var b' := BM.Step(s.b, a);
            && BLater(s.b.rows, b'.rows)
            && forall id :: id in b'.rows ==>
                 (id in s.b.rows && b'.rows[id] == s.b.rows[id]) || RecordLinked(s.r.rows, b'.rows[id])
  {
    hide RI.Inv, BI.Inv, PI.Inv, CallsLinked, RecordLinked, BThreadLinked, RThreadLinked, RowLinked, BLater;
    Reflexive(s);
    if a.t in s.b.threads && !a.Begin? {
      var th := s.b.threads[a.t];
      assert BThreadLinked(s.r.rows, s.b.rows, th);
      if a.Update? && th.WriteBack? {
        BillingUpdateLinks(s.r.rows, s.b, a);
      } else if a.Insert? && th.StartInsert? {
        BillingInsertLinks(s.r.rows, s.b, a);
      } else if !a.Update? && !a.Insert? {
        BillingReadLinks(s.r.rows, s.b, a);
      }
    }
  }

  lemma BillingThread(s: System, a: BM.Action, u: nat)
    requires Inv(s) && u in BM.Step(s.b, a).threads
    requires a.Begin? ==> ReqLinked(s.r.rows, s.b.rows, a.req)
    ensures var b' := BM.Step(s.b, a);
            (u in s.b.threads && b'.threads[u] == s.b.threads[u]) || BThreadLinked(s.r.rows, b'.rows, b'.threads[u])
  {
    hide RI.Inv, BI.Inv, PI.Inv, CallsLinked, RecordLinked, BThreadLinked, RThreadLinked, RowLinked, ReqLinked;
    if u in s.b.threads && u != a.t {
      BillingIsLocal(s.b, a, u);
    } else if a.Begin? {
      if a.t !in s.b.threads {
        BeganLinked(s, a);
      }
    } else if a.t in s.b.threads {
      var th := s.b.threads[a.t];
      assert BThreadLinked(s.r.rows, s.b.rows, th);
      if a.Update? && th.WriteBack? {
        BillingUpdateLinks(s.r.rows, s.b, a);
      } else if a.Insert? && th.StartInsert? {
        BillingInsertLinks(s.r.rows, s.b, a);
      } else if !a.Update? && !a.Insert? {
        BillingReadLinks(s.r.rows, s.b, a);
      }
    }
  }

  lemma BeganLinked(s: System, a: BM.Action)
    requires a.Begin? && a.t !in s.b.threads && ReqLinked(s.r.rows, s.b.rows, a.req)
    ensures BM.Step(s.b, a).rows == s.b.rows
    ensures BThreadLinked(s.r.rows, s.b.rows, BM.Step(s.b, a).threads[a.t])
  {
    hide ReqLinked;
  }

  lemma BillingCallsLast(s: System, a: BM.Action)
    requires CallsLinked(s)
    ensures CallsLinked(s.(b := BM.Step(s.b, a)))
  {
    forall t | t in s.billingCalls
      ensures BillingCallOk(s.r.threads, BM.Step(s.b, a).threads, t, s.billingCalls[t])
    {
      BillingIsLocal(s.b, a, s.billingCalls[t]);
    }
  }

  // ------------------------------------------------------------------
  // A step of the payment service
  // ------------------------------------------------------------------

  /** A request that already runs keeps its parameters to the end. */
  predicate SameCall(th: PM.Thread, th': PM.Thread) {
    && (PayReqOf(th).Some? ==> th'.Crashed? || PayReqOf(th') == PayReqOf(th))
    && (th.Crashed? ==> th'.Crashed?)
    && (PayReqOf(th).None? ==> PayReqOf(th').None?)
  }

  lemma PayStepKeepsCall(p: PM.State, a: PM.Action)
    requires a.t in p.threads && PM.IsPayAction(a)
    ensures var p' := PM.PayStep(p, p.threads[a.t], a);
            a.t in p'.threads && SameCall(p.threads[a.t], p'.threads[a.t])
  {
    hide PM.UpdateRow, PM.KeyTaken, PM.NewPayment;
  }

  lemma RefundStaysOf(p: PM.State, a: PM.Action, u: nat, pid: nat)
    requires u in p.threads && RefundOf(p.threads[u], pid) && (pid in p.rows ==> p.rows[pid].id == pid)
    ensures var p' := PM.Step(p, a); u in p'.threads && RefundOf(p'.threads[u], pid)
  {
    if u != a.t {
      hide PM.Step;
      PT.OthersStay(p, a, u);
    } else {
      hide PM.UpdateRow, PM.UpdateRowIfStatus, PM.Refunded1, PM.StatusAllowed, PM.FindByKey;
    }
  }

  lemma RefundStepKeepsCall(p: PM.State, a: PM.Action)
    requires a.t in p.threads
    ensures var p' := PM.RefundStep(p, p.threads[a.t], a);
            a.t in p'.threads && SameCall(p.threads[a.t], p'.threads[a.t])
  {
    hide PM.UpdateRow, PM.UpdateRowIfStatus, PM.Refunded1, PM.StatusAllowed;
  }

  lemma PaymentIsLocal(p: PM.State, a: PM.Action, u: nat)
    requires u in p.threads
    ensures var p' := PM.Step(p, a);
            && u in p'.threads
            && (u != a.t ==> p'.threads[u] == p.threads[u])
            && SameCall(p.threads[u], p'.threads[u])
  {
    if u != a.t {
      hide PM.Step;
      PT.OthersStay(p, a, u);
    } else if !a.BeginPay? && !a.BeginRefund? {
      hide PM.PayStep, PM.RefundStep;
      if PM.IsPayAction(a) {
        PayStepKeepsCall(p, a);
      } else {
        RefundStepKeepsCall(p, a);
      }
    }
  }

  lemma PaymentEnters(p: PM.State, a: PM.Action, u: nat)
    requires u !in p.threads && u in PM.Step(p, a).threads
    ensures a.BeginPay? || a.BeginRefund?
    ensures PM.Step(p, a).threads[u] == if a.BeginPay? then PM.PayLookup(a.req) else PM.RefundLookup(a.pid, a.refundKey)
  {
    hide PM.UpdateRow, PM.UpdateRowIfStatus, PM.Refunded1, PM.KeyTaken, PM.StatusAllowed, PM.Written, PM.NewPayment;
  }

  /** A row that appears carries the request of the thread that inserted it. */
  lemma NewPaymentFromRequest(p: PM.State, a: PM.Action, id: nat)
    requires id in PM.Step(p, a).rows && id !in p.rows
    ensures a.t in p.threads && PayReqOf(p.threads[a.t]).Some?
    ensures var row, req := PM.Step(p, a).rows[id], p.threads[a.t].req;
            row.key == req.key && row.billingId == req.billingId && row.amount == req.amount
  {
  }

  lemma PaymentTables(s: System, a: PM.Action)
    requires Inv(s)
    ensures var p' := PM.Step(s.p, a);
            && PLater(s.p.rows, p'.rows)
            && forall id :: id in p'.rows ==>
                 id in s.p.rows || OwnPay(s.b.rows, p'.rows[id].key, p'.rows[id].billingId, p'.rows[id].amount)
  {
    hide RI.Inv, BI.Inv, PI.Inv, CallsLinked, RecordLinked, BThreadLinked, RThreadLinked, RowLinked, OwnPay, PM.Step;
    var p' := PM.Step(s.p, a);
    forall id | id in s.p.rows
      ensures id in p'.rows && p'.rows[id].key == s.p.rows[id].key && p'.rows[id].amount == s.p.rows[id].amount
              && p'.rows[id].billingId == s.p.rows[id].billingId
    {
      PT.StepEvolves(s.p, a, id);
    }
    forall id | id in p'.rows && id !in s.p.rows
      ensures OwnPay(s.b.rows, p'.rows[id].key, p'.rows[id].billingId, p'.rows[id].amount)
    {
      NewPaymentFromRequest(s.p, a, id);
      assert PThreadLinked(s.b.rows, s.p.threads[a.t]);
    }
  }

  lemma PaymentStepLinks(s: System, a: PM.Action)
    requires Inv(s)
    requires a.BeginPay? ==> OwnPay(s.b.rows, a.req.key, a.req.billingId, a.req.amount)
    ensures Inv(s.(p := PM.Step(s.p, a)))
  {
    hide RI.Inv, BI.Inv, PI.Inv, TablesLinked, CallsLinked, RLater, BLater, PLater, RThreadLinked, BThreadLinked, OwnPay;
    var s' := s.(p := PM.Step(s.p, a));
    PI.StepInv(s.p, a);
    PaymentTables(s, a);
    Reflexive(s);
    TablesLast(s.r.rows, s.b.rows, s.p.rows, s.r.rows, s.b.rows, s'.p.rows);
    forall u | u in s'.p.threads
      ensures (u in s.p.threads && s'.p.threads[u] == s.p.threads[u]) || PThreadLinked(s.b.rows, s'.p.threads[u])
    {
      PaymentThread(s, a, u);
    }
    ThreadsLast(s, s');
    PaymentsCarryIds(s);
    PaymentCallsLast(s, a);
  }

  lemma PaymentThread(s: System, a: PM.Action, u: nat)
    requires ThreadsLinked(s) && u in PM.Step(s.p, a).threads
    requires a.BeginPay? ==> OwnPay(s.b.rows, a.req.key, a.req.billingId, a.req.amount)
    ensures var p' := PM.Step(s.p, a);
            (u in s.p.threads && p'.threads[u] == s.p.threads[u]) || PThreadLinked(s.b.rows, p'.threads[u])
  {
    hide OwnPay, RThreadLinked, BThreadLinked, PM.Step;
    if u in s.p.threads {
      PaymentIsLocal(s.p, a, u);
      assert PThreadLinked(s.b.rows, s.p.threads[u]);
    } else {
      PaymentEnters(s.p, a, u);
    }
  }

  lemma PaymentCallsLast(s: System, a: PM.Action)
    requires CallsLinked(s) && forall id :: id in s.p.rows ==> s.p.rows[id].id == id
    ensures CallsLinked(s.(p := PM.Step(s.p, a)))
  {
    hide PM.Step;
    forall t | t in s.paymentCalls
      ensures PaymentCallOk(s.r.threads, PM.Step(s.p, a).threads, t, s.paymentCalls[t])
    {
      PaymentIsLocal(s.p, a, s.paymentCalls[t]);
      if s.r.threads[t].ConfirmRefund? {
        RefundStaysOf(s.p, a, s.paymentCalls[t], s.r.threads[t].pid);
      }
    }
  }

  lemma PaymentsCarryIds(s: System)
    requires Inv(s)
    ensures forall id :: id in s.p.rows ==> s.p.rows[id].id == id
  {
  }

  // ------------------------------------------------------------------
  // A step of the reservation service
  // ------------------------------------------------------------------

  lemma ReservationIsLocal(r: RM.State, a: RM.Action, t: nat)
    requires t in r.threads
    ensures var r' := RM.Step(r, a);
            && t in r'.threads
            && (a.Tick? || t != a.t ==> r'.threads[t] == r.threads[t])
            && (r.threads[t].Crashed? && OwnStep(a) ==> r'.threads[t].Crashed?)
            && ((AwaitsBilling(r.threads[t]) || AwaitsPayment(r.threads[t])) && OwnStep(a) ==>
                  r'.threads[t] == r.threads[t] || r'.threads[t].Crashed?)
  {
    if a.Tick? || t != a.t {
      hide RM.Step;
      RT.OthersStay(r, a, t);
    }
  }

  lemma ReservationTables(s: System, a: RM.Action)
    requires Inv(s)
    ensures var r' := RM.Step(s.r, a);
            && RLater(s.r.rows, r'.rows)
            && forall id :: id in r'.rows ==>
                 (id in s.r.rows && r'.rows[id] == s.r.rows[id]) || RowLinked(s.b.rows, s.p.rows, r'.rows[id])
  {
    hide BI.Inv, PI.Inv, RI.Inv, CallsLinked, RecordLinked, BThreadLinked, RowLinked, OwnPay, RM.Step, RI.Later;
    var r' := RM.Step(s.r, a);
    forall id | id in s.r.rows
      ensures id in r'.rows && RI.Later(s.r.rows[id], r'.rows[id])
    {
      RT.EveryChangeIsAnEdge(s.r, a, id);
    }
    if RI.Writes(a) && a.t in s.r.threads {
      forall id | id in r'.rows
        ensures RowLinked(s.b.rows, s.p.rows, r'.rows[id])
      {
        assert id in s.r.rows ==> RowLinked(s.b.rows, s.p.rows, s.r.rows[id]);
        ReservationRow(s.r, s.b.rows, s.p.rows, a, id);
      }
    } else {
      NoThreadNoWrite(s.r, a);
    }
  }

  lemma NoThreadNoWrite(r: RM.State, a: RM.Action)
    requires !(RI.Writes(a) && a.t in r.threads)
    ensures RM.Step(r, a).rows == r.rows
  {
  }

  /** A write that neither confirms nor completes asks nothing of the others. */
  lemma PlainRow(b: BM.Rows, p: PI.Rows, was: RM.Reservation, row: RM.Reservation)
    requires RowLinked(b, p, was) && row.id == was.id && row.confirmedAt == was.confirmedAt && !row.status.Completed?
    ensures RowLinked(b, p, row)
  {
    hide Billed;
  }

  lemma UndoneRow(r: RM.State, b: BM.Rows, p: PI.Rows, t: nat, copy: RM.Reservation, write: Write, next: RM.Thread, id: string)
    requires RI.RowsOk(r.rows, r.spots, r.now) && (id in r.rows ==> RowLinked(b, p, r.rows[id]))
    ensures var r' := RM.DoUndo(r, t, copy, write, next);
            id in r'.rows ==> RowLinked(b, p, r'.rows[id])
  {
    hide RI.RowShape, RowLinked;
    var r' := RM.DoUndo(r, t, copy, write, next);
    if id in r.rows && r'.rows[id] != r.rows[id] {
      PlainRow(b, p, r.rows[id], r'.rows[id]);
    }
  }

  lemma MovedRow(r: RM.State, b: BM.Rows, p: PI.Rows, a: RM.Action, id: string)
    requires RI.RowsOk(r.rows, r.spots, r.now) && (id in r.rows ==> RowLinked(b, p, r.rows[id]))
    requires a.Move? && a.t in r.threads && r.threads[a.t].MoveTxn?
    ensures var th := r.threads[a.t];
            var r' := RM.DoMove(r, a.t, th.kind, th.id, th.caller, a.write);
            id in r'.rows ==> RowLinked(b, p, r'.rows[id])
  {
    hide RI.RowShape, RowLinked, RM.SpotsAfter, RM.AfterMove, RMod.ValidateTransition;
    var th := r.threads[a.t];
    var r' := RM.DoMove(r, a.t, th.kind, th.id, th.caller, a.write);
    if id in r.rows && r'.rows[id] != r.rows[id] {
      PlainRow(b, p, r.rows[id], r'.rows[id]);
    }
  }

  lemma ConfirmedRow(r: RM.State, b: BM.Rows, p: PI.Rows, a: RM.Action, id: string)
    requires RI.RowsOk(r.rows, r.spots, r.now) && (id in r.rows ==> RowLinked(b, p, r.rows[id]))
    requires a.Confirm? && a.t in r.threads && r.threads[a.t].ConfirmTxn?
    requires RThreadLinked(b, p, r.threads[a.t])
    ensures var th := r.threads[a.t];
            var r' := RM.DoConfirm(r, a.t, th.copy, th.pid, a.write);
            id in r'.rows ==> RowLinked(b, p, r'.rows[id])
  {
    hide RI.RowShape, Billed;
    var th := r.threads[a.t];
    assert BookedBy(p, th.pid, th.copy.id);
  }

  lemma CompletedRow(r: RM.State, b: BM.Rows, p: PI.Rows, a: RM.Action, id: string)
    requires RI.RowsOk(r.rows, r.spots, r.now) && (id in r.rows ==> RowLinked(b, p, r.rows[id]))
    requires a.Complete? && a.t in r.threads && r.threads[a.t].CompleteTxn?
    requires RThreadLinked(b, p, r.threads[a.t])
    ensures var th := r.threads[a.t];
            var r' := RM.DoComplete(r, a.t, th.copy, th.bill, th.pid, a.write);
            id in r'.rows ==> RowLinked(b, p, r'.rows[id])
  {
    hide RI.RowShape, Billed;
    var th := r.threads[a.t];
    assert PaidBy(p, th.pid, th.copy.id);
  }

  lemma CreatedRow(r: RM.State, b: BM.Rows, p: PI.Rows, a: RM.Action, id: string)
    requires a.Create? && a.t in r.threads && r.threads[a.t].CreateTxn?
    requires id in r.rows ==> RowLinked(b, p, r.rows[id])
    ensures var r' := RM.DoCreate(r, a.t, r.threads[a.t], a.id, a.write, a.driverIndexFirst);
            id in r'.rows ==> RowLinked(b, p, r'.rows[id])
  {
    hide Billed, RM.CreateVerdict;
  }

  /** Confirming needs a bill and completing needs a payment; no other write does. */
  lemma ReservationRow(r: RM.State, b: BM.Rows, p: PI.Rows, a: RM.Action, id: string)
    requires RI.Inv(r) && RI.Writes(a) && a.t in r.threads && RThreadLinked(b, p, r.threads[a.t])
    requires id in r.rows ==> RowLinked(b, p, r.rows[id])
    requires id in RM.Step(r, a).rows
    ensures RowLinked(b, p, RM.Step(r, a).rows[id])
  {
    hide RI.RowsOk, RI.KeysUnique, RI.SpotsOk, RI.ThreadsOk, RowLinked, RThreadLinked,
         RM.DoCreate, RM.DoUndo, RM.DoMove, RM.DoConfirm, RM.DoComplete;
    var th := r.threads[a.t];
    if a.Create? && th.CreateTxn? {
      CreatedRow(r, b, p, a, id);
    } else if a.Undo? && (th.CreateUndo? || th.ConfirmUndo?) {
      var next := if th.CreateUndo? then RM.CreateDone(th.req, None) else RM.Done(None);
      assert RM.Step(r, a) == RM.DoUndo(r, a.t, th.copy, a.write, next);
      UndoneRow(r, b, p, a.t, th.copy, a.write, next, id);
    } else if a.Move? && th.MoveTxn? {
      MovedRow(r, b, p, a, id);
    } else if a.Confirm? && th.ConfirmTxn? {
      ConfirmedRow(r, b, p, a, id);
    } else if a.Complete? && th.CompleteTxn? {
      CompletedRow(r, b, p, a, id);
    }
  }

  /** The program points whose locals say something about another service, or that
      will ask billing for a fee. */
  predicate Relies(th: RM.Thread) {
    th.ConfirmPay? || th.ConfirmTxn? || th.CheckInBill? || th.CheckOutFee? || th.CompletePay? || th.CompleteTxn?
    || th.CheckOutDone?
  }

  /** A request that has just completed its reservation answers with what it went by. */
  predicate JustCompleted(r: RM.State, th: RM.Thread, th': RM.Thread) {
    && th.CompleteTxn? && th.copy.id in r.rows
    && th'.CheckOutDone? && th'.bill == th.bill && th'.payment == Some(th.pid) && th'.copy.id == r.rows[th.copy.id].id
  }

  /** A check-in or check-out of reservation `th.id`, seen just after its transaction. */
  predicate JustMoved(r: RM.State, th: RM.Thread, th': RM.Thread) {
    && th.MoveTxn? && (th.kind.CheckIn? || th.kind.CheckOut?)
    && th.id in r.rows && RMod.Edge(r.rows[th.id].status, RM.Target(th.kind))
    && th' == RM.AfterMove(th.kind, RM.Moved(th.kind, r.rows[th.id], r.now))
  }

  lemma WriteStepRely(r: RM.State, a: RM.Action)
    requires RI.Writes(a) && !a.Move? && a.t in r.threads
    ensures var th' := RM.ThreadStep(r, r.threads[a.t], a).threads[a.t];
            th' == r.threads[a.t] || !Relies(th') || JustCompleted(r, r.threads[a.t], th')
  {
    hide RM.UpdateSpot, RM.UpdateReservation, RM.CreateVerdict, RM.NewReservation;
  }

  lemma MoveStepRely(r: RM.State, a: RM.Action)
    requires a.Move? && a.t in r.threads
    ensures var th, th' := r.threads[a.t], RM.ThreadStep(r, r.threads[a.t], a).threads[a.t];
            || th' == th
            || !Relies(th')
            || JustMoved(r, th, th')
  {
    hide RM.UpdateSpot, RM.UpdateReservation, RM.SpotsAfter, RMod.ValidateTransition;
  }

  lemma WritersAreKnown(r: RM.State, a: RM.Action, t: nat)
    requires RI.Writes(a) && a.t in r.threads && t !in r.threads
    ensures t !in RM.ThreadStep(r, r.threads[a.t], a).threads
  {
    hide RM.UpdateSpot, RM.UpdateReservation, RM.CreateVerdict, RM.NewReservation, RM.SpotsAfter, RM.Moved, RM.AfterMove;
  }

  /** By its own steps a request gets to such a point only by checking in or out, or
      at the very end. */
  lemma OwnStepsRely(r: RM.State, a: RM.Action, t: nat)
    requires OwnStep(a) && t in RM.Step(r, a).threads
    ensures var r' := RM.Step(r, a);
            || (t in r.threads && r'.threads[t] == r.threads[t])
            || !Relies(r'.threads[t])
            || (t in r.threads && (JustMoved(r, r.threads[t], r'.threads[t]) || JustCompleted(r, r.threads[t], r'.threads[t])))
  {
    hide RM.FirstAvailable, RM.DoCreate, RM.DoMove, RM.DoUndo, RM.DoConfirm, RM.DoComplete, JustMoved, JustCompleted;
    if t in r.threads && (a.Tick? || t != a.t) {
      RT.OthersStay(r, a, t);
    } else if RI.Writes(a) && a.t in r.threads {
      if t !in r.threads {
        WritersAreKnown(r, a, t);
      } else if a.Move? {
        MoveStepRely(r, a);
      } else {
        WriteStepRely(r, a);
      }
    }
  }

  lemma ReservationThread(s: System, a: RM.Action, t: nat)
    requires Inv(s) && OwnStep(a) && t in RM.Step(s.r, a).threads
    ensures var r' := RM.Step(s.r, a);
            (t in s.r.threads && r'.threads[t] == s.r.threads[t]) || RThreadLinked(s.b.rows, s.p.rows, r'.threads[t])
  {
    hide RI.Inv, BI.Inv, PI.Inv, TablesLinked, CallsLinked, RecordLinked, OwnPay, Billed, PaidBy, InvoicedBill, BThreadLinked, PThreadLinked, RM.Step;
    OwnStepsRely(s.r, a, t);
    var th' := RM.Step(s.r, a).threads[t];
    if Relies(th') && !(t in s.r.threads && th' == s.r.threads[t]) {
      var th := s.r.threads[t];
      if th.CompleteTxn? {
        assert RThreadLinked(s.b.rows, s.p.rows, th);
        RowsCarryIds(s);
      } else if th.kind.CheckIn? {
        CheckedInWasBilled(s, th.id);
      }
    }
  }

  lemma RowsCarryIds(s: System)
    requires Inv(s)
    ensures forall id :: id in s.r.rows ==> s.r.rows[id].id == id
  {
  }

  lemma CheckedInWasBilled(s: System, id: string)
    requires Inv(s) && id in s.r.rows && RMod.Edge(s.r.rows[id].status, RMod.CheckedIn)
    ensures Billed(s.b.rows, id) && s.r.rows[id].id == id
  {
    hide RI.KeysUnique, RI.SpotsOk, RI.ThreadsOk, BI.Inv, PI.Inv, ThreadsLinked, CallsLinked, RecordLinked, OwnPay;
    RMod.EdgesDescend(s.r.rows[id].status, RMod.CheckedIn);
    assert RI.RowShape(s.r.rows[id], s.r.now);
    assert RowLinked(s.b.rows, s.p.rows, s.r.rows[id]);
  }

  lemma ReservationStepLinks(s: System, a: RM.Action)
    requires Inv(s) && OwnStep(a)
    ensures Inv(s.(r := RM.Step(s.r, a)))
  {
    hide RI.Inv, BI.Inv, PI.Inv, TablesLinked, CallsLinked, RLater, BLater, PLater, RThreadLinked, BThreadLinked, OwnPay, RM.Step;
    var s' := s.(r := RM.Step(s.r, a));
    RI.StepInv(s.r, a);
    ReservationTables(s, a);
    Reflexive(s);
    TablesLast(s.r.rows, s.b.rows, s.p.rows, s'.r.rows, s.b.rows, s.p.rows);
    forall t | t in s'.r.threads
      ensures (t in s.r.threads && s'.r.threads[t] == s.r.threads[t]) || RThreadLinked(s.b.rows, s.p.rows, s'.r.threads[t])
    {
      ReservationThread(s, a, t);
    }
    ThreadsLast(s, s');
    ReservationCallsLast(s, a);
  }

  lemma ReservationCallsLast(s: System, a: RM.Action)
    requires CallsLinked(s) && OwnStep(a)
    ensures CallsLinked(s.(r := RM.Step(s.r, a)))
  {
    hide RM.Step;
    forall t | t in s.billingCalls
      ensures BillingCallOk(RM.Step(s.r, a).threads, s.b.threads, t, s.billingCalls[t])
    {
      ReservationIsLocal(s.r, a, t);
    }
    forall t | t in s.paymentCalls
      ensures PaymentCallOk(RM.Step(s.r, a).threads, s.p.threads, t, s.paymentCalls[t])
    {
      ReservationIsLocal(s.r, a, t);
    }
  }
}
