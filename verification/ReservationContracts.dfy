/** What a request of the reservation service promises, written out in terms of the
    tables, the calls it makes to the other services, and its answer. */
module ReservationContracts {
  import opened Wrappers
  import opened ReservationModel
  import opened ReservationMachine
  import opened ReservationInvariant
  import BM = BillingMachine
  import PM = PaymentMachine
  import RT = ReservationTheorems

  // ------------------------------------------------------------------
  // The environment of a request
  // ------------------------------------------------------------------

  /** What a request asks of billing and payment. */
  datatype Call = AskBilling(bill: BM.Request) | AskPayment(pay: PM.PayRequest) | AskRefund(payment: nat)

  /** The reads and locks that may fail on their own. */
  datatype Fault = KeyLookup | SpotQuery | SpotLock | FirstRead | KeyRefetch

  /** Anything may happen; or the database fails as told, in the reads of `faults`, the
      request's own transaction and the one that undoes it, and the other two services
      answer as told. Other requests may still interfere, unless it is alone. */
  datatype Env =
    | Stormy
    | Told(alone: bool, faults: set<Fault>, commit: Write, undo: Write,
           billing: BM.Request -> Option<Bill>, payment: PM.PayRequest -> Option<nat>)
  {
    predicate Alone() {
      Told? && alone
    }

    predicate Fails(fault: Fault) {
      Told? && fault in faults
    }

    function Commit(): Write {
      if Told? then commit else Applied
    }

    function Undo(): Write {
      if Told? then undo else Applied
    }
  }

  /** The tables and the clock. */
  datatype Tables = Tables(rows: Rows, spots: Spots, now: int)

  datatype CheckOutResponse = CheckOutResponse(reservation: Reservation, bill: Bill, payment: Option<nat>)

  // ------------------------------------------------------------------
  // One row and its spot
  // ------------------------------------------------------------------

  /** Only the status of one spot differs. */
  predicate SpotSet(spots: Spots, spots': Spots, spot: nat, st: SpotStatus) {
    && spots'.Keys == spots.Keys
    && forall q :: q in spots ==> spots'[q] == if q == spot then spots[q].(status := st) else spots[q]
  }

  /** The row takes the place of the one with its id, and its spot is set. */
  predicate RowAndSpot(z: Tables, z': Tables, r: Reservation, st: SpotStatus) {
    z'.rows == z.rows[r.id := r] && SpotSet(z.spots, z'.spots, r.spotId, st) && z'.now == z.now
  }

  /** A reservation that waited for payment is failed and its spot freed. */
  predicate FailedRow(z: Tables, z': Tables, id: string)
    requires id in z.rows
  {
    RowAndSpot(z, z', z.rows[id].(status := Failed, updatedAt := z.now), Available)
  }

  lemma WriteSpelled(s: State, r: Reservation, st: SpotStatus)
    requires r.id in s.rows && Written(s.rows[r.id], r) == r
    ensures UpdateReservation(s.rows, r) == s.rows[r.id := r]
    ensures RowAndSpot(Tables(s.rows, s.spots, s.now),
                       Tables(UpdateReservation(s.rows, r), UpdateSpot(s.spots, r.spotId, st), s.now), r, st)
  {
  }

  /** The five transactions on one row, spelled out: which status each asks for, what it
      stamps, and what becomes of the spot. */
  lemma MoveSpelled(s: State, kind: Kind, id: string)
    requires Inv(s) && id in s.rows
    ensures Edge(s.rows[id].status, Target(kind)) <==>
            match kind
            case Cancel => s.rows[id].status.WaitingPayment? || s.rows[id].status.Confirmed?
            case Expire => s.rows[id].status.Confirmed?
            case Fail => s.rows[id].status.WaitingPayment?
            case CheckIn => s.rows[id].status.Confirmed?
            case CheckOut => s.rows[id].status.CheckedIn?
    ensures Moved(kind, s.rows[id], s.now) ==
            match kind
            case Cancel => s.rows[id].(status := Cancelled, cancelledAt := Some(s.now), updatedAt := s.now)
            case Expire => s.rows[id].(status := Expired, updatedAt := s.now)
            case Fail => s.rows[id].(status := Failed, updatedAt := s.now)
            case CheckIn => s.rows[id].(status := CheckedIn, checkedInAt := Some(s.now), updatedAt := s.now)
            case CheckOut => s.rows[id].(status := CheckedOut, checkedOutAt := Some(s.now), updatedAt := s.now)
    ensures var r := Moved(kind, s.rows[id], s.now);
            var z, z' := Tables(s.rows, s.spots, s.now),
                         Tables(UpdateReservation(s.rows, r), SpotsAfter(kind, s.spots, r.spotId), s.now);
            match kind
            case CheckIn => RowAndSpot(z, z', r, Occupied)
            case CheckOut => z' == z.(rows := z.rows[id := r])
            case _ => RowAndSpot(z, z', r, Available)
  {
    hide KeysUnique, SpotsOk, ThreadsOk, RowShape;
    EdgesDescend(s.rows[id].status, Target(kind));
    var r := Moved(kind, s.rows[id], s.now);
    assert Written(s.rows[id], r) == r;
  }

  /** Confirming sets the confirmation's time and its expiry an hour later. */
  lemma ConfirmSpelled(rows: Rows, id: string, now: int)
    requires id in rows && rows[id].id == id
    ensures ConfirmedCopy(rows[id], now) ==
            rows[id].(status := Confirmed, confirmedAt := Some(now), expiresAt := Some(now + 3_600_000_000_000), updatedAt := now)
    ensures UpdateReservation(rows, ConfirmedCopy(rows[id], now)) == rows[id := ConfirmedCopy(rows[id], now)]
  {
    var r := ConfirmedCopy(rows[id], now);
    assert Written(rows[id], r) == r;
  }

  // ------------------------------------------------------------------
  // Creating
  // ------------------------------------------------------------------

  ghost predicate HasKey(rows: Rows, key: string) {
    exists id :: id in rows && rows[id].key == key
  }

  /** The driver has a reservation that is neither over nor checked out. */
  ghost predicate DriverBusy(rows: Rows, driver: nat) {
    exists id :: id in rows && rows[id].driverId == driver
                 && (rows[id].status.WaitingPayment? || rows[id].status.Confirmed? || rows[id].status.CheckedIn?)
  }

  predicate Free(spots: Spots, vt: VehicleType, spot: nat) {
    spot in spots && spots[spot].vehicleType == vt && spots[spot].status.Available?
  }

  predicate NoneAvailable(spots: Spots, vt: VehicleType) {
    forall q :: q in spots ==> !Free(spots, vt, q)
  }

  /** The lowest floor with a free spot, and the lowest number there. */
  predicate LowestFree(spots: Spots, vt: VehicleType, spot: nat) {
    && Free(spots, vt, spot)
    && forall q :: q in spots && Free(spots, vt, q) ==>
         && spots[spot].floor <= spots[q].floor
         && (spots[spot].floor == spots[q].floor ==> spots[spot].number <= spots[q].number)
  }

  lemma LowestIsFirst(spots: Spots, vt: VehicleType, spot: nat)
    ensures LowestFree(spots, vt, spot) <==> FirstAvailable(spots, vt, spot)
  {
    if FirstAvailable(spots, vt, spot) {
      forall q | q in spots && Free(spots, vt, q)
        ensures spots[spot].floor <= spots[q].floor
        ensures spots[spot].floor == spots[q].floor ==> spots[spot].number <= spots[q].number
      {
        assert !Before(spots[q], spots[spot]);
      }
    }
  }

  predicate Existing(rows: Rows, key: string, found: Option<Reservation>) {
    found.Some? && found.value.id in rows && rows[found.value.id] == found.value && found.value.key == key
  }

  /** The new row waits for payment on its reserved spot; billing is asked to start with
      the booking fee, and if it does not, the row is failed and the spot given back. */
  ghost predicate BooksAs(z: Tables, z': Tables, req: CreateRequest, spot: nat, env: Env, id: string,
                          calls: seq<Call>, result: Option<Reservation>)
    requires env.Told? && spot in z.spots
  {
    var r := Reservation(id, req.driverId, spot, req.vehicleType, req.mode, WaitingPayment, req.key,
                         None, None, None, None, None, z.now, z.now);
    var start := BM.StartBilling(id, 5_000, "billing-" + id);
    var booked := Tables(z.rows[id := r], z.spots[spot := z.spots[spot].(status := Reserved)], z.now);
    if env.commit.ReplyLost? then z' == booked && calls == [] && result.None?
    else
      && calls == [AskBilling(start)]
      && if env.billing(start).Some? then z' == booked && result == Some(r)
         else
           && result.None?
           && z' == if env.undo.NotApplied? then booked else Tables(z.rows[id := r.(status := Failed)], z.spots, z.now)
  }

  /** Only a spot the driver chose is compared with the vehicle. */
  predicate CanHave(spots: Spots, req: CreateRequest, spot: nat) {
    && spot in spots && spots[spot].status.Available?
    && (req.mode.UserSelected? ==> spots[spot].vehicleType == req.vehicleType)
  }

  ghost predicate Books(z: Tables, z': Tables, req: CreateRequest, spot: nat, env: Env,
                        calls: seq<Call>, result: Option<Reservation>)
    requires env.Told?
  {
    if env.Fails(SpotLock) || !CanHave(z.spots, req, spot) then z' == z && calls == [] && result.None?
    else if HasKey(z.rows, req.key) || DriverBusy(z.rows, req.driverId) then
      // both unique indexes may be violated at once, and either be reported
      && z' == z && calls == []
      && (result.Some? ==> !env.Fails(KeyRefetch) && Existing(z.rows, req.key, result))
      && (!DriverBusy(z.rows, req.driverId) && !env.Fails(KeyRefetch) ==> result.Some?)
    else if env.commit.NotApplied? then z' == z && calls == [] && result.None?
    else exists id :: id !in z.rows && BooksAs(z, z', req, spot, env, id, calls, result)
  }

  /** The answer is a new reservation of the driver, for which billing was asked to start. */
  predicate AskedToStart(req: CreateRequest, r: Reservation, calls: seq<Call>) {
    && r.driverId == req.driverId && r.status.WaitingPayment?
    && calls == [AskBilling(BM.StartBilling(r.id, 5_000, "billing-" + r.id))]
  }

  /** Failing the new row gives the spot back. */
  lemma UndoRestores(z: Tables, z': Tables, r: Reservation)
    requires r.spotId in z.spots && z.spots[r.spotId].status.Available? && r.updatedAt == z.now
    requires FailedRow(Tables(z.rows[r.id := r], z.spots[r.spotId := z.spots[r.spotId].(status := Reserved)], z.now), z', r.id)
    ensures z' == Tables(z.rows[r.id := r.(status := Failed)], z.spots, z.now)
  {
    assert z'.spots == z.spots;
  }

  /** The reservation is in the table and its spot reserved. */
  predicate Booked(z: Tables, z': Tables, req: CreateRequest, spot: nat, at: int, reservation: Reservation) {
    && reservation.id !in z.rows && spot in z.spots
    && reservation == Reservation(reservation.id, req.driverId, spot, req.vehicleType, req.mode, WaitingPayment, req.key,
                                  None, None, None, None, None, at, at)
    && z' == Tables(z.rows[reservation.id := reservation], z.spots[spot := z.spots[spot].(status := Reserved)], z.now)
  }

  lemma LostBooking(z: Tables, z': Tables, req: CreateRequest, spot: nat, env: Env, r: Reservation)
    requires env.Told? && env.commit.ReplyLost? && Booked(z, z', req, spot, z.now, r)
    ensures BooksAs(z, z', req, spot, env, r.id, [], None)
  {
  }

  /** With a bill the booking stands, without one it is undone. */
  lemma KeptBooking(z: Tables, booked: Tables, z': Tables, req: CreateRequest, spot: nat, env: Env, r: Reservation,
                    result: Option<Reservation>)
    requires env.Told? && env.commit.Applied? && Booked(z, booked, req, spot, z.now, r)
    requires spot in z.spots && z.spots[spot].status.Available?
    requires result == if env.billing(BM.StartBilling(r.id, 5_000, "billing-" + r.id)).Some? then Some(r) else None
    requires if result.Some? || env.undo.NotApplied? then z' == booked
             else r.id in booked.rows && FailedRow(booked, z', r.id)
    ensures BooksAs(z, z', req, spot, env, r.id, [AskBilling(BM.StartBilling(r.id, 5_000, "billing-" + r.id))], result)
  {
    if z' != booked {
      UndoRestores(z, z', r);
    }
  }

  ghost predicate CreatesNew(z: Tables, z': Tables, req: CreateRequest, env: Env, calls: seq<Call>, result: Option<Reservation>)
    requires env.Told?
  {
    match req.mode
    case OtherMode => z' == z && calls == [] && result.None?
    case UserSelected => Books(z, z', req, req.spotId, env, calls, result)
    case SystemAssigned =>
      if env.Fails(SpotQuery) || NoneAvailable(z.spots, req.vehicleType) then z' == z && calls == [] && result.None?
      else exists spot :: LowestFree(z.spots, req.vehicleType, spot) && Books(z, z', req, spot, env, calls, result)
  }

  /** A key that is found ends the request; a lookup that fails finds nothing. */
  ghost predicate Creates(z: Tables, z': Tables, req: CreateRequest, env: Env, calls: seq<Call>, result: Option<Reservation>)
    requires env.Told?
  {
    if !env.Fails(KeyLookup) && HasKey(z.rows, req.key) then z' == z && calls == [] && Existing(z.rows, req.key, result)
    else CreatesNew(z, z', req, env, calls, result)
  }

  /** The database's verdict on an insert, spelled out. An available spot has no
      reservation on it that could get in the way. */
  lemma VerdictSpelled(s: State, req: CreateRequest, spot: nat, driverIndexFirst: bool)
    requires Inv(s)
    ensures var verdict := CreateVerdict(s, req, spot, driverIndexFirst);
            if !CanHave(s.spots, req, spot) then verdict.Refused?
            else
              && (verdict.Inserts? <==> !HasKey(s.rows, req.key) && !DriverBusy(s.rows, req.driverId))
              && (verdict.Duplicate? ==> HasKey(s.rows, req.key))
              && (HasKey(s.rows, req.key) && !DriverBusy(s.rows, req.driverId) ==> verdict.Duplicate?)
  {
    hide RowsOk, KeysUnique, ThreadsOk;
    assert KeyTaken(s.rows, req.key) <==> HasKey(s.rows, req.key);
    assert DriverIndexed(s.rows, req.driverId) <==> DriverBusy(s.rows, req.driverId);
  }

  lemma FoundIsExisting(s: State, key: string)
    requires Inv(s)
    ensures FindByKey(s.rows, key).Some? <==> HasKey(s.rows, key)
    ensures FindByKey(s.rows, key).Some? ==> Existing(s.rows, key, FindByKey(s.rows, key))
  {
    hide SpotsOk, ThreadsOk, RowShape;
    FoundIsRow(s, key);
    assert KeyTaken(s.rows, key) <==> HasKey(s.rows, key);
  }

  // ------------------------------------------------------------------
  // Confirming
  // ------------------------------------------------------------------

  function BookingBill(id: string): BM.Request {
    BM.StartBilling(id, 5_000, "billing-" + id)
  }

  function BookingPayment(id: string, bill: Bill): PM.PayRequest {
    PM.PayRequest(bill.recordId, 5_000, "booking-payment-" + id)
  }

  /** The outcome of the confirming transaction on a row that waits. */
  ghost predicate ConfirmedOrNot(z: Tables, z': Tables, id: string, env: Env, result: Option<Reservation>)
    requires env.Told? && id in z.rows
  {
    if env.commit.NotApplied? then z' == z && result.None?
    else
      var r := z.rows[id].(status := Confirmed, confirmedAt := Some(z.now),
                           expiresAt := Some(z.now + 3_600_000_000_000), updatedAt := z.now);
      z' == z.(rows := z.rows[id := r]) && result == if env.commit.Applied? then Some(r) else None
  }

  /** The outcome for a reservation that waits for payment and may be confirmed. */
  ghost predicate Confirms(z: Tables, z': Tables, id: string, env: Env, calls: seq<Call>, result: Option<Reservation>)
    requires env.Told? && id in z.rows
  {
    match env.billing(BookingBill(id))
    case None => z' == z && calls == [AskBilling(BookingBill(id))] && result.None?
    case Some(bill) =>
      var pay := BookingPayment(id, bill);
      && calls == [AskBilling(BookingBill(id)), AskPayment(pay)]
      && if env.payment(pay).None? then result.None? && if env.undo.NotApplied? then z' == z else FailedRow(z, z', id)
         else ConfirmedOrNot(z, z', id, env, result)
  }

  /** Whoever interferes: a payment that was answered, but could not be turned into a
      confirmation, is asked to be refunded; and no other payment ever is. */
  ghost predicate PaysOrRefunds(id: string, env: Env, calls: seq<Call>, result: Option<Reservation>)
    requires env.Told?
  {
    || (calls == [] && result.None?)
    || (calls == [AskBilling(BookingBill(id))] && env.billing(BookingBill(id)).None? && result.None?)
    || match env.billing(BookingBill(id))
       case None => false
       case Some(bill) =>
         var pay := BookingPayment(id, bill);
         match env.payment(pay)
         case None => calls == [AskBilling(BookingBill(id)), AskPayment(pay)] && result.None?
         case Some(pid) =>
           || (calls == [AskBilling(BookingBill(id)), AskPayment(pay)] && (result.Some? <==> env.commit.Applied?))
           || (calls == [AskBilling(BookingBill(id)), AskPayment(pay), AskRefund(pid)] && result.None?)
  }

  lemma UnbilledIs(z: Tables, id: string, env: Env)
    requires env.Told? && env.billing(BookingBill(id)).None?
    ensures PaysOrRefunds(id, env, [AskBilling(BookingBill(id))], None)
    ensures id in z.rows ==> Confirms(z, z, id, env, [AskBilling(BookingBill(id))], None)
  {
  }

  lemma UnpaidIs(z: Tables, z': Tables, id: string, env: Env, bill: Bill)
    requires env.Told? && env.billing(BookingBill(id)) == Some(bill) && env.payment(BookingPayment(id, bill)).None?
    ensures var calls := [AskBilling(BookingBill(id)), AskPayment(BookingPayment(id, bill))];
            && PaysOrRefunds(id, env, calls, None)
            && (id in z.rows && (if env.undo.NotApplied? then z' == z else FailedRow(z, z', id)) ==>
                  Confirms(z, z', id, env, calls, None))
  {
    hide FailedRow;
  }

  lemma PaidIs(z: Tables, z': Tables, id: string, env: Env, bill: Bill, pid: nat, refund: bool, result: Option<Reservation>)
    requires env.Told? && env.billing(BookingBill(id)) == Some(bill) && env.payment(BookingPayment(id, bill)) == Some(pid)
    requires if refund then result.None? else result.Some? <==> env.commit.Applied?
    ensures var calls := [AskBilling(BookingBill(id)), AskPayment(BookingPayment(id, bill))];
            && PaysOrRefunds(id, env, if refund then calls + [AskRefund(pid)] else calls, result)
            && (id in z.rows && ConfirmedOrNot(z, z', id, env, result) && !refund ==> Confirms(z, z', id, env, calls, result))
  {
    hide ConfirmedOrNot, FailedRow;
  }

  // ------------------------------------------------------------------
  // Checking out
  // ------------------------------------------------------------------

  /** Once the row is checked out: first the fee of its stay, then the invoice; the
      answer is the invoice, and without one there is no answer. */
  ghost predicate Invoices(row: Reservation, env: Env, calls: seq<Call>, result: Option<CheckOutResponse>)
    requires env.Told?
  {
    && row.checkedInAt.Some? && row.checkedOutAt.Some?
    && var fee, invoice := BM.CalculateFee(row.id, row.checkedInAt.value, row.checkedOutAt.value), BM.GenerateInvoice(row.id);
       if env.billing(fee).None? then calls == [AskBilling(fee)] && result.None?
       else
         && calls == [AskBilling(fee), AskBilling(invoice)]
         && result == match env.billing(invoice)
                      case None => None
                      case Some(bill) => Some(CheckOutResponse(row, bill, None))
  }

  function CheckoutPayment(id: string, bill: Bill): PM.PayRequest {
    PM.PayRequest(bill.recordId, bill.totalAmount, "payment-" + id)
  }

  /** The calls of a completion: the invoice, and then its payment. */
  function CompletionCalls(id: string, env: Env): seq<Call>
    requires env.Told?
  {
    [AskBilling(BM.GenerateInvoice(id))]
    + match env.billing(BM.GenerateInvoice(id))
      case None => []
      case Some(bill) => [AskPayment(CheckoutPayment(id, bill))]
  }

  function CompletionPayment(id: string, env: Env): Option<nat>
    requires env.Told?
  {
    match env.billing(BM.GenerateInvoice(id))
    case None => None
    case Some(bill) => env.payment(CheckoutPayment(id, bill))
  }

  /** The outcome for a checked-out reservation. */
  ghost predicate Completes(z: Tables, z': Tables, id: string, env: Env, result: Option<CheckOutResponse>)
    requires env.Told? && id in z.rows
  {
    if CompletionPayment(id, env).None? || env.commit.NotApplied? then z' == z && result.None?
    else
      var r := z.rows[id].(status := Completed, updatedAt := z.now);
      && RowAndSpot(z, z', r, Available)
      && result == if env.commit.ReplyLost? then None
                   else Some(CheckOutResponse(r, env.billing(BM.GenerateInvoice(id)).value, CompletionPayment(id, env)))
  }

  lemma CompletesIs(z: Tables, z': Tables, id: string, env: Env, bill: Bill, pid: nat, result: Option<Reservation>)
    requires env.Told? && id in z.rows
    requires env.billing(BM.GenerateInvoice(id)) == Some(bill) && env.payment(CheckoutPayment(id, bill)) == Some(pid)
    requires if env.commit.NotApplied? then z' == z && result.None?
             else
               var r := z.rows[id].(status := Completed, updatedAt := z.now);
               RowAndSpot(z, z', r, Available) && result == if env.commit.Applied? then Some(r) else None
    ensures Completes(z, z', id, env,
                      match result case None => None case Some(r) => Some(CheckOutResponse(r, bill, Some(pid))))
  {
    hide RowAndSpot;
  }

  lemma NotCompleted(z: Tables, id: string, env: Env)
    requires env.Told? && id in z.rows && CompletionPayment(id, env).None?
    ensures Completes(z, z, id, env, None)
  {
  }

  lemma CompletionCallsAre(id: string, env: Env)
    requires env.Told?
    ensures match env.billing(BM.GenerateInvoice(id))
            case None => CompletionCalls(id, env) == [AskBilling(BM.GenerateInvoice(id))] && CompletionPayment(id, env).None?
            case Some(bill) =>
              && CompletionCalls(id, env) == [AskBilling(BM.GenerateInvoice(id)), AskPayment(CheckoutPayment(id, bill))]
              && CompletionPayment(id, env) == env.payment(CheckoutPayment(id, bill))
  {
  }
}
