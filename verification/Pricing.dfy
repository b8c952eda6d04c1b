/** The billing service's price list: a session is charged per started hour plus
    a fee for every WIB (UTC+7) midnight it crosses. Instants are integers:
    nanoseconds since the epoch, UTC. */
module Pricing {

  const BOOKING_FEE: int := 5_000
  const HOURLY_RATE: int := 5_000
  const OVERNIGHT_PER_NIGHT: int := 20_000
  /** The payment handler's upper bound on one payment. */
  const MAX_PAYMENT_AMOUNT: int := 100_000_000

  const MINUTE: int := 60_000_000_000
  const HOUR: int := 3_600_000_000_000
  const DAY: int := 86_400_000_000_000
  const WIB_OFFSET: int := 25_200_000_000_000
  const TWO_63: int := 0x8000_0000_0000_0000
  const TWO_64: int := 0x1_0000_0000_0000_0000
  const MAX_DURATION: int := TWO_63 - 1

  /** A 64-bit signed integer, wrapping around. */
  function AsInt64(x: int): int {
    (x + TWO_63) % TWO_64 - TWO_63
  }

  /** Subtraction of two instants saturates at the ends of a 64-bit duration. */
  function Sub(a: int, b: int): int {
    if a - b > MAX_DURATION then MAX_DURATION
    else if a - b < -TWO_63 then -TWO_63
    else a - b
  }

  datatype FeeResult = FeeResult(
    parkingFee: int,
    overnightFee: int,
    nightsCrossed: int,
    durationMinutes: int,
    billedHours: int,
    isOvernight: bool)

  const NO_FEE := FeeResult(0, 0, 0, 0, 0, false)

  /** Hours billed for a positive duration, given what the conversion of the
      duration to whole hours returned. */
  function BilledHours(duration: int, wholeHours: int): int {
    var h := if duration > wholeHours * HOUR then wholeHours + 1 else wholeHours;
    if h < 1 then 1 else h
  }

  /** Calendar day in WIB; Dafny's division by a positive number floors. */
  function DayIndex(t: int): int {
    (t + WIB_OFFSET) / DAY
  }

  /** The instant of the WIB midnight that starts day d. */
  function Midnight(d: int): int {
    d * DAY - WIB_OFFSET
  }

  function CountMidnightsCrossed(start: int, end: int): int {
    var span := Sub(Midnight(DayIndex(end)), Midnight(DayIndex(start)));
    // Go's division truncates toward zero; negative results are cut off to 0.
    if span < 0 then 0 else span / DAY
  }

  function CalculateSessionFee(checkIn: int, checkOut: int): FeeResult {
    if !(checkOut > checkIn) then NO_FEE
    else
      var duration := Sub(checkOut, checkIn);
      var billed := BilledHours(duration, duration / HOUR);
      var nights := CountMidnightsCrossed(checkIn, checkOut);
      FeeResult(billed * HOURLY_RATE, OVERNIGHT_PER_NIGHT * nights, nights,
                duration / MINUTE, billed, nights > 0)
  }

  function CalculateTotal(bookingFee: int, parkingFee: int, overnightFee: int): int {
    AsInt64(bookingFee + parkingFee + overnightFee)
  }

  /** The payment handler's guard on an amount. */
  predicate AmountAccepted(amount: int) {
    0 < amount <= MAX_PAYMENT_AMOUNT
  }
}
