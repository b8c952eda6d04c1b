/** Laws of the price list that no single function states. */
module PricingLaws {
  import opened Pricing

  /** Durations saturate at the end of their 64 bits, about 292 years: that many whole
      nights, and started hours, can be told apart. */
  const MAX_NIGHTS: int := 106_751
  const MAX_HOURS: int := 2_562_048

  function Min(x: int, y: int): int {
    if x < y then x else y
  }

  function Fee(a: int, b: int): int {
    CalculateSessionFee(a, b).parkingFee + CalculateSessionFee(a, b).overnightFee
  }

  /** c is the ceiling of d over one hour. */
  predicate IsCeilingHours(d: int, c: int) {
    (c - 1) * 3_600_000_000_000 < d <= c * 3_600_000_000_000
  }

  // ------------------------------------------------------------------
  // Rounding
  // ------------------------------------------------------------------

  /** Whether the floating-point conversion truncates to the floor or has
      already been rounded up to the ceiling, the billed hours are the ceiling,
      which is unique; so the final maximum with 1 never acts. */
  lemma BilledHoursIsCeiling(d: int, wholeHours: int, c: int)
    requires d > 0
    requires wholeHours == d / HOUR || IsCeilingHours(d, wholeHours)
    ensures IsCeilingHours(d, BilledHours(d, wholeHours))
    ensures IsCeilingHours(d, c) <==> c == BilledHours(d, wholeHours)
    ensures BilledHours(d, wholeHours) == if d > wholeHours * HOUR then wholeHours + 1 else wholeHours
  {
    if wholeHours == d / HOUR {
      assert d == wholeHours * HOUR + d % HOUR;
    }
  }

  // ------------------------------------------------------------------
  // Midnights
  // ------------------------------------------------------------------

  /** Reference definition: walk the midnights after start one by one. */
  function WalkMidnights(start: int, end: int): (n: nat)
    decreases end - start
  {
    var next := Midnight(DayIndex(start) + 1);
    NextMidnight(start);
    if next > end then 0 else 1 + WalkMidnights(next, end)
  }

  /** Midnight(DayIndex(t) + 1) is the first midnight strictly after t: the next instant
      that is seven hours before a midnight of UTC. */
  lemma NextMidnight(t: int)
    ensures var m := Midnight(DayIndex(t) + 1);
            m - 86_400_000_000_000 <= t < m && (m + 25_200_000_000_000) % 86_400_000_000_000 == 0
    ensures Midnight(DayIndex(t)) <= t < Midnight(DayIndex(t) + 1)
    ensures DayIndex(Midnight(DayIndex(t) + 1)) == DayIndex(t) + 1
  {
    assert t + WIB_OFFSET == DayIndex(t) * DAY + (t + WIB_OFFSET) % DAY;
    assert (DayIndex(t) + 1) * DAY / DAY == DayIndex(t) + 1;
  }

  lemma DayIndexMonotone(a: int, b: int)
    requires a <= b
    ensures DayIndex(a) <= DayIndex(b)
  {
    NextMidnight(a);
    NextMidnight(b);
  }

  lemma {:induction false} WalkIsDayDifference(start: int, end: int)
    requires start <= end
    ensures WalkMidnights(start, end) == DayIndex(end) - DayIndex(start)
    decreases end - start
  {
    NextMidnight(start);
    NextMidnight(end);
    var next := Midnight(DayIndex(start) + 1);
    if next > end {
      DayIndexMonotone(start, end);
    } else {
      WalkIsDayDifference(next, end);
    }
  }

  lemma MidnightsAreDayDifference(start: int, end: int)
    requires start <= end
    ensures CountMidnightsCrossed(start, end) == Min(DayIndex(end) - DayIndex(start), MAX_NIGHTS) >= 0
  {
    DayIndexMonotone(start, end);
    var k := DayIndex(end) - DayIndex(start);
    assert Midnight(DayIndex(end)) - Midnight(DayIndex(start)) == k * DAY;
    assert k * DAY / DAY == k;
  }

  /** The division of calendar-day starts counts exactly the midnights m with
      start < m <= end, as far as a duration reaches. */
  lemma MidnightsAreThoseWalked(start: int, end: int)
    requires start <= end
    ensures CountMidnightsCrossed(start, end) == Min(WalkMidnights(start, end), MAX_NIGHTS)
  {
    WalkIsDayDifference(start, end);
    MidnightsAreDayDifference(start, end);
  }

  // ------------------------------------------------------------------
  // Algebra of sessions
  // ------------------------------------------------------------------

  /** The fee of a proper session in terms of its ceiling and its days. */
  lemma FeeShape(a: int, b: int)
    requires a < b
    ensures IsCeilingHours(Min(b - a, MAX_DURATION), CalculateSessionFee(a, b).billedHours)
    ensures 1 <= CalculateSessionFee(a, b).billedHours <= MAX_HOURS
    ensures Fee(a, b) == HOURLY_RATE * CalculateSessionFee(a, b).billedHours
                         + OVERNIGHT_PER_NIGHT * Min(DayIndex(b) - DayIndex(a), MAX_NIGHTS)
    ensures DayIndex(b) >= DayIndex(a)
  {
    MidnightsAreDayDifference(a, b);
    BilledHoursIsCeiling(Sub(b, a), Sub(b, a) / HOUR, 0);
  }

  /** The whole result, each field by a definition of its own: the ceiling of the
      hours, the midnights walked one by one, and the completed minutes. */
  lemma SessionFeeIs(a: int, b: int)
    requires a < b
    ensures var fee, d, nights := CalculateSessionFee(a, b), Min(b - a, MAX_DURATION), Min(WalkMidnights(a, b), MAX_NIGHTS);
            && IsCeilingHours(d, fee.billedHours) && fee.parkingFee == 5_000 * fee.billedHours
            && fee.nightsCrossed == nights && fee.overnightFee == 20_000 * nights
            && (fee.isOvernight <==> WalkMidnights(a, b) > 0)
            && fee.durationMinutes * 60_000_000_000 <= d < (fee.durationMinutes + 1) * 60_000_000_000
  {
    MidnightsAreThoseWalked(a, b);
    BilledHoursIsCeiling(Sub(b, a), Sub(b, a) / HOUR, 0);
  }

  /** No night is counted twice or lost by splitting a stay, unless the whole has more
      nights than a duration can hold. */
  predicate NightsAddUp(a: int, b: int, c: int) {
    WalkMidnights(a, c) <= MAX_NIGHTS || WalkMidnights(a, b) == 0 || WalkMidnights(b, c) == 0
  }

  predicate HoursAddUp(a: int, b: int, c: int) {
    c - a <= MAX_DURATION || CalculateSessionFee(a, b).billedHours + CalculateSessionFee(b, c).billedHours <= MAX_HOURS + 1
  }

  lemma SplitNights(a: int, b: int, c: int)
    requires a < b < c
    ensures CountMidnightsCrossed(a, c) <= CountMidnightsCrossed(a, b) + CountMidnightsCrossed(b, c)
    ensures CountMidnightsCrossed(a, c) == CountMidnightsCrossed(a, b) + CountMidnightsCrossed(b, c) <==> NightsAddUp(a, b, c)
  {
    MidnightsAreThoseWalked(a, b);
    MidnightsAreThoseWalked(b, c);
    MidnightsAreThoseWalked(a, c);
    WalkIsDayDifference(a, b);
    WalkIsDayDifference(b, c);
    WalkIsDayDifference(a, c);
  }

  lemma SplitHours(a: int, b: int, c: int)
    requires a < b < c
    ensures var x, y, z := CalculateSessionFee(a, b).billedHours, CalculateSessionFee(b, c).billedHours, CalculateSessionFee(a, c).billedHours;
            z <= x + y && (x + y <= z + 1 <==> HoursAddUp(a, b, c))
  {
    FeeShape(a, b);
    FeeShape(b, c);
    FeeShape(a, c);
    if c - a > MAX_DURATION {
      assert IsCeilingHours(MAX_DURATION, MAX_HOURS);
      assert CalculateSessionFee(a, c).billedHours == MAX_HOURS;
    }
  }

  /** Splitting a stay never makes it cheaper; it keeps the nights, and costs at most one
      hour more, exactly if neither nights nor hours exceed what a duration can hold. */
  lemma SplitSession(a: int, b: int, c: int)
    requires a < b < c
    ensures Fee(a, c) <= Fee(a, b) + Fee(b, c)
    ensures CountMidnightsCrossed(a, c) == CountMidnightsCrossed(a, b) + CountMidnightsCrossed(b, c) <==> NightsAddUp(a, b, c)
    ensures Fee(a, b) + Fee(b, c) <= Fee(a, c) + HOURLY_RATE <==> NightsAddUp(a, b, c) && HoursAddUp(a, b, c)
    ensures c - a <= MAX_DURATION - DAY ==> NightsAddUp(a, b, c) && HoursAddUp(a, b, c)
  {
    SplitNights(a, b, c);
    SplitHours(a, b, c);
    FeeParts(a, b);
    FeeParts(b, c);
    FeeParts(a, c);
    WalkIsDayDifference(a, c);
    NextMidnight(a);
    NextMidnight(c);
  }

  lemma FeeParts(a: int, b: int)
    ensures Fee(a, b) == HOURLY_RATE * CalculateSessionFee(a, b).billedHours
                         + OVERNIGHT_PER_NIGHT * CalculateSessionFee(a, b).nightsCrossed
    ensures a < b ==> CalculateSessionFee(a, b).nightsCrossed == CountMidnightsCrossed(a, b)
  {
  }

  /** A longer stay, at either end, never costs less. */
  lemma FeeMonotone(a: int, a': int, b: int, b': int)
    requires a' <= a && b <= b'
    ensures Fee(a, b) <= Fee(a', b')
  {
    if a < b {
      FeeShape(a, b);
      FeeShape(a', b');
      DayIndexMonotone(a', a);
      DayIndexMonotone(b, b');
    } else if a' < b' {
      FeeShape(a', b');
    }
  }

  /** Only the time of day matters: moving both ends by whole days changes nothing. */
  lemma FeeShiftByDays(a: int, b: int, k: int)
    ensures CalculateSessionFee(a + k * DAY, b + k * DAY) == CalculateSessionFee(a, b)
  {
    if a < b {
      DayShift(a, k);
      DayShift(b, k);
      MidnightsAreDayDifference(a, b);
      MidnightsAreDayDifference(a + k * DAY, b + k * DAY);
    }
  }

  lemma DayShift(t: int, k: int)
    ensures DayIndex(t + k * DAY) == DayIndex(t) + k
  {
    assert (t + WIB_OFFSET + k * DAY) / DAY == (t + WIB_OFFSET) / DAY + k;
  }

  // ------------------------------------------------------------------
  // The amount cap of the payment service
  // ------------------------------------------------------------------

  /** Sums wrap around at 64 bits: the result is the only 64-bit number that differs from
      the sum by a multiple of two to the 64. */
  lemma WrapsAround(x: int, y: int)
    ensures y == AsInt64(x) <==>
            -0x8000_0000_0000_0000 <= y < 0x8000_0000_0000_0000 && (x - y) % 0x1_0000_0000_0000_0000 == 0
  {
  }

  function StayTotal(a: int, b: int): int {
    CalculateTotal(BOOKING_FEE, CalculateSessionFee(a, b).parkingFee, CalculateSessionFee(a, b).overnightFee)
  }

  /** No stay, however long, makes the 64-bit total wrap. */
  lemma StayTotalExact(a: int, b: int)
    ensures StayTotal(a, b) == 5_000 + CalculateSessionFee(a, b).parkingFee + CalculateSessionFee(a, b).overnightFee >= 5_000
  {
    if a < b {
      var d := Sub(b, a);
      BilledHoursIsCeiling(d, d / HOUR, 0);
      assert CalculateSessionFee(a, b).billedHours <= 2_562_048;
      assert 0 <= CountMidnightsCrossed(a, b) <= 106_752;
    }
  }

  /** The exact frontier: the payment handler accepts the total of a stay iff
      its billed hours plus four times its nights stay below 20000. */
  lemma PayableIff(a: int, b: int)
    ensures AmountAccepted(StayTotal(a, b)) <==>
            CalculateSessionFee(a, b).billedHours + 4 * CalculateSessionFee(a, b).nightsCrossed <= 19_999
  {
    StayTotalExact(a, b);
  }

  /** Any stay of at most 714 days can be paid, any stay of 715 days or more cannot. */
  lemma PayableStays(a: int, b: int)
    ensures b - a <= 714 * DAY ==> AmountAccepted(StayTotal(a, b))
    ensures b - a >= 715 * DAY ==> StayTotal(a, b) > MAX_PAYMENT_AMOUNT
  {
    StayTotalExact(a, b);
    if a < b && b - a <= 714 * DAY {
      FeeShape(a, b);
      NextMidnight(a);
      NextMidnight(b);
      assert CalculateSessionFee(a, b).billedHours <= 714 * 24;
      assert DayIndex(b) - DayIndex(a) <= 714;
    } else if b - a >= 715 * DAY {
      LongStayCost(a, b);
    }
  }

  lemma LongStayCost(a: int, b: int)
    requires b - a >= 715 * DAY
    ensures Fee(a, b) >= 100_100_000
  {
    var d := Sub(b, a);
    BilledHoursIsCeiling(d, d / HOUR, 0);
    assert CalculateSessionFee(a, b).billedHours >= 715 * 24;
    NextMidnight(a);
    NextMidnight(b);
    assert DayIndex(b) - DayIndex(a) >= 715;
    assert Midnight(DayIndex(b)) - Midnight(DayIndex(a)) >= 715 * DAY;
    assert CountMidnightsCrossed(a, b) >= 715;
  }
}
