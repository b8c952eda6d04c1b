/** The analytics service's straight-line forecast. Floating-point numbers are
    idealised as reals. Day i of the history is the point (i, data[i]). */
module Regression {
  import opened Wrappers

  const HOUR: int := 3_600_000_000_000
  const LOOKBACK_DAYS: real := 30.0

  // ------------------------------------------------------------------
  // Sums over the first k days
  // ------------------------------------------------------------------

  function SumX(k: nat): real {
    if k == 0 then 0.0 else SumX(k - 1) + (k - 1) as real
  }

  function SumX2(k: nat): real {
    if k == 0 then 0.0 else SumX2(k - 1) + (k - 1) as real * (k - 1) as real
  }

  function SumY(data: seq<real>, k: nat): real
    requires k <= |data|
  {
    if k == 0 then 0.0 else SumY(data, k - 1) + data[k - 1]
  }

  function SumXY(data: seq<real>, k: nat): real
    requires k <= |data|
  {
    if k == 0 then 0.0 else SumXY(data, k - 1) + (k - 1) as real * data[k - 1]
  }

  function SumY2(data: seq<real>, k: nat): real
    requires k <= |data|
  {
    if k == 0 then 0.0 else SumY2(data, k - 1) + data[k - 1] * data[k - 1]
  }

  function Line(a: real, b: real, x: real): real {
    a * x + b
  }

  function Square(x: real): real {
    x * x
  }

  /** The squared vertical distances from the line y = a x + b. */
  function Residuals(data: seq<real>, k: nat, a: real, b: real): real
    requires k <= |data|
  {
    if k == 0 then 0.0
    else Residuals(data, k - 1, a, b) + Square(data[k - 1] - Line(a, b, (k - 1) as real))
  }

  // ------------------------------------------------------------------
  // The denominator
  // ------------------------------------------------------------------

  function Denominator(n: nat): real {
    n as real * SumX2(n) - SumX(n) * SumX(n)
  }

  lemma {:induction false} ClosedForms(n: nat)
    ensures 2.0 * SumX(n) == n as real * (n as real - 1.0)
    ensures 6.0 * SumX2(n) == n as real * (n as real - 1.0) * (2.0 * n as real - 1.0)
  {
    if n > 0 {
      ClosedForms(n - 1);
      var m := (n - 1) as real;
      assert n as real == m + 1.0;
      assert 6.0 * SumX2(n) == m * (m - 1.0) * (2.0 * m - 1.0) + 6.0 * (m * m);
      assert m * (m - 1.0) * (2.0 * m - 1.0) + 6.0 * (m * m) == (m + 1.0) * m * (2.0 * m + 1.0);
    }
  }

  lemma DenominatorClosedForm(n: nat)
    ensures 12.0 * Denominator(n) == n as real * n as real * (n as real * n as real - 1.0)
  {
    ClosedForms(n);
    ScaledDenominator(n as real, SumX(n), SumX2(n));
  }

  /** It is never negative, and zero exactly for fewer than two days. */
  lemma DenominatorSign(n: nat)
    ensures n >= 2 <==> Denominator(n) > 0.0
    ensures n < 2 <==> Denominator(n) == 0.0
  {
    DenominatorClosedForm(n);
    var x := n as real;
    if n >= 2 {
      assert x * x >= 4.0;
      assert x * x * (x * x - 1.0) > 0.0;
    }
  }

  lemma DenominatorOf(k: nat, n: real, x: real, x2: real, d: real)
    requires n == k as real && x == SumX(k) && x2 == SumX2(k) && d == n * x2 - x * x
    ensures d == 0.0 <==> k < 2
  {
    DenominatorSign(k);
  }

  lemma ScaledDenominator(x: real, s: real, q: real)
    requires 2.0 * s == x * (x - 1.0) && 6.0 * q == x * (x - 1.0) * (2.0 * x - 1.0)
    ensures 12.0 * (x * q - s * s) == x * x * (x * x - 1.0)
  {
    var p := x * (x - 1.0);
    calc {
      12.0 * (x * q - s * s);
      2.0 * (x * (6.0 * q)) - 3.0 * ((2.0 * s) * (2.0 * s));
      2.0 * (x * (p * (2.0 * x - 1.0))) - 3.0 * (p * p);
      p * (2.0 * (x * (2.0 * x - 1.0)) - 3.0 * p);
      { assert 2.0 * (x * (2.0 * x - 1.0)) - 3.0 * p == x * (x + 1.0); }
      p * (x * (x + 1.0));
      x * x * ((x - 1.0) * (x + 1.0));
      { assert (x - 1.0) * (x + 1.0) == x * x - 1.0; }
      x * x * (x * x - 1.0);
    }
  }

  // ------------------------------------------------------------------
  // Optimality
  // ------------------------------------------------------------------

  /** The residuals in terms of the sums. */
  function Expanded(y2: real, xy: real, y: real, x2: real, x: real, n: real, a: real, b: real): real {
    y2 - 2.0 * (a * xy) - 2.0 * (b * y) + (a * a) * x2 + 2.0 * ((a * b) * x) + (b * b) * n
  }

  lemma {:induction false} ResidualsExpand(data: seq<real>, k: nat, a: real, b: real)
    requires k <= |data|
    ensures Residuals(data, k, a, b)
            == Expanded(SumY2(data, k), SumXY(data, k), SumY(data, k), SumX2(k), SumX(k), k as real, a, b)
  {
    hide Expanded, Square, Line;
    if k == 0 {
      ExpandedAtZero(a, b);
    } else {
      var j := k - 1;
      var x, y := j as real, data[j];
      var xx, xy, yy := x * x, x * y, y * y;
      ResidualsExpand(data, j, a, b);
      SquareExpands(a, b, x, y, xx, xy, yy);
      ExpandedGrows(SumY2(data, j), SumXY(data, j), SumY(data, j), SumX2(j), SumX(j), j as real,
                    SumY2(data, k), SumXY(data, k), SumY(data, k), SumX2(k), SumX(k), k as real, a, b, xx, xy, yy, x, y);
    }
  }

  lemma ExpandedAtZero(a: real, b: real)
    ensures Expanded(0.0, 0.0, 0.0, 0.0, 0.0, 0.0, a, b) == 0.0
  {
  }

  lemma ExpandedGrows(y2: real, xy: real, y: real, x2: real, x: real, n: real,
                      y2': real, xy': real, y': real, x2': real, x': real, n': real,
                      a: real, b: real, uu: real, uv: real, vv: real, u: real, v: real)
    requires y2' == y2 + vv && xy' == xy + uv && y' == y + v && x2' == x2 + uu && x' == x + u && n' == n + 1.0
    ensures Expanded(y2', xy', y', x2', x', n', a, b)
            == Expanded(y2, xy, y, x2, x, n, a, b) + Expanded(vv, uv, v, uu, u, 1.0, a, b)
  {
    Distribute(a, xy, uv, xy');
    Distribute(b, y, v, y');
    Distribute(a * a, x2, uu, x2');
    Distribute(a * b, x, u, x');
    Distribute(b * b, n, 1.0, n');
  }

  lemma Distribute(p: real, q: real, r: real, sum: real)
    requires sum == q + r
    ensures p * sum == p * q + p * r
  {
  }

  lemma SquareExpands(a: real, b: real, x: real, y: real, xx: real, xy: real, yy: real)
    requires xx == x * x && xy == x * y && yy == y * y
    ensures Square(y - Line(a, b, x)) == Expanded(yy, xy, y, xx, x, 1.0, a, b)
  {
    assert (a * x + b) * (a * x + b) == (a * a) * (x * x) + 2.0 * ((a * b) * x) + b * b;
    assert y * (a * x + b) == a * (x * y) + b * y;
    assert Square(y - Line(a, b, x)) == y * y - 2.0 * (y * (a * x + b)) + (a * x + b) * (a * x + b);
  }

  /** The two equations that characterise the least-squares line. */
  predicate Normal(data: seq<real>, a: real, b: real) {
    var n := |data|;
    && SumXY(data, n) == a * SumX2(n) + b * SumX(n)
    && SumY(data, n) == a * SumX(n) + b * n as real
  }

  /** How much worse a line is that differs by (c, d) from a normal one. */
  function Excess(q: real, s: real, n: real, c: real, d: real): real {
    (c * c) * q + 2.0 * ((c * d) * s) + (d * d) * n
  }

  lemma ExcessOverNormal(data: seq<real>, a: real, b: real, a': real, b': real)
    requires Normal(data, a, b)
    ensures var n := |data|;
            Residuals(data, n, a', b') == Residuals(data, n, a, b) + Excess(SumX2(n), SumX(n), n as real, a' - a, b' - b)
  {
    hide Expanded, Excess, Residuals, SumX, SumX2, SumXY, SumY, SumY2;
    var n := |data|;
    ResidualsExpand(data, n, a', b');
    ResidualsExpand(data, n, a, b);
    ExcessAlgebra(SumY2(data, n), SumXY(data, n), SumY(data, n), SumX2(n), SumX(n), n as real, a, b, a', b');
  }

  lemma ExcessAlgebra(y2: real, xy: real, y: real, q: real, s: real, n: real, a: real, b: real, a': real, b': real)
    requires xy == a * q + b * s && y == a * s + b * n
    ensures Expanded(y2, xy, y, q, s, n, a', b') == Expanded(y2, xy, y, q, s, n, a, b) + Excess(q, s, n, a' - a, b' - b)
  {
    var c, d := a' - a, b' - b;
    assert a' * xy - a * xy == c * xy == (a * c) * q + (b * c) * s;
    assert b' * y - b * y == d * y == (a * d) * s + (b * d) * n;
    assert (a' * a') * q - (a * a) * q == 2.0 * ((a * c) * q) + (c * c) * q;
    assert (a' * b') * s - (a * b) * s == (a * d) * s + (b * c) * s + (c * d) * s;
    assert (b' * b') * n - (b * b) * n == 2.0 * ((b * d) * n) + (d * d) * n;
  }

  /** Completing the square. */
  lemma ScaledExcess(q: real, s: real, n: real, c: real, d: real)
    ensures n * Excess(q, s, n, c, d) == (n * d + c * s) * (n * d + c * s) + (c * c) * (n * q - s * s)
  {
    var r := n * d + c * s;
    assert r * r == (n * d) * (n * d) + 2.0 * ((n * d) * (c * s)) + (c * s) * (c * s);
    assert (c * c) * (n * q - s * s) == n * ((c * c) * q) - (c * s) * (c * s);
    assert n * (2.0 * ((c * d) * s)) == 2.0 * ((n * d) * (c * s));
    assert n * ((d * d) * n) == (n * d) * (n * d);
  }

  /** The excess is positive for every other line. */
  lemma ExcessIsPositive(q: real, s: real, n: real, c: real, d: real)
    requires n > 0.0 && n * q - s * s > 0.0
    ensures Excess(q, s, n, c, d) >= 0.0
    ensures Excess(q, s, n, c, d) == 0.0 <==> c == 0.0 && d == 0.0
  {
    ScaledExcess(q, s, n, c, d);
    var r, cc, dd := n * d + c * s, c * c, d * d;
    SquareSign(r, r * r);
    SquareSign(c, cc);
    ExcessSign(n, Excess(q, s, n, c, d), r * r, cc, n * q - s * s);
    if c == 0.0 {
      assert Excess(q, s, n, c, d) == dd * n;
      SquareSign(d, dd);
      ProductSign(dd, n, dd * n);
    }
  }

  lemma ExcessSign(n: real, e: real, rr: real, k: real, w: real)
    requires n > 0.0 && w > 0.0 && rr >= 0.0 && k >= 0.0 && n * e == rr + k * w
    ensures e >= 0.0
    ensures k > 0.0 ==> e > 0.0
  {
    ProductSign(k, w, k * w);
    ScaledSign(n, e, rr + k * w);
  }

  lemma SquareSign(c: real, cc: real)
    requires cc == c * c
    ensures cc >= 0.0
    ensures c != 0.0 ==> cc > 0.0
  {
    ProductSign(c, c, cc);
  }

  lemma ProductSign(k: real, w: real, p: real)
    requires p == k * w
    ensures (k >= 0.0 && w >= 0.0) || (k <= 0.0 && w <= 0.0) ==> p >= 0.0
    ensures (k > 0.0 && w > 0.0) || (k < 0.0 && w < 0.0) ==> p > 0.0
  {
  }

  lemma ScaledSign(n: real, e: real, v: real)
    requires n > 0.0 && n * e == v
    ensures (v > 0.0 ==> e > 0.0) && (v >= 0.0 ==> e >= 0.0)
  {
  }

  /** The least-squares line: no line has smaller residuals, and no other has equal ones. */
  ghost predicate BestLine(data: seq<real>, a: real, b: real) {
    forall a': real, b': real ::
      && Residuals(data, |data|, a, b) <= Residuals(data, |data|, a', b')
      && (Residuals(data, |data|, a, b) == Residuals(data, |data|, a', b') ==> a' == a && b' == b)
  }

  lemma NormalBeats(data: seq<real>, a: real, b: real, a': real, b': real)
    requires |data| >= 2 && Normal(data, a, b)
    ensures Residuals(data, |data|, a, b) <= Residuals(data, |data|, a', b')
    ensures Residuals(data, |data|, a, b) == Residuals(data, |data|, a', b') ==> a' == a && b' == b
  {
    hide Residuals, Excess, Normal, SumX, SumX2;
    var n := |data|;
    ExcessOverNormal(data, a, b, a', b');
    var c, d := a' - a, b' - b;
    DenominatorSign(n);
    ExcessIsPositive(SumX2(n), SumX(n), n as real, c, d);
  }

  lemma NormalIsBest(data: seq<real>, a: real, b: real)
    requires |data| >= 2 && Normal(data, a, b)
    ensures BestLine(data, a, b)
  {
    hide Residuals, Normal;
    forall a': real, b': real
      ensures Residuals(data, |data|, a, b) <= Residuals(data, |data|, a', b')
      ensures Residuals(data, |data|, a, b) == Residuals(data, |data|, a', b') ==> a' == a && b' == b
    {
      NormalBeats(data, a, b, a', b');
    }
  }

  lemma SolutionIsNormal(n: real, x: real, x2: real, y: real, xy: real, d: real, a: real, b: real)
    requires d == n * x2 - x * x && d != 0.0 && n != 0.0
    requires a == (n * xy - x * y) / d && b == (y - a * x) / n
    ensures xy == a * x2 + b * x && y == a * x + b * n
  {
    assert a * d == n * xy - x * y;
    assert b * n == y - a * x;
    assert n * (a * x2 + b * x) == n * xy by {
      assert n * (a * x2) == a * (n * x2);
      assert n * (b * x) == (b * n) * x == y * x - (a * x) * x;
      assert a * (n * x2) - (a * x) * x == a * d;
    }
  }

  /** What the code computes for two days or more. */
  lemma SolutionIsBest(data: seq<real>, n: real, x: real, x2: real, y: real, xy: real, d: real, a: real, b: real)
    requires |data| >= 2 && n == |data| as real
    requires x == SumX(|data|) && x2 == SumX2(|data|) && y == SumY(data, |data|) && xy == SumXY(data, |data|)
    requires d == n * x2 - x * x && d != 0.0
    requires a == (n * xy - x * y) / d && b == (y - a * x) / n
    ensures BestLine(data, a, b)
  {
    hide BestLine, SumX, SumX2, SumY, SumXY;
    SolutionIsNormal(n, x, x2, y, xy, d, a, b);
    NormalIsBest(data, a, b);
  }

  method LinearRegression(data: seq<real>) returns (slope: real, intercept: real)
    ensures data == [] ==> slope == 0.0 && intercept == 0.0
    ensures |data| == 1 ==> slope == 0.0 && intercept == data[0]
    ensures |data| >= 2 ==> BestLine(data, slope, intercept)
  {
    hide BestLine;
    var n := |data| as real;
    if n == 0.0 {
      return 0.0, 0.0;
    }
    var sumX, sumY, sumXY, sumX2 := 0.0, 0.0, 0.0, 0.0;
    for i := 0 to |data|
      invariant sumX == SumX(i) && sumX2 == SumX2(i) && sumY == SumY(data, i) && sumXY == SumXY(data, i)
    {
      var x, y := i as real, data[i];
      sumX := sumX + x;
      sumY := sumY + y;
      sumXY := sumXY + x * y;
      sumX2 := sumX2 + x * x;
    }
    var denominator := n * sumX2 - sumX * sumX;
    DenominatorOf(|data|, n, sumX, sumX2, denominator);
    if denominator == 0.0 {
      return 0.0, sumY / n;
    }
    slope := (n * sumXY - sumX * sumY) / denominator;
    intercept := (sumY - slope * sumX) / n;
    SolutionIsBest(data, n, sumX, sumX2, sumY, sumXY, denominator, slope, intercept);
  }

  lemma {:induction false} ResidualsSign(data: seq<real>, k: nat, a: real, b: real)
    requires k <= |data|
    ensures Residuals(data, k, a, b) >= 0.0
    ensures (forall i :: 0 <= i < k ==> data[i] == Line(a, b, i as real)) ==> Residuals(data, k, a, b) == 0.0
  {
    if k > 0 {
      ResidualsSign(data, k - 1, a, b);
      var e := data[k - 1] - Line(a, b, (k - 1) as real);
      SquareSign(e, Square(e));
    }
  }

  /** An exact trend is recovered exactly. */
  lemma ExactLineIsRecovered(data: seq<real>, a: real, b: real, slope: real, intercept: real)
    requires |data| >= 2 && BestLine(data, slope, intercept)
    requires forall i :: 0 <= i < |data| ==> data[i] == Line(a, b, i as real)
    ensures slope == a && intercept == b
  {
    ResidualsSign(data, |data|, a, b);
    ResidualsSign(data, |data|, slope, intercept);
  }

  // ------------------------------------------------------------------
  // The forecast
  // ------------------------------------------------------------------

  datatype Prediction = Prediction(hour: int, occupancy: real, instances: int, confidence: real)

  datatype Outcome = Forecast(predictions: seq<Prediction>) | BadRequest | Internal | Unprocessable

  function Max(a: real, b: real): real {
    if a < b then b else a
  }

  function Min(a: real, b: real): real {
    if a < b then a else b
  }

  function Clamp(x: real): real {
    Max(0.0, Min(1.0, x))
  }

  /** Rounded to three decimals, for a number that is not negative. */
  function Round3(x: real): real {
    (x * 1000.0 + 0.5).Floor as real / 1000.0
  }

  // ------------------------------------------------------------------
  // What a forecast says
  // ------------------------------------------------------------------

  /** y is x rounded to three decimals, halves upwards. */
  predicate Rounds(x: real, y: real) {
    (y * 1000.0).Floor as real == y * 1000.0 && x - 0.0005 < y <= x + 0.0005
  }

  lemma Round3Rounds(x: real)
    ensures Rounds(x, Round3(x))
  {
    var m := (x * 1000.0 + 0.5).Floor;
    var y := m as real / 1000.0;
    assert y * 1000.0 == m as real;
  }

  lemma RoundsMonotone(x: real, y: real, x': real, y': real)
    requires x <= x' && Rounds(x, y) && Rounds(x', y')
    ensures y <= y'
  {
    var m, m' := (y * 1000.0).Floor, (y' * 1000.0).Floor;
    assert m as real <= 1000.0 * x + 0.5 && 1000.0 * x' - 0.5 < m' as real;
    assert m <= m';
  }

  /** What an occupancy of x amounts to: all or nothing outside of 0 to 1. */
  predicate CutOff(x: real, y: real) {
    && (x < 0.0 ==> y == 0.0)
    && (x > 1.0 ==> y == 1.0)
    && (0.0 <= x <= 1.0 ==> y == x)
  }

  /** The prediction for i hours after the end of n days by the line y = a x + b: the
      line's value there; one instance more than completed quarters of it; and as
      confidence the part of 30 days that is left, but at least a tenth. */
  ghost predicate Predicts(a: real, b: real, n: nat, i: nat, p: Prediction) {
    && p.hour == i
    && (exists y :: CutOff(a * (n as real + i as real / 24.0) + b, y)
                    && Rounds(y, p.occupancy) && (p.instances - 1) as real <= 4.0 * y < p.instances as real)
    && (720 - i > 72 ==> Rounds((720 - i) as real / 720.0, p.confidence))
    && (720 - i <= 72 ==> p.confidence == 0.1)
  }

  ghost predicate ForecastBy(a: real, b: real, n: nat, predictions: seq<Prediction>) {
    forall i :: 0 <= i < |predictions| ==> Predicts(a, b, n, i + 1, predictions[i])
  }

  /** Hour by hour on the least-squares line of the history. */
  ghost predicate IsForecast(history: seq<real>, predictions: seq<Prediction>) {
    exists a, b :: BestLine(history, a, b) && ForecastBy(a, b, |history|, predictions)
  }

  /** Where the line is between 0 and 1 a forecast says what the line says. */
  lemma WithinBounds(a: real, b: real, n: nat, i: nat, p: Prediction, v: real)
    requires Predicts(a, b, n, i, p) && v == a * (n as real + i as real / 24.0) + b && 0.0 <= v <= 1.0
    ensures v - 0.0005 < p.occupancy <= v + 0.0005
    ensures (p.instances - 1) as real <= 4.0 * v < p.instances as real
  {
    var y :| CutOff(v, y) && Rounds(y, p.occupancy) && (p.instances - 1) as real <= 4.0 * y < p.instances as real;
  }

  /** A history that lies on a line is continued: k days after its end the forecast is
      that line's value, to three decimals, as long as the line is between 0 and 1. */
  lemma TrendContinues(history: seq<real>, a: real, b: real, predictions: seq<Prediction>, k: nat)
    requires |history| >= 2 && IsForecast(history, predictions)
    requires forall i :: 0 <= i < |history| ==> history[i] == a * i as real + b
    requires 1 <= k && 24 * k <= |predictions|
    requires 0.0 <= a * (|history| + k) as real + b <= 1.0
    ensures var p, v := predictions[24 * k - 1], a * (|history| + k) as real + b;
            && p.hour == 24 * k
            && v - 0.0005 < p.occupancy <= v + 0.0005
            && (p.instances - 1) as real <= 4.0 * v < p.instances as real
  {
    hide BestLine, Predicts;
    var slope, intercept :| BestLine(history, slope, intercept) && ForecastBy(slope, intercept, |history|, predictions);
    ExactLineIsRecovered(history, a, b, slope, intercept);
    DaysAhead(|history|, k);
    WithinBounds(a, b, |history|, 24 * k, predictions[24 * k - 1], a * (|history| + k) as real + b);
    HourOf(a, b, |history|, 24 * k, predictions[24 * k - 1]);
  }

  lemma DaysAhead(n: nat, k: nat)
    ensures n as real + (24 * k) as real / 24.0 == (n + k) as real
  {
    assert (24 * k) as real == 24.0 * k as real;
  }

  lemma HourOf(a: real, b: real, n: nat, i: nat, p: Prediction)
    requires Predicts(a, b, n, i, p)
    ensures p.hour == i
  {
  }

  /** A rising line never lowers the forecast from one hour to a later one, while
      confidence only falls; and every forecast stays within its bounds. */
  lemma ForecastFollowsTheLine(a: real, b: real, n: nat, i: nat, p: Prediction, j: nat, q: Prediction)
    requires i <= j && a >= 0.0 && Predicts(a, b, n, i, p) && Predicts(a, b, n, j, q)
    ensures 0.0 <= p.occupancy <= q.occupancy <= 1.0
    ensures 1 <= p.instances <= q.instances <= 5
    ensures 0.1 <= q.confidence <= p.confidence <= 1.0
  {
    hide Rounds, CutOff;
    var u, v := a * (n as real + i as real / 24.0) + b, a * (n as real + j as real / 24.0) + b;
    LineRises(a, b, n as real + i as real / 24.0, n as real + j as real / 24.0);
    var y :| CutOff(u, y) && Rounds(y, p.occupancy) && (p.instances - 1) as real <= 4.0 * y < p.instances as real;
    var z :| CutOff(v, z) && Rounds(z, q.occupancy) && (q.instances - 1) as real <= 4.0 * z < q.instances as real;
    CutRises(u, y, v, z);
    OccupancyBounds(y, p.occupancy, z, q.occupancy);
    InstancesRise(y, p.instances, z, q.instances);
    Confidence(i, p.confidence, j, q.confidence);
  }

  lemma LineRises(a: real, b: real, x: real, y: real)
    requires x <= y && a >= 0.0
    ensures a * x + b <= a * y + b
  {
    ProductSign(a, y - x, a * (y - x));
    assert a * y == a * x + a * (y - x);
  }

  lemma CutRises(u: real, y: real, v: real, z: real)
    requires u <= v && CutOff(u, y) && CutOff(v, z)
    ensures 0.0 <= y <= z <= 1.0
  {
  }

  lemma InstancesRise(y: real, m: int, z: real, n: int)
    requires 0.0 <= y <= z <= 1.0 && (m - 1) as real <= 4.0 * y < m as real && (n - 1) as real <= 4.0 * z < n as real
    ensures 1 <= m <= n <= 5
  {
  }

  lemma OccupancyBounds(y: real, p: real, z: real, q: real)
    requires 0.0 <= y <= z <= 1.0 && Rounds(y, p) && Rounds(z, q)
    ensures 0.0 <= p <= q <= 1.0
  {
    assert Rounds(0.0, 0.0) && Rounds(1.0, 1.0);
    RoundsMonotone(0.0, 0.0, y, p);
    RoundsMonotone(y, p, z, q);
    RoundsMonotone(z, q, 1.0, 1.0);
  }

  lemma Confidence(i: nat, p: real, j: nat, q: real)
    requires i <= j
    requires if 720 - i > 72 then Rounds((720 - i) as real / 720.0, p) else p == 0.1
    requires if 720 - j > 72 then Rounds((720 - j) as real / 720.0, q) else q == 0.1
    ensures 0.1 <= q <= p <= 1.0
  {
    assert Rounds(0.1, 0.1) && Rounds(1.0, 1.0);
    var x, y := if 720 - i > 72 then (720 - i) as real / 720.0 else 0.1, if 720 - j > 72 then (720 - j) as real / 720.0 else 0.1;
    assert 0.1 <= y <= x <= 1.0;
    RoundsMonotone(0.1, 0.1, y, q);
    RoundsMonotone(y, q, x, p);
    RoundsMonotone(x, p, 1.0, 1.0);
  }

  // ------------------------------------------------------------------
  // What the code computes
  // ------------------------------------------------------------------

  method Predict(slope: real, intercept: real, n: nat, i: nat) returns (p: Prediction)
    ensures Predicts(slope, intercept, n, i, p)
  {
    var dayOffset := i as real / 24.0;
    var raw := slope * (n as real + dayOffset) + intercept;
    var occupancy := Clamp(raw);
    var confidence := Max(0.1, 1.0 - dayOffset / LOOKBACK_DAYS);
    p := Prediction(i, Round3(occupancy), 1 + (occupancy * 4.0).Floor, Round3(confidence));
    hide CutOff, Rounds, Clamp, Max, Round3;
    OccupancyIs(raw);
    ConfidenceIs(i, dayOffset, confidence);
  }

  lemma OccupancyIs(raw: real)
    ensures CutOff(raw, Clamp(raw)) && Rounds(Clamp(raw), Round3(Clamp(raw)))
    ensures (Clamp(raw) * 4.0).Floor as real <= 4.0 * Clamp(raw) < (1 + (Clamp(raw) * 4.0).Floor) as real
  {
    hide Rounds, Round3;
    Round3Rounds(Clamp(raw));
    FloorIs(Clamp(raw) * 4.0);
  }

  lemma FloorIs(x: real)
    ensures x.Floor as real <= x < (1 + x.Floor) as real
  {
  }

  lemma ConfidenceIs(i: nat, dayOffset: real, c: real)
    requires dayOffset == i as real / 24.0 && c == Max(0.1, 1.0 - dayOffset / LOOKBACK_DAYS)
    ensures 720 - i > 72 ==> Rounds((720 - i) as real / 720.0, Round3(c))
    ensures 720 - i <= 72 ==> Round3(c) == 0.1
  {
    hide Rounds;
    assert 1.0 - dayOffset / LOOKBACK_DAYS == (720 - i) as real / 720.0;
    Round3Rounds(c);
    if 720 - i <= 72 {
      assert (720 - i) as real / 720.0 <= 0.1;
      assert c == 0.1;
    }
  }

  /** `history`: the daily occupancies, if they can be read. One prediction for each
      started hour of the horizon, on the least-squares line. */
  method PredictResources(horizon: int, history: Option<seq<real>>) returns (r: Outcome)
    ensures r.BadRequest? <==> horizon <= 0
    ensures r.Internal? <==> horizon > 0 && history.None?
    ensures r.Unprocessable? <==> horizon > 0 && history.Some? && |history.value| < 2
    ensures r.Forecast? ==>
              && (|r.predictions| - 1) * 3_600_000_000_000 < horizon <= |r.predictions| * 3_600_000_000_000
              && IsForecast(history.value, r.predictions)
  {
    hide BestLine, Predicts;
    if horizon <= 0 {
      return BadRequest;
    }
    if history.None? {
      return Internal;
    }
    var data := history.value;
    if |data| < 2 {
      return Unprocessable;
    }
    var slope, intercept := LinearRegression(data);
    var hours := (horizon + HOUR - 1) / HOUR;
    var predictions := [];
    for i := 1 to hours + 1
      invariant |predictions| == i - 1 && ForecastBy(slope, intercept, |data|, predictions)
    {
      var p := Predict(slope, intercept, |data|, i);
      predictions := predictions + [p];
    }
    return Forecast(predictions);
  }
}
