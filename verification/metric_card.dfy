/**
 * The dashboard card (`MetricCard`): a value label, a 0..100 progress bar
 * with a warning colour, an optional frequency label and an optional
 * sparkline. Label texts are kept as the numbers they format; the float
 * formatting itself is not modelled.
 */
module MetricCard {
  import opened Wrappers
  import TimeSeriesChart

  const Red := "#f44336"
  const Orange := "#ff9800"

  /** The scale floor `1e-6` of `update_value`. */
  const ScaleFloor: real := 0.000001

  /** The decay factor of the dynamic scale. */
  const DynDecay: real := 0.98

  /** What the value label shows. */
  datatype Display =
    | Placeholder               // `"-- <unit>"` from construction
    | Percent(pct: real)        // `f"{pct:.1f} %"`
    | Amount(v: real)           // `f"{v:.2f} <unit>"`
    | Message(text: string)     // `set_unavailable(message)`

  datatype Card = Card(
    isPercent: bool,
    unit: string,
    color: string,
    dynMax: real,                 // `_dyn_max`
    display: Display,
    bar: int,
    barColor: string,
    freqVisible: bool,
    freqMhz: real,                // the number on the frequency label
    sparkline: Option<TimeSeriesChart.Chart>
  )

  ghost predicate Valid(c: Card) {
    && 0 <= c.bar <= 100
    && (c.sparkline.Some? ==> TimeSeriesChart.Valid(c.sparkline.value))
  }

  /**
   * `MetricCard(title, unit, is_percent, color, sparkline, max_points)`: the
   * dynamic scale starts at 10 (100 for percent cards); the sparkline has one
   * series, y range `[0, 100]` or `[0, 1]`, and auto-scales unless the card is a percent card.
   */
  function NewCard(unit: string, isPercent: bool, color: string, sparkline: bool, maxPoints: nat): (c: Card)
    ensures Valid(c)
    ensures c.dynMax == (if isPercent then 100.0 else 10.0)
    ensures c.bar == 0 && c.barColor == color && !c.freqVisible && c.display == Placeholder
    ensures sparkline <==> c.sparkline.Some?
    ensures c.sparkline.Some? ==>
      && |c.sparkline.value.buffers| == 1
      && c.sparkline.value.autoScale == !isPercent
      && c.sparkline.value.yRange == TimeSeriesChart.Range(0.0, if isPercent then 100.0 else 1.0)
  {
    var chart := TimeSeriesChart.NewChart(1, maxPoints,
      Some(TimeSeriesChart.Range(0.0, if isPercent then 100.0 else 1.0)), !isPercent);
    Card(isPercent, unit, color, if isPercent then 100.0 else 10.0, Placeholder, 0, color, false, 0.0,
         if sparkline then Some(chart) else None)
  }

  function Clamp(x: real): (r: real)
    ensures 0.0 <= r <= 100.0
    ensures 0.0 <= x <= 100.0 ==> r == x
    ensures x < 0.0 ==> r == 0.0
    ensures x > 100.0 ==> r == 100.0
  {
    if x < 0.0 then 0.0 else if x > 100.0 then 100.0 else x
  }

  /** Python's `round` on a float: to the nearest integer, ties to the even one. */
  function RoundHalfEven(x: real): (r: int)
    ensures -(1.0 / 2.0) <= (r as real) - x <= 1.0 / 2.0
    ensures (r as real) - x == 1.0 / 2.0 || (r as real) - x == -(1.0 / 2.0) ==> r % 2 == 0
  {
    var f := x.Floor;
    var frac := x - f as real;
    if frac < 1.0 / 2.0 then f
    else if frac > 1.0 / 2.0 then f + 1
    else if f % 2 == 0 then f else f + 1
  }

  /** The colour of the bar for a clamped percentage. */
  function BarColor(pct: real, cardColor: string): string {
    if pct >= 90.0 then Red else if pct >= 80.0 then Orange else cardColor
  }

  /**
   * `update_percent(pct)`: clamps to `[0, 100]` (a value `float()` rejects
   * counts as 0), shows it, sets the bar to its rounding and the warning
   * colour, and appends it to the sparkline.
   */
  function UpdatePercent(c: Card, pct: Option<real>): (c': Card)
    requires Valid(c)
    ensures Valid(c')
    ensures var p := if pct.Some? then Clamp(pct.value) else 0.0;
      && c'.display == Percent(p)
      && c'.bar == RoundHalfEven(p)
      && (p >= 90.0 ==> c'.barColor == Red)
      && (80.0 <= p < 90.0 ==> c'.barColor == Orange)
      && (p < 80.0 ==> c'.barColor == c.color)
      && (c.sparkline.Some? ==> c'.sparkline == Some(TimeSeriesChart.Append(c.sparkline.value, [p])))
    ensures c'.sparkline.Some? <==> c.sparkline.Some?
    ensures c'.dynMax == c.dynMax && c'.freqVisible == c.freqVisible && c'.freqMhz == c.freqMhz
  {
    var p := if pct.Some? then Clamp(pct.value) else 0.0;
    var bar := RoundHalfEven(p);
    var spark := match c.sparkline
      case None => None
      case Some(s) => Some(TimeSeriesChart.Append(s, [p]));
    c.(display := Percent(p), bar := bar, barColor := BarColor(p, c.color), sparkline := spark)
  }

  /**
   * The scale of `update_value` and the new dynamic maximum: 100 for percent
   * cards; `max(ref_max, 1e-6)` with a reference; otherwise the dynamic
   * maximum becomes `max(v, 0.98 * dyn_max)` and the scale is `max(that, 1e-6)`.
   */
  function Scale(c: Card, v: real, refMax: Option<real>): (res: (real, real))
    ensures res.0 >= ScaleFloor
    ensures c.isPercent ==> res == (100.0, c.dynMax)
    ensures !c.isPercent && refMax.Some? ==> res.1 == c.dynMax && res.0 >= refMax.value
    ensures !c.isPercent && refMax.Some? ==> res.0 == refMax.value || res.0 == ScaleFloor
    ensures !c.isPercent && refMax.None? ==> res.1 >= v && res.1 >= DynDecay * c.dynMax && res.0 >= res.1
    ensures !c.isPercent && refMax.None? ==> res.1 == v || res.1 == DynDecay * c.dynMax
    ensures !c.isPercent && refMax.None? ==> res.0 == res.1 || res.0 == ScaleFloor
  {
    if c.isPercent then (100.0, c.dynMax)
    else if refMax.None? then
      var dyn := if v > DynDecay * c.dynMax then v else DynDecay * c.dynMax;
      (if dyn > ScaleFloor then dyn else ScaleFloor, dyn)
    else
      (if refMax.value > ScaleFloor then refMax.value else ScaleFloor, c.dynMax)
  }

  /**
   * `update_value(value, ref_max)`: shows the value (0 when `float()` rejects
   * it), sets the bar to the rounded clamped percentage of the scale, and
   * appends the value to the sparkline.
   */
  function UpdateValue(c: Card, value: Option<real>, refMax: Option<real>): (c': Card)
    requires Valid(c)
    ensures Valid(c')
    ensures var v := value.GetOr(0.0);
      var (m, dyn) := Scale(c, v, refMax);
      && c'.display == Amount(v)
      && c'.dynMax == dyn
      && c'.bar == RoundHalfEven(Clamp(v / m * 100.0))
      && (c.sparkline.Some? ==> c'.sparkline == Some(TimeSeriesChart.Append(c.sparkline.value, [v])))
    ensures c'.sparkline.Some? <==> c.sparkline.Some?
    ensures c'.barColor == c.barColor && c'.freqVisible == c.freqVisible && c'.freqMhz == c.freqMhz
  {
    var v := value.GetOr(0.0);
    var (m, dyn) := Scale(c, v, refMax);
    var pct := if m > 0.0 then RoundHalfEven(Clamp(v / m * 100.0)) else 0;
    var spark := match c.sparkline
      case None => None
      case Some(s) => Some(TimeSeriesChart.Append(s, [v]));
    c.(display := Amount(v), dynMax := dyn, bar := pct, sparkline := spark)
  }

  /** `set_frequency(freq_mhz)`: the label is shown, with the new value, iff the value is positive. */
  function SetFrequency(c: Card, freqMhz: real): (c': Card)
    ensures c'.freqVisible <==> freqMhz > 0.0
    ensures freqMhz > 0.0 ==> c'.freqMhz == freqMhz
    ensures c' == c.(freqVisible := c'.freqVisible, freqMhz := c'.freqMhz)
    ensures freqMhz <= 0.0 ==> c'.freqMhz == c.freqMhz
  {
    if freqMhz > 0.0 then c.(freqVisible := true, freqMhz := freqMhz) else c.(freqVisible := false)
  }

  /** `set_unavailable(message)`: shows the message and empties the bar; nothing else changes. */
  function SetUnavailable(c: Card, message: string): (c': Card)
    requires Valid(c)
    ensures Valid(c') && c'.display == Message(message) && c'.bar == 0
    ensures c' == c.(display := Message(message), bar := 0)
  {
    c.(display := Message(message), bar := 0)
  }

  // ---------------------------------------------------------------- properties

  /** The bar of either update is a whole percentage in 0..100. */
  lemma {:induction false} RoundClampedInRange(x: real)
    ensures 0 <= RoundHalfEven(Clamp(x)) <= 100
  {
    var p := Clamp(x);
    var r := RoundHalfEven(p);
    assert (r as real) >= p - 1.0 / 2.0 >= -(1.0 / 2.0);
    assert (r as real) <= p + 1.0 / 2.0 <= 100.5;
  }

  /** Rounding keeps whole numbers and sends exact halves to the even neighbour. */
  lemma RoundHalfEvenExamples()
    ensures RoundHalfEven(42.0) == 42
    ensures RoundHalfEven(2.5) == 2 && RoundHalfEven(3.5) == 4
    ensures RoundHalfEven(99.6) == 100 && RoundHalfEven(0.4) == 0
  {
  }

  /**
   * Out-of-range inputs are indistinguishable from the nearest bound, and an
   * input `float()` rejects is indistinguishable from 0.
   */
  lemma OutOfRangeLooksLikeBound(c: Card, x: real)
    requires Valid(c)
    ensures UpdatePercent(c, Some(x)) == UpdatePercent(c, Some(Clamp(x)))
    ensures UpdatePercent(c, None) == UpdatePercent(c, Some(0.0))
  {
  }

  /**
   * Without a reference and with no new burst, the dynamic maximum shrinks by
   * exactly the decay factor per update; it never falls below the latest value.
   */
  lemma DynMaxDecays(c: Card, v: real)
    requires Valid(c) && !c.isPercent && v <= DynDecay * c.dynMax
    ensures UpdateValue(c, Some(v), None).dynMax == DynDecay * c.dynMax
  {
  }

  /** A value at the reference maximum fills the bar; a non-positive value empties it. */
  lemma ReferenceScale(c: Card, v: real, refMax: real)
    requires Valid(c) && !c.isPercent && refMax >= ScaleFloor
    ensures v >= refMax ==> UpdateValue(c, Some(v), Some(refMax)).bar == 100
    ensures v <= 0.0 ==> UpdateValue(c, Some(v), Some(refMax)).bar == 0
  {
    var c' := UpdateValue(c, Some(v), Some(refMax));
    RatioBounds(v, refMax);
    if v >= refMax {
      assert v / refMax * 100.0 >= 100.0;
      assert Clamp(v / refMax * 100.0) == 100.0;
    } else if v <= 0.0 {
      assert v / refMax * 100.0 <= 0.0;
      assert Clamp(v / refMax * 100.0) == 0.0;
    }
  }

  /** Dividing by a positive scale keeps a value at or above the scale at least 1, and a non-positive one non-positive. */
  lemma RatioBounds(v: real, m: real)
    requires m > 0.0
    ensures v >= m ==> v / m >= 1.0
    ensures v <= 0.0 ==> v / m <= 0.0
  {
    var q := v / m;
    assert q * m == v;
    assert (q - 1.0) * m == v - m;
  }

  /**
   * Python's `round` is pinned down by its two promises: the only integer
   * within 1/2 of `x` that goes to the even side on a tie is `RoundHalfEven(x)`.
   */
  lemma {:induction false} RoundHalfEvenUnique(x: real, n: int)
    requires -(1.0 / 2.0) <= (n as real) - x <= 1.0 / 2.0
    requires (n as real) - x == 1.0 / 2.0 || (n as real) - x == -(1.0 / 2.0) ==> n % 2 == 0
    ensures n == RoundHalfEven(x)
  {
    var r := RoundHalfEven(x);
    assert -1.0 <= (n - r) as real <= 1.0;
    assert n == r || (n - r == 1 || n - r == -1);
    if n != r {
      assert false;
    }
  }

  /**
   * Without a reference, the dynamic maximum of a value card is exactly
   * `max(v, 0.98 * dyn_max)` and the bar divides by `max(that, 1e-6)`; with
   * one, the bar divides by `max(ref_max, 1e-6)` and the maximum is kept.
   */
  lemma ScaleIsMax(c: Card, v: real, refMax: Option<real>)
    requires !c.isPercent
    ensures refMax.None? ==> Scale(c, v, refMax).1 == Max(v, DynDecay * c.dynMax)
    ensures refMax.None? ==> Scale(c, v, refMax).0 == Max(Max(v, DynDecay * c.dynMax), ScaleFloor)
    ensures refMax.Some? ==> Scale(c, v, refMax) == (Max(refMax.value, ScaleFloor), c.dynMax)
  {
  }

  /** The larger of two reals (Python's `max` on two floats). */
  function Max(a: real, b: real): (m: real)
    ensures m >= a && m >= b && (m == a || m == b)
  {
    if a >= b then a else b
  }
}
