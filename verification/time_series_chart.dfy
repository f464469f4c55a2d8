/**
 * The bounded time-series buffer behind every line chart and sparkline
 * (`TimeSeriesChart`): one point buffer per series, a sample counter used as
 * the x coordinate, the visible x window and the optional y auto-scale.
 * The Qt series and axes are modelled by the buffers and the two ranges.
 */
module TimeSeriesChart {
  import opened Wrappers

  datatype Point = Point(x: int, y: real)

  datatype Range = Range(lo: real, hi: real)

  datatype Chart = Chart(
    maxPoints: nat,
    autoScale: bool,
    counter: nat,                // `_x`: the number of `append` calls so far
    buffers: seq<seq<Point>>,    // one per series, in series order
    xRange: Range,
    yRange: Range
  )

  /** The x values of a buffer strictly increase. */
  predicate Increasing(buf: seq<Point>) {
    forall i, j :: 0 <= i < j < |buf| ==> buf[i].x < buf[j].x
  }

  /** One buffer is bounded by `max_points`, its x values strictly increase and none exceeds `counter`. */
  predicate BufferOk(buf: seq<Point>, maxPoints: nat, counter: int) {
    |buf| <= maxPoints && Increasing(buf) && Bounded(buf, counter)
  }

  /** Every x in the buffer is a counter value in `1..counter`. */
  predicate Bounded(buf: seq<Point>, counter: int) {
    forall j :: 0 <= j < |buf| ==> 1 <= buf[j].x <= counter
  }

  /** Every buffer is well formed with respect to the chart's counter. */
  ghost predicate Valid(c: Chart) {
    forall i :: 0 <= i < |c.buffers| ==> BufferOk(c.buffers[i], c.maxPoints, c.counter)
  }

  /**
   * `TimeSeriesChart(title, series_names, max_points, y_range, auto_scale)`:
   * empty buffers, x axis `[0, max_points]`, y axis `y_range` or `[0, 100]`.
   */
  function NewChart(seriesCount: nat, maxPoints: nat, yRange: Option<Range>, autoScale: bool): (c: Chart)
    ensures Valid(c) && c.counter == 0 && |c.buffers| == seriesCount
    ensures forall i :: 0 <= i < seriesCount ==> c.buffers[i] == []
    ensures c.xRange == Range(0.0, maxPoints as real)
    ensures c.yRange == yRange.GetOr(Range(0.0, 100.0))
  {
    Chart(maxPoints, autoScale, 0, seq(seriesCount, _ => []), Range(0.0, maxPoints as real), yRange.GetOr(Range(0.0, 100.0)))
  }

  /** `del buf[:len(buf) - max_points]` when the buffer is too long: keeps the newest points. */
  function Trim(buf: seq<Point>, maxPoints: nat): (r: seq<Point>)
    ensures |r| == if |buf| <= maxPoints then |buf| else maxPoints
    ensures r == buf[|buf| - |r|..]
  {
    if |buf| > maxPoints then buf[|buf| - maxPoints..] else buf
  }

  /** The largest y in the buffer, or `floor` when none exceeds it. */
  function MaxY(buf: seq<Point>, floor: real): (m: real)
    ensures m >= floor
    ensures forall j :: 0 <= j < |buf| ==> buf[j].y <= m
    ensures m == floor || exists j :: 0 <= j < |buf| && buf[j].y == m
    decreases |buf|
  {
    if buf == [] then floor
    else
      var m0 := MaxY(buf[..|buf| - 1], floor);
      assert forall j :: 0 <= j < |buf| - 1 ==> buf[..|buf| - 1][j] == buf[j];
      var y := buf[|buf| - 1].y;
      if y > m0 then y else m0
  }

  /** The auto-scale loop: `current_max` starts at 1.0 and rises to each buffer's largest y. */
  function PeakY(bufs: seq<seq<Point>>): real
    decreases |bufs|
  {
    if bufs == [] then 1.0 else MaxY(bufs[|bufs| - 1], PeakY(bufs[..|bufs| - 1]))
  }

  /**
   * `r` is `buf` with the point `p` added at the end and then cut to its
   * newest `maxPoints` points.
   */
  predicate Kept(buf: seq<Point>, p: Point, maxPoints: nat, r: seq<Point>) {
    var grown := buf + [p];
    && |r| == (if |grown| <= maxPoints then |grown| else maxPoints)
    && r == grown[|grown| - |r|..]
  }

  /** One receiving buffer: the point `(x, y)` goes at the end, then the buffer is trimmed. */
  function Push(buf: seq<Point>, x: int, y: real, maxPoints: nat): (r: seq<Point>)
    requires BufferOk(buf, maxPoints, x - 1) && x >= 1
    ensures BufferOk(r, maxPoints, x)
    ensures Kept(buf, Point(x, y), maxPoints, r)
  {
    var grown := buf + [Point(x, y)];
    GrownIncreasing(buf, x, y);
    var r := Trim(grown, maxPoints);
    SuffixKeepsOrder(grown, |r|, x);
    r
  }

  lemma GrownIncreasing(buf: seq<Point>, x: int, y: real)
    requires Increasing(buf) && Bounded(buf, x - 1) && x >= 1
    ensures Increasing(buf + [Point(x, y)]) && Bounded(buf + [Point(x, y)], x)
  {
    var g := buf + [Point(x, y)];
    assert forall j :: 0 <= j < |buf| ==> g[j] == buf[j];
  }

  lemma SuffixKeepsOrder(buf: seq<Point>, k: nat, x: int)
    requires Increasing(buf) && Bounded(buf, x) && k <= |buf|
    ensures Increasing(buf[|buf| - k..]) && Bounded(buf[|buf| - k..], x)
  {
    var r := buf[|buf| - k..];
    assert forall j :: 0 <= j < k ==> r[j] == buf[|buf| - k + j];
  }

  lemma BuffersStayOk(bufs: seq<seq<Point>>, maxPoints: nat, x: int)
    requires forall i :: 0 <= i < |bufs| ==> BufferOk(bufs[i], maxPoints, x - 1)
    ensures forall i :: 0 <= i < |bufs| ==> BufferOk(bufs[i], maxPoints, x)
  {
  }

  /** The buffers after one `append` at counter value `x`. */
  function AppendBuffers(bufs: seq<seq<Point>>, values: seq<real>, x: int, maxPoints: nat): (r: seq<seq<Point>>)
    requires forall i :: 0 <= i < |bufs| ==> BufferOk(bufs[i], maxPoints, x - 1)
    requires x >= 1
    ensures |r| == |bufs|
    ensures forall i :: 0 <= i < |r| ==> BufferOk(r[i], maxPoints, x)
    ensures forall i :: |values| <= i < |bufs| ==> r[i] == bufs[i]
    ensures forall i :: 0 <= i < |bufs| && i < |values| ==> r[i] == Push(bufs[i], x, values[i], maxPoints)
  {
    BuffersStayOk(bufs, maxPoints, x);
    seq(|bufs|, i requires 0 <= i < |bufs| =>
      if i < |values| then Push(bufs[i], x, values[i], maxPoints) else bufs[i])
  }

  /**
   * `append(values)`: advances the counter; series `i < min(len(values), len(series))`
   * gets the point `(counter, values[i])` and is trimmed to `max_points`; the x
   * window follows the counter; with auto-scale the y range is recomputed.
   */
  function Append(c: Chart, values: seq<real>): (c': Chart)
    requires Valid(c)
    ensures Valid(c')
    ensures c'.counter == c.counter + 1
    ensures c'.maxPoints == c.maxPoints && c'.autoScale == c.autoScale && |c'.buffers| == |c.buffers|
    ensures forall i :: |values| <= i < |c.buffers| ==> c'.buffers[i] == c.buffers[i]
    ensures forall i :: 0 <= i < |c.buffers| && i < |values| ==>
      Kept(c.buffers[i], Point(c'.counter, values[i]), c.maxPoints, c'.buffers[i])
    ensures var x0 := if c'.counter > c.maxPoints then c'.counter - c.maxPoints else 0;
      c'.xRange == Range(x0 as real, (x0 + c.maxPoints) as real)
    ensures !c.autoScale ==> c'.yRange == c.yRange
    ensures c.autoScale ==> c'.yRange == Range(0.0, PeakY(c'.buffers) * 1.2)
  {
    var x := c.counter + 1;
    var x0 := if x > c.maxPoints then x - c.maxPoints else 0;
    var bufs := AppendBuffers(c.buffers, values, x, c.maxPoints);
    var yRange := if c.autoScale then Range(0.0, PeakY(bufs) * 1.2) else c.yRange;
    Chart(c.maxPoints, c.autoScale, x, bufs, Range(x0 as real, (x0 + c.maxPoints) as real), yRange)
  }

  // ---------------------------------------------------------------- properties

  /** The auto-scale peak is at least 1.0, bounds every y in every buffer, and is attained unless it is 1.0. */
  lemma {:induction false} PeakYIsMax(bufs: seq<seq<Point>>)
    ensures PeakY(bufs) >= 1.0
    ensures forall b, j :: 0 <= b < |bufs| && 0 <= j < |bufs[b]| ==> bufs[b][j].y <= PeakY(bufs)
    ensures PeakY(bufs) == 1.0 || exists b, j :: 0 <= b < |bufs| && 0 <= j < |bufs[b]| && bufs[b][j].y == PeakY(bufs)
    decreases |bufs|
  {
    if bufs != [] {
      var init := bufs[..|bufs| - 1];
      var last := bufs[|bufs| - 1];
      PeakYIsMax(init);
      assert forall b :: 0 <= b < |init| ==> bufs[b] == init[b];
      var m := MaxY(last, PeakY(init));
      if m != PeakY(init) {
        var j :| 0 <= j < |last| && last[j].y == m;
        assert bufs[|bufs| - 1][j].y == PeakY(bufs);
      } else if PeakY(init) != 1.0 {
        var b, j :| 0 <= b < |init| && 0 <= j < |init[b]| && init[b][j].y == PeakY(init);
        assert bufs[b][j].y == PeakY(bufs);
      }
    }
  }

  /** After an append, a receiving buffer ends with the new point (when it can hold any point). */
  lemma NewPointIsLast(c: Chart, values: seq<real>, i: nat)
    requires Valid(c) && i < |c.buffers| && i < |values| && c.maxPoints > 0
    ensures var b := Append(c, values).buffers[i];
      |b| > 0 && b[|b| - 1] == Point(c.counter + 1, values[i])
  {
  }

  /** Appending an empty list still advances the counter and the window, and changes no buffer. */
  lemma EmptyAppendOnlyTicks(c: Chart)
    requires Valid(c)
    ensures Append(c, []).buffers == c.buffers && Append(c, []).counter == c.counter + 1
  {
  }

  /** Once `max_points` samples went into a buffer, it stays full: `max_points` newest points. */
  lemma {:induction false} FullBufferStaysFull(c: Chart, values: seq<real>, i: nat)
    requires Valid(c) && i < |c.buffers| && i < |values| && |c.buffers[i]| == c.maxPoints
    ensures |Append(c, values).buffers[i]| == c.maxPoints
    ensures Append(c, values).buffers[i] == (c.buffers[i] + [Point(c.counter + 1, values[i])])[1..]
  {
  }
}
