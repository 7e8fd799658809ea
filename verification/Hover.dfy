/** Finding the sample under the mouse: pixel to time, binary search, nearest of two neighbours. */
module Hover {
  import opened Aggregates
  import opened Arith
  import opened Tables

  const REACH := 12   // pixels

  /** Windows' RECT: right and bottom are outside. */
  datatype Rect = Rect(left: int, top: int, right: int, bottom: int) {
    function Width(): int { right - left }
    function Height(): int { bottom - top }
    predicate Has(x: int, y: int) { left <= x < right && top <= y < bottom }
  }

  /** Which samples may be picked: all of them, or those of one week. */
  datatype Span = All | Within(lo: int, hi: int)

  predicate InSpan(sp: Span, t: int)
  {
    sp.All? || sp.lo <= t < sp.hi
  }

  function Dist(a: int, b: int): nat
  {
    if a <= b then b - a else a - b
  }

  /** std::lower_bound. */
  method LowerBound(pts: seq<Row<int>>, ts: int) returns (r: nat)
    requires Ascending(pts)
    ensures r <= |pts|
    ensures forall i :: 0 <= i < r ==> pts[i].ts < ts
    ensures forall i :: r <= i < |pts| ==> ts <= pts[i].ts
  {
    r := 0;
    var count := |pts|;
    while count > 0
      invariant 0 <= count && r + count <= |pts|
      invariant forall i :: 0 <= i < r ==> pts[i].ts < ts
      invariant forall i :: r + count <= i < |pts| ==> ts <= pts[i].ts
    {
      var step := count / 2;
      if pts[r + step].ts < ts {
        r, count := r + step + 1, count - (step + 1);
      } else {
        count := step;
      }
    }
  }

  /** i is the nearest sample of the span; of two equally near the later one. */
  ghost predicate IsNearest(pts: seq<Row<int>>, ts: int, sp: Span, i: int)
  {
    && 0 <= i < |pts| && InSpan(sp, pts[i].ts)
    && forall j :: 0 <= j < |pts| && InSpan(sp, pts[j].ts) ==>
         Dist(pts[i].ts, ts) < Dist(pts[j].ts, ts) || (Dist(pts[i].ts, ts) == Dist(pts[j].ts, ts) && j <= i)
  }

  /** The candidate at the lower bound and the one before it are enough. */
  method Nearest(pts: seq<Row<int>>, ts: int, sp: Span) returns (best: Option<nat>)
    requires Ascending(pts) && InSpan(sp, ts)
    ensures best.None? <==> forall j :: 0 <= j < |pts| ==> !InSpan(sp, pts[j].ts)
    ensures best.Some? ==> IsNearest(pts, ts, sp, best.value)
  {
    var lb := LowerBound(pts, ts);
    best := None;
    if lb < |pts| && InSpan(sp, pts[lb].ts) { best := Some(lb); }
    if lb > 0 && InSpan(sp, pts[lb - 1].ts) && (best.None? || Dist(pts[lb - 1].ts, ts) < Dist(pts[best.value].ts, ts)) {
      best := Some(lb - 1);
    }
  }

  /** The time a pixel column stands for, and the seconds a pixel is worth, in a plot of the given left edge
      and width that starts at t0 and is len seconds long. */
  function ColumnTime(x: int, left: int, width: int, t0: int, len: nat): int
  {
    t0 + (x - left) * len / Max1(width)
  }

  function SecPerPixel(width: int, len: nat): nat { len / Max1(width) }

  function Max1(w: int): int { if w < 1 then 1 else w }

  /** The column a sample is drawn in. */
  function Column(ts: int, left: int, width: int, t0: int, len: nat): int
    requires len > 0
  {
    left + (ts - t0) * width / len
  }

  /** The sample picked for a pixel column: the nearest, if any lies within twelve pixels' worth of time. */
  ghost predicate Picked(pts: seq<Row<int>>, x: int, plot: Rect, t0: int, len: nat, sp: Span, idx: int)
  {
    var ts := ColumnTime(x, plot.left, plot.Width(), t0, len);
    var reach := REACH * SecPerPixel(plot.Width(), len);
    if exists j :: 0 <= j < |pts| && InSpan(sp, pts[j].ts) && Dist(pts[j].ts, ts) <= reach
    then IsNearest(pts, ts, sp, idx) && Dist(pts[idx].ts, ts) <= reach
    else idx == -1
  }

  method Pick(pts: seq<Row<int>>, x: int, plot: Rect, t0: int, len: nat, sp: Span) returns (idx: int)
    requires Ascending(pts) && len > 0 && plot.left <= x < plot.right
    requires sp == All || sp == Within(t0, t0 + len)
    ensures Picked(pts, x, plot, t0, len, sp, idx)
  {
    var ts := ColumnTime(x, plot.left, plot.Width(), t0, len);
    InPlot(x, plot.left, plot.Width(), t0, len);
    var best := Nearest(pts, ts, sp);
    idx := -1;
    if best.Some? && Dist(pts[best.value].ts, ts) <= REACH * SecPerPixel(plot.Width(), len) { idx := best.value; }
  }

  /** A column inside the plot stands for a time inside it. */
  lemma InPlot(x: int, left: int, width: int, t0: int, len: nat)
    requires left <= x < left + width && len > 0
    ensures t0 <= ColumnTime(x, left, width, t0, len) < t0 + len
  {
    var c := x - left;
    MulMono(0, c, len);
    DivAtLeast(c * len, width, 0);
    assert c * len < len * width by { MulMono(c + 1, width, len); }
    if c * len / width >= len {
      DivBounds(c * len, width);
      MulMono(len, c * len / width, width);
    }
  }

  /** Scaling down and rounding. */
  lemma Forth(d: int, width: int, len: int)
    requires width >= 1 && 0 <= d < len
    ensures var c := d * width / len;
            0 <= c < width && c * len <= d * width < c * len + len
  {
    var c := d * width / len;
    MulMono(0, d, width);
    DivAtLeast(d * width, len, 0);
    DivBounds(d * width, len);
    MulMono(d + 1, len, width);
    if c >= width { MulMono(width, c, len); }
  }

  /** Scaling back up and rounding again. */
  lemma Back(d: int, c: int, width: int, len: int)
    requires width >= 1 && len >= 1 && c * len <= d * width < c * len + len
    ensures var b := c * len / width;
            b <= d && (d - b) * width < len + width && d - b <= len / width + 1
  {
    var b := c * len / width;
    DivBounds(c * len, width);
    if b > d { MulMono(d + 1, b, width); }
    assert (d - b) * width == d * width - b * width;
    assert (d - b - 1) * width == (d - b) * width - width;
    DivAtLeast(len, width, d - b - 1);
  }

  /** Drawing a sample and pointing at its column loses less than one pixel's worth of time plus a second. */
  lemma RoundTrip(ts: int, left: int, width: int, t0: int, len: nat)
    requires width >= 1 && t0 <= ts < t0 + len
    ensures var x := Column(ts, left, width, t0, len);
            var back := ColumnTime(x, left, width, t0, len);
            && left <= x < left + width
            && back <= ts && (ts - back) * width < len + width
            && ts - back <= SecPerPixel(width, len) + 1
  {
    Forth(ts - t0, width, len);
    Back(ts - t0, (ts - t0) * width / len, width, len);
  }

  /** Nothing is picked that is more than twelve pixels away, or that may not be. */
  lemma PickedIsNear(pts: seq<Row<int>>, x: int, plot: Rect, t0: int, len: nat, idx: int)
    requires plot.Width() >= 1 && 0 <= idx < |pts|
    requires Picked(pts, x, plot, t0, len, Within(t0, t0 + len), idx) || Picked(pts, x, plot, t0, len, All, idx)
    ensures Dist(pts[idx].ts, ColumnTime(x, plot.left, plot.Width(), t0, len)) * plot.Width() <= 12 * len
    ensures Picked(pts, x, plot, t0, len, Within(t0, t0 + len), idx) ==> t0 <= pts[idx].ts < t0 + len
  {
    var w := plot.Width();
    var d := Dist(pts[idx].ts, ColumnTime(x, plot.left, w, t0, len));
    DivBounds(len, w);
    MulMono(d, 12 * (len / w), w);
    assert 12 * (len / w) * w == 12 * (len / w * w);
  }

  /** In the view of one week every drawn sample of it can be pointed at: its column picks one of the week. */
  lemma DrawnWeekSampleIsPicked(pts: seq<Row<int>>, i: nat, plot: Rect, t0: int, len: nat)
    requires i < |pts| && t0 <= pts[i].ts < t0 + len && 1 <= plot.Width() <= len
    ensures var x := Column(pts[i].ts, plot.left, plot.Width(), t0, len);
            forall idx :: Picked(pts, x, plot, t0, len, Within(t0, t0 + len), idx) ==>
              0 <= idx < |pts| && t0 <= pts[idx].ts < t0 + len
  {
    DrawnSampleIsPicked(pts, i, plot, t0, len, Within(t0, t0 + len));
  }

  /** Completeness of the hover: with at least a pixel and at most a pixel per second, pointing at the column
      of any drawn sample picks a sample, no farther from the column's time than the drawn one. */
  lemma DrawnSampleIsPicked(pts: seq<Row<int>>, i: nat, plot: Rect, t0: int, len: nat, sp: Span)
    requires i < |pts| && t0 <= pts[i].ts < t0 + len && 1 <= plot.Width() <= len && InSpan(sp, pts[i].ts)
    ensures var x := Column(pts[i].ts, plot.left, plot.Width(), t0, len);
            var ts := ColumnTime(x, plot.left, plot.Width(), t0, len);
            && plot.left <= x < plot.right
            && forall idx :: Picked(pts, x, plot, t0, len, sp, idx) ==>
                 0 <= idx < |pts| && InSpan(sp, pts[idx].ts) && Dist(pts[idx].ts, ts) <= Dist(pts[i].ts, ts)
  {
    RoundTrip(pts[i].ts, plot.left, plot.Width(), t0, len);
    DivAtLeast(len, plot.Width(), 1);
  }
}
