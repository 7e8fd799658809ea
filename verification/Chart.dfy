/** Laying out the two-week chart: one axis for both weeks, a plot each, and a band for the line that leaves
    room for labels above and below. */
module Chart {
  import opened Aggregates
  import opened Arith
  import opened Tables
  import opened Hover
  import opened Axis
  import opened Labels

  const LABEL_ROW_H := LABEL_H + GAP
  const ROW_GAP := 30

  /** How many changes the week has. */
  function Changes(infos: seq<Row<Pair>>, t0: int): nat
  {
    if infos == [] then 0 else
    Changes(infos[..|infos| - 1], t0) + if t0 <= infos[|infos| - 1].ts < t0 + WEEK then 1 else 0
  }

  /** The number of changes with a time in the week. */
  lemma {:induction false} ChangesIs(infos: seq<Row<Pair>>, t0: int)
    ensures Changes(infos, t0) == |set i | 0 <= i < |infos| && t0 <= infos[i].ts < t0 + WEEK|
  {
    if infos != [] {
      var pre, n := infos[..|infos| - 1], |infos| - 1;
      ChangesIs(pre, t0);
      var was, now := (set i | 0 <= i < |pre| && t0 <= pre[i].ts < t0 + WEEK),
                      (set i | 0 <= i < |infos| && t0 <= infos[i].ts < t0 + WEEK);
      assert now == was + if t0 <= infos[n].ts < t0 + WEEK then {n} else {};
    }
  }

  /** The height kept free above and below the band for a number of changes. */
  function Reserve(changes: nat): int { if changes == 0 then 0 else if changes > 6 then 66 else 33 }

  /** The band of a plot whose week has that many changes. */
  predicate IsBand(plot: Rect, data: Rect, changes: nat)
  {
    var free := Reserve(changes);
    data == if plot.Height() - 2 * free < 40 then plot
            else Rect(plot.left, plot.top + free, plot.right, plot.bottom - free)
  }

  method LabelRows(infos: seq<Row<Pair>>, t0: int) returns (rows: nat)
    ensures rows == (if Changes(infos, t0) == 0 then 0 else if Changes(infos, t0) > 6 then 2 else 1)
  {
    var n := 0;
    for i := 0 to |infos|
      invariant n == Changes(infos[..i], t0)
    {
      assert infos[..i + 1][..i] == infos[..i];
      if t0 <= infos[i].ts < t0 + WEEK { n := n + 1; }
    }
    assert infos[..|infos|] == infos;
    rows := if n == 0 then 0 else if n > 6 then 2 else 1;
  }

  /** The band of the line: the plot less its label rows, unless that leaves too little. */
  method Band(plot: Rect, rows: nat) returns (data: Rect)
    requires plot.top <= plot.bottom
    ensures data.left == plot.left && data.right == plot.right && plot.top <= data.top <= data.bottom <= plot.bottom
    ensures var reserve := rows * LABEL_ROW_H;
            if plot.Height() - 2 * reserve < 40 then data == plot
            else data.top == plot.top + reserve && data.bottom == plot.bottom - reserve
  {
    var reserve := rows * LABEL_ROW_H;
    data := Rect(plot.left, plot.top + reserve, plot.right, plot.bottom - reserve);
    if data.Height() < 40 { data := plot; }
  }

  method Greatest(pts: seq<Row<int>>) returns (vmax: Int32)
    requires forall i :: 0 <= i < |pts| ==> IsInt(pts[i].pair)
    ensures 0 <= vmax && forall i :: 0 <= i < |pts| ==> pts[i].pair <= vmax as int
    ensures vmax == 0 || exists i :: 0 <= i < |pts| && pts[i].pair == vmax as int
  {
    vmax := 0;
    for i := 0 to |pts|
      invariant 0 <= vmax && forall k :: 0 <= k < i ==> pts[k].pair <= vmax as int
      invariant vmax == 0 || exists k :: 0 <= k < |pts| && pts[k].pair == vmax as int
    {
      if pts[i].pair > vmax as int { vmax := pts[i].pair as Int32; }
    }
  }

  /** One week's plot, with room in it for the labels of its own changes. */
  method PlotWeek(plot: Rect, infos: seq<Row<Pair>>, t0: int, ymax: int) returns (f: Week)
    requires plot.top <= plot.bottom && ymax >= 1
    ensures f.plot == plot && f.t0 == t0 && f.ymax == ymax && IsBand(plot, f.data, Changes(infos, t0))
    ensures f.data.left == plot.left && f.data.right == plot.right
    ensures plot.top <= f.data.top <= f.data.bottom <= plot.bottom
  {
    var rows := LabelRows(infos, t0);
    var data := Band(plot, rows);
    f := WeekPlot(plot, data, t0, ymax);
  }

  /** The two plots of a chart area, last week's above this week's, or nothing if the area is too small.  Both
      are sane, lie inside the area one above the other, share the axis, and every number that is not
      negative is on it; the band of each leaves room for the labels of its own week. */
  method Layout(rc: Rect, pts: seq<Row<int>>, infos: seq<Row<Pair>>, week0: int) returns (weeks: Option<(Week, Week)>)
    requires INT_MIN <= rc.left && INT_MIN <= rc.top && rc.right <= INT_MAX && rc.bottom <= INT_MAX
    requires forall i :: 0 <= i < |pts| ==> INT_MIN <= pts[i].pair < 2_000_000_000
    ensures weeks.None? <==> rc.Width() < 82 || rc.Height() < 112
    ensures weeks.Some? ==>
              var (a, b) := weeks.value;
              && Sane(a) && Sane(b) && a.t0 == week0 && b.t0 == week0 + WEEK && a.ymax == b.ymax
              && rc.left < a.plot.left == b.plot.left && a.plot.right == b.plot.right < rc.right
              && rc.top < a.plot.top && a.plot.bottom + ROW_GAP <= b.plot.top && b.plot.bottom < rc.bottom
              && (forall i :: 0 <= i < |pts| && pts[i].pair >= 0 ==> pts[i].pair < a.ymax)
              && a.plot == Rect(rc.left + 60, rc.top + 40, rc.right - 12, rc.top + 40 + (rc.Height() - 92) / 2)
              && b.plot == Rect(rc.left + 60, a.plot.bottom + 30, rc.right - 12, rc.bottom - 22)
              && IsBand(a.plot, a.data, Changes(infos, week0))
              && IsBand(b.plot, b.data, Changes(infos, week0 + WEEK))
  {
    var vmax := Greatest(pts);
    var step, ymax := AxisStep(vmax);
    AxisShape(vmax as int, step as int);
    var left, right, top, bottom := rc.left + 60, rc.right - 12, rc.top + 40, rc.bottom - 22;
    var rowH := (bottom - top - ROW_GAP) / 2;
    if right - left < 10 || rowH < 10 { return None; }
    var above := Rect(left, top, right, top + rowH);
    var below := Rect(left, top + rowH + ROW_GAP, right, bottom);
    var a := PlotWeek(above, infos, week0, ymax as int);
    var b := PlotWeek(below, infos, week0 + WEEK, ymax as int);
    weeks := Some((a, b));
  }

  /** Numbers drawn without 32-bit overflow in any chart of the area: those on the axis, and negative ones that stay
      in range even on the shortest axis. */
  predicate InReach(rc: Rect, v: int)
  {
    INT_MIN <= v < 2_000_000_000 && (v < 0 ==> rc.bottom - v * rc.Height() < INT_MAX)
  }

  lemma ReachIsDrawn(rc: Rect, f: Week, v: int)
    requires Sane(f) && rc.top <= f.data.top && f.data.bottom <= rc.bottom && InReach(rc, v) && v <= f.ymax
    ensures INT_MIN <= Y(f, v) < INT_MAX
  {
    if v < 0 {
      NegativeIsBelow(f, v);
      MulMono(f.data.Height(), rc.Height(), -v);
    } else {
      NumberInBand(f, v);
    }
  }

  /** The annotated chart: both weeks laid out and labelled.  Whatever the area, the samples in time order and
      the changes, every plot handed to the placement is one it can draw on, so every label is inside its plot,
      apart from the others and clear of the line, but for negative numbers drawn below the band. */
  method Annotate(rc: Rect, s: Scene, week0: int)
    returns (weeks: Option<(Week, Week)>, above: seq<Mark>, below: seq<Mark>)
    requires INT_MIN <= rc.left && INT_MIN <= rc.top && rc.right <= INT_MAX && rc.bottom <= INT_MAX
    requires Ascending(s.pts) && Hypot(s.hypot)
    requires forall i :: 0 <= i < |s.pts| ==> InReach(rc, s.pts[i].pair)
    ensures weeks.None? <==> rc.Width() < 82 || rc.Height() < 112
    ensures weeks.Some? ==> Annotated(weeks.value.0, s, above) && Annotated(weeks.value.1, s, below)
  {
    above, below := [], [];
    weeks := Layout(rc, s.pts, s.infos, week0);
    if weeks.Some? {
      var (a, b) := weeks.value;
      forall i | 0 <= i < |s.pts|
        ensures INT_MIN <= Y(a, s.pts[i].pair) < INT_MAX && INT_MIN <= Y(b, s.pts[i].pair) < INT_MAX
        ensures s.pts[i].pair <= a.ymax && s.pts[i].pair <= b.ymax
      {
        ReachIsDrawn(rc, a, s.pts[i].pair);
        ReachIsDrawn(rc, b, s.pts[i].pair);
      }
      above := PlaceAll(a, s);
      below := PlaceAll(b, s);
      PlacedIsAnnotated(a, s, above);
      PlacedIsAnnotated(b, s, below);
    }
  }

  /** Every entry has its mark; labels are inside, apart and clear. */
  ghost predicate Annotated(f: Week, s: Scene, marks: seq<Mark>)
  {
    && |marks| == |s.infos|
    && (forall k :: 0 <= k < |marks| ==> (marks[k].Skipped? <==> !InWeek(f, s.infos[k].ts)))
    && (forall k :: 0 <= k < |marks| && marks[k].Label? ==> Within(f.plot, marks[k].rect))
    && (forall k, n :: 0 <= n < k < |marks| && marks[k].Label? && marks[n].Label? ==>
          Apart(marks[k].rect, marks[n].rect))
    && (forall k, i :: 0 <= k < |marks| && marks[k].Label? && 0 <= i < |s.pts| && InWeek(f, s.pts[i].ts) ==>
          var r, v := marks[k].rect, s.pts[i].pair;
          Clear(f, r, X(f, s.pts[i].ts), Y(f, v)) || Under(f, r, v, Y(f, v)))
  }

  predicate Within(plot: Rect, r: Rect)
  {
    plot.left <= r.left && r.right <= plot.right && plot.top < r.top && r.bottom < plot.bottom
  }

  lemma PlacedIsAnnotated(f: Week, s: Scene, marks: seq<Mark>)
    requires Drawable(f, s) && |marks| == |s.infos| && Placements(f, s, marks)
    requires forall i :: 0 <= i < |s.pts| ==> s.pts[i].pair <= f.ymax && Y(f, s.pts[i].pair) < INT_MAX
    ensures Annotated(f, s, marks)
  {
    forall k | 0 <= k < |marks| ensures marks[k].Skipped? <==> !InWeek(f, s.infos[k].ts) {
      assert Placement(f, s, marks, k);
    }
    forall k | 0 <= k < |marks| && marks[k].Label? ensures Within(f.plot, marks[k].rect) {
      LabelInside(f, s, marks, k);
    }
    forall k, n | 0 <= n < k < |marks| && marks[k].Label? && marks[n].Label?
      ensures Apart(marks[k].rect, marks[n].rect)
    {
      LabelsApart(f, s, marks, k, n);
    }
    forall k, i | 0 <= k < |marks| && marks[k].Label? && 0 <= i < |s.pts| && InWeek(f, s.pts[i].ts)
      ensures var r, v := marks[k].rect, s.pts[i].pair;
              Clear(f, r, X(f, s.pts[i].ts), Y(f, v)) || Under(f, r, v, Y(f, v))
    {
      LabelsClear(f, s, marks, k, i);
    }
  }
}
