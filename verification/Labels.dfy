/** Placing the labels of title changes: greedily, on a grid, clear of each other and of the line. */
module Labels {
  import opened Aggregates
  import opened Arith
  import opened Tables
  import opened Hover

  const GAP := 3
  const LINE_H := 14
  const LABEL_H := 2 * LINE_H + 2
  const MAX_LABEL_W := 220

  /** One week's plot: the whole area, the band the line is drawn in, the start of the week, the axis. */
  datatype WeekPlot = WeekPlot(plot: Rect, data: Rect, t0: int, ymax: int)

  type Week = f: WeekPlot | f.ymax >= 1 witness WeekPlot(Rect(0, 0, 1, 1), Rect(0, 0, 1, 1), 0, 1)

  /** What the caller guarantees: a plot of some width, the band inside it, everything within int. */
  predicate Sane(f: Week)
  {
    && f.plot.Width() >= 1
    && INT_MIN < f.plot.top <= f.data.top <= f.data.bottom <= f.plot.bottom < INT_MAX
    && f.data.left == f.plot.left && f.data.right == f.plot.right
  }

  predicate InWeek(f: Week, ts: int) { f.t0 <= ts < f.t0 + WEEK }

  function X(f: Week, ts: int): int { Column(ts, f.plot.left, f.plot.Width(), f.t0, WEEK) }

  /** Truncating division. */
  function Quot(a: int, b: int): int
    requires b >= 1
  {
    if a >= 0 then a / b else -(-a / b)
  }

  function Y(f: Week, v: int): int
  {
    f.data.bottom - Quot(v * f.data.Height(), f.ymax)
  }

  /** Times and numbers are drawn to scale, to the pixel below. */
  lemma DrawnToScale(f: Week, ts: int, v: int)
    requires Sane(f) && InWeek(f, ts) && 0 <= v <= f.ymax
    ensures var x := X(f, ts) - f.plot.left;
            x * WEEK <= (ts - f.t0) * f.plot.Width() < x * WEEK + WEEK
    ensures var y := f.data.bottom - Y(f, v);
            y * f.ymax <= v * f.data.Height() < y * f.ymax + f.ymax
  {
    Forth(ts - f.t0, f.plot.Width(), WEEK);
    MulMono(0, v, f.data.Height());
    DivBounds(v * f.data.Height(), f.ymax);
  }

  /** Negative numbers are drawn on the lower edge of the band or below it. */
  lemma NegativeIsBelow(f: Week, v: int)
    requires Sane(f) && v < 0
    ensures f.data.bottom <= Y(f, v) <= f.data.bottom - v * f.data.Height()
  {
    var h := f.data.Height();
    MulMono(v, 0, h);
    DivAtLeast(-(v * h), f.ymax, 0);
    DivBounds(-(v * h), f.ymax);
    if v * h < 0 { MulMono(1, f.ymax, -(v * h) / f.ymax); }
  }

  /** Numbers on the axis are drawn in the band. */
  lemma NumberInBand(f: Week, v: int)
    requires Sane(f) && 0 <= v <= f.ymax
    ensures f.data.top <= Y(f, v) <= f.data.bottom
  {
    var h := f.data.Height();
    MulMono(0, v, h);
    MulMono(v, f.ymax, h);
    DivAtLeast(v * h, f.ymax, 0);
    DivMono(v * h, f.ymax * h, f.ymax);
    DivIs(h * f.ymax, f.ymax, h);
  }

  /** Numbers on the axis are drawn in the band, times of the week inside the plot. */
  lemma DrawnInBand(f: Week, ts: int, v: int)
    requires Sane(f) && InWeek(f, ts) && 0 <= v <= f.ymax
    ensures f.plot.left <= X(f, ts) < f.plot.right && f.data.top <= Y(f, v) <= f.data.bottom
  {
    RoundTrip(ts, f.plot.left, f.plot.Width(), f.t0, WEEK);
    NumberInBand(f, v);
  }

  // ----- the rows of pixels the line takes in each column -----

  function Min(a: int, b: int): int { if b < a then b else a }
  function Max(a: int, b: int): int { if b > a then b else a }

  /** Highest and lowest sample of the week in a column; (INT_MAX, INT_MIN) if there is none. */
  function Band(f: Week, pts: seq<Row<int>>, col: int): (int, int)
  {
    if pts == [] then (INT_MAX, INT_MIN) else
    var (lo, hi), p := Band(f, pts[..|pts| - 1], col), pts[|pts| - 1];
    if InWeek(f, p.ts) && X(f, p.ts) - f.plot.left == col then (Min(lo, Y(f, p.pair)), Max(hi, Y(f, p.pair)))
    else (lo, hi)
  }

  lemma {:induction false} BandCovers(f: Week, pts: seq<Row<int>>, i: nat)
    requires i < |pts| && InWeek(f, pts[i].ts)
    ensures var (lo, hi) := Band(f, pts, X(f, pts[i].ts) - f.plot.left);
            lo <= Y(f, pts[i].pair) <= hi
  {
    if i < |pts| - 1 { BandCovers(f, pts[..|pts| - 1], i); }
  }

  method Columns(f: Week, pts: seq<Row<int>>) returns (top: seq<int>, bot: seq<int>)
    requires Sane(f)
    ensures |top| == |bot| == f.plot.Width() + 1
    ensures forall c :: 0 <= c <= f.plot.Width() ==> (top[c], bot[c]) == Band(f, pts, c)
  {
    var w := Max1(f.plot.Width());
    top, bot := seq(w + 1, _ => INT_MAX), seq(w + 1, _ => INT_MIN);
    for i := 0 to |pts|
      invariant |top| == |bot| == w + 1
      invariant forall c :: 0 <= c <= w ==> (top[c], bot[c]) == Band(f, pts[..i], c)
    {
      assert pts[..i + 1][..i] == pts[..i];
      if InWeek(f, pts[i].ts) {
        var cx, cy := X(f, pts[i].ts) - f.plot.left, Y(f, pts[i].pair);
        if 0 <= cx <= w {
          top := top[cx := Min(top[cx], cy)];
          bot := bot[cx := Max(bot[cx], cy)];
        }
      }
    }
    assert pts[..|pts|] == pts;
  }

  /** Does the line take a row of [y0, y1] in pixel column x? */
  predicate LineAt(f: Week, pts: seq<Row<int>>, x: int, y0: int, y1: int)
  {
    var (lo, hi) := Band(f, pts, x - f.plot.left);
    0 <= x - f.plot.left <= f.plot.Width() && lo != INT_MAX && lo <= y1 && hi >= y0
  }

  predicate LineNear(f: Week, pts: seq<Row<int>>, r: Rect, x: int)
  {
    r.left - GAP <= x <= r.right + GAP && LineAt(f, pts, x, r.top - GAP, r.bottom + GAP)
  }

  ghost predicate HitsLine(f: Week, pts: seq<Row<int>>, r: Rect)
  {
    exists x :: LineNear(f, pts, r, x)
  }

  method CheckLine(f: Week, ghost pts: seq<Row<int>>, top: seq<int>, bot: seq<int>, r: Rect) returns (hit: bool)
    requires Sane(f) && |top| == |bot| == f.plot.Width() + 1
    requires forall c :: 0 <= c <= f.plot.Width() ==> (top[c], bot[c]) == Band(f, pts, c)
    ensures hit <==> HitsLine(f, pts, r)
  {
    var x := r.left - GAP;
    while x <= r.right + GAP
      invariant x >= r.left - GAP
      invariant forall u :: u < x ==> !LineNear(f, pts, r, u)
      decreases r.right + GAP - x
    {
      var c := x - f.plot.left;
      if 0 <= c <= f.plot.Width() && top[c] != INT_MAX && top[c] <= r.bottom + GAP && bot[c] >= r.top - GAP {
        assert (top[c], bot[c]) == Band(f, pts, c);
        assert LineNear(f, pts, r, x);
        return true;
      }
      assert 0 <= c <= f.plot.Width() ==> (top[c], bot[c]) == Band(f, pts, c);
      x := x + 1;
    }
    return false;
  }

  // ----- labels against labels -----

  predicate NonEmptyRect(r: Rect) { r.left < r.right && r.top < r.bottom }

  /** IntersectRect: whether two rectangles share a pixel. */
  predicate Intersects(a: Rect, b: Rect)
  {
    && NonEmptyRect(a) && NonEmptyRect(b)
    && Max(a.left, b.left) < Min(a.right, b.right) && Max(a.top, b.top) < Min(a.bottom, b.bottom)
  }

  function Inflated(r: Rect): Rect { Rect(r.left - GAP, r.top - GAP, r.right + GAP, r.bottom + GAP) }

  predicate HitsLabel(placed: seq<Rect>, r: Rect)
  {
    exists i :: 0 <= i < |placed| && Intersects(Inflated(r), placed[i])
  }

  method CheckLabels(placed: seq<Rect>, r: Rect) returns (hit: bool)
    ensures hit == HitsLabel(placed, r)
  {
    for i := 0 to |placed|
      invariant forall k :: 0 <= k < i ==> !Intersects(Inflated(r), placed[k])
    {
      if Intersects(Inflated(r), placed[i]) { return true; }
    }
    return false;
  }

  /** At least GAP pixels between them, sideways or up and down. */
  predicate Apart(a: Rect, b: Rect)
  {
    a.right + GAP <= b.left || b.right + GAP <= a.left || a.bottom + GAP <= b.top || b.bottom + GAP <= a.top
  }

  // ----- the grid of candidates -----

  /** An entry to place: the point of its change and the width of its text box. */
  datatype Entry = Entry(x: int, y: int, w: int)

  function XLo(f: Week, e: Entry): int { Max(f.plot.left, e.x - e.w - 260) }
  function XHi(f: Week, e: Entry): int { Min(f.plot.right - e.w, e.x + 260) }

  /** The candidate in row i and column j of the grid. */
  function Cand(f: Week, e: Entry, i: int, j: int): Rect
  {
    var lx, ly := XLo(f, e) + 8 * j, f.plot.top + 1 + 6 * i;
    Rect(lx, ly, lx + e.w, ly + LABEL_H)
  }

  predicate InGrid(f: Week, e: Entry, i: int, j: int)
  {
    && 0 <= i && f.plot.top + 1 + 6 * i + LABEL_H <= f.plot.bottom - 1
    && 0 <= j && XLo(f, e) + 8 * j <= XHi(f, e)
  }

  predicate InData(f: Week, r: Rect) { r.bottom > f.data.top && r.top < f.data.bottom }

  ghost predicate Feasible(f: Week, pts: seq<Row<int>>, placed: seq<Rect>, r: Rect)
  {
    !HitsLabel(placed, r) && !(InData(f, r) && HitsLine(f, pts, r))
  }

  /** Scan order: row by row, left to right. */
  predicate Earlier(i: int, j: int, k: int, l: int) { i < k || (i == k && j < l) }

  /** (i, j) is feasible, and among the feasible candidates scanned before (k, l) the first of least score. */
  ghost predicate FirstBest(f: Week, pts: seq<Row<int>>, placed: seq<Rect>, e: Entry, score: Rect -> real, i: int,
        j: int, k: int, l: int)
  {
    && InGrid(f, e, i, j) && Earlier(i, j, k, l) && Feasible(f, pts, placed, Cand(f, e, i, j))
    && forall a, b :: InGrid(f, e, a, b) && Earlier(a, b, k, l) && Feasible(f, pts, placed, Cand(f, e, a, b)) ==>
         && score(Cand(f, e, i, j)) <= score(Cand(f, e, a, b))
         && (Earlier(a, b, i, j) ==> score(Cand(f, e, i, j)) < score(Cand(f, e, a, b)))
  }

  ghost predicate NoneFeasible(f: Week, pts: seq<Row<int>>, placed: seq<Rect>, e: Entry, k: int, l: int)
  {
    forall a, b :: InGrid(f, e, a, b) && Earlier(a, b, k, l) ==> !Feasible(f, pts, placed, Cand(f, e, a, b))
  }

  /** The result of one placement, over the whole grid. */
  ghost predicate Chosen(f: Week, pts: seq<Row<int>>, placed: seq<Rect>, e: Entry, score: Rect -> real,
        best: Option<Rect>)
  {
    match best
    case None => forall a, b :: InGrid(f, e, a, b) ==> !Feasible(f, pts, placed, Cand(f, e, a, b))
    case Some(r) => exists i, j, k :: r == Cand(f, e, i, j) && FirstBest(f, pts, placed, e, score, i, j, k, 0)
                                      && forall a, b :: InGrid(f, e, a, b) ==> a < k
  }

  // ----- the score of a candidate -----

  function Abs(a: int): nat { if a < 0 then -a else a }

  function Clamp(v: int, lo: int, hi: int): int { if v < lo then lo else if hi < v then hi else v }

  /** How many columns the leader from (px, py) crosses the line in, from step i on; a column seen in the
      step before counts once. */
  function Crossings(f: Week, pts: seq<Row<int>>, px: int, py: int, dx: int, dy: int, i: nat,
        last: Option<int>): (n: nat)
    ensures n <= Max(Abs(dx), Abs(dy)) + 1
    ensures i <= Max(Abs(dx), Abs(dy)) ==> n <= Max(Abs(dx), Abs(dy)) - i + 1
    decreases Max(Abs(dx), Abs(dy)) + 1 - i
  {
    var steps := Max(Abs(dx), Abs(dy));
    if i > steps then 0 else
    var x, y := px + Quot(dx * i, Max1(steps)), py + Quot(dy * i, Max1(steps));
    if Some(x) == last then Crossings(f, pts, px, py, dx, dy, i + 1, last)
    else (if LineAt(f, pts, x, y - 1, y + 1) then 1 else 0) + Crossings(f, pts, px, py, dx, dy, i + 1, Some(x))
  }

  /** Distance, with penalties for lying in the band, for a leader across the line, and for being too close.
      `hypot` is given. */
  function Score(f: Week, pts: seq<Row<int>>, e: Entry, r: Rect, hypot: (int, int) -> real): real
  {
    var dx, dy := Clamp(e.x, r.left, r.right) - e.x, Clamp(e.y, r.top, r.bottom) - e.y;
    var dist := hypot(dx, dy);
    dist + (if InData(f, r) then 40.0 else 0.0) + 25.0 * Crossings(f, pts, e.x, e.y, dx, dy, 4, None) as real
      + (if dist < 6.0 then 20.0 else 0.0)
  }

  function ScoreOf(f: Week, pts: seq<Row<int>>, e: Entry, hypot: (int, int) -> real): Rect -> real
  {
    r => Score(f, pts, e, r, hypot)
  }

  /** All that is asked of `hypot`: the triangle inequality. */
  ghost predicate Hypot(hypot: (int, int) -> real)
  {
    forall dx, dy :: 0.0 <= hypot(dx, dy) <= (Abs(dx) + Abs(dy)) as real
  }

  predicate IsInt(v: int) { INT_MIN <= v <= INT_MAX }

  /** A leader is at most 2^32 long in either direction. */
  lemma LeaderBounds(f: Week, e: Entry, i: int, j: int)
    requires Sane(f) && IsInt(e.x) && IsInt(e.y) && InGrid(f, e, i, j)
    ensures var r := Cand(f, e, i, j);
            && Abs(Clamp(e.x, r.left, r.right) - e.x) <= 0x1_0000_0000
            && Abs(Clamp(e.y, r.top, r.bottom) - e.y) <= 0x1_0000_0000
  {
  }

  /** Scores of candidates are far below 10^17. */
  lemma ScoresAreModest(f: Week, pts: seq<Row<int>>, e: Entry, hypot: (int, int) -> real, i: int, j: int)
    requires Sane(f) && Hypot(hypot) && IsInt(e.x) && IsInt(e.y) && InGrid(f, e, i, j)
    ensures ScoreOf(f, pts, e, hypot)(Cand(f, e, i, j)) < 1e17
  {
    LeaderBounds(f, e, i, j);
    ScoreBound(f, pts, e, Cand(f, e, i, j), hypot);
  }

  lemma ScoreBound(f: Week, pts: seq<Row<int>>, e: Entry, r: Rect, hypot: (int, int) -> real)
    requires Hypot(hypot)
    requires Abs(Clamp(e.x, r.left, r.right) - e.x) <= 0x1_0000_0000
    requires Abs(Clamp(e.y, r.top, r.bottom) - e.y) <= 0x1_0000_0000
    ensures Score(f, pts, e, r, hypot) < 1e17
  {
    var dx, dy := Clamp(e.x, r.left, r.right) - e.x, Clamp(e.y, r.top, r.bottom) - e.y;
    ModestSum(hypot(dx, dy), Crossings(f, pts, e.x, e.y, dx, dy, 4, None), Abs(dx) + Abs(dy));
  }

  lemma ModestSum(dist: real, n: nat, d: nat)
    requires dist <= d as real && d <= 0x2_0000_0000 && n <= 0x1_0000_0001
    ensures dist + 25.0 * n as real + 60.0 < 1e17
  {
    assert n as real <= 0x1_0000_0001 as real;
  }

  method CountCrossings(f: Week, ghost pts: seq<Row<int>>, top: seq<int>, bot: seq<int>, px: int, py: int, dx: int,
        dy: int) returns (n: nat)
    requires Sane(f) && |top| == |bot| == f.plot.Width() + 1
    requires forall c :: 0 <= c <= f.plot.Width() ==> (top[c], bot[c]) == Band(f, pts, c)
    ensures n == Crossings(f, pts, px, py, dx, dy, 4, None)
  {
    var steps := Max(Abs(dx), Abs(dy));
    var last, i: nat := None, 4;
    n := 0;
    while i <= steps
      invariant n + Crossings(f, pts, px, py, dx, dy, i, last) == Crossings(f, pts, px, py, dx, dy, 4, None)
      decreases steps + 1 - i
    {
      var x, y := px + Quot(dx * i, Max1(steps)), py + Quot(dy * i, Max1(steps));
      if Some(x) != last {
        last := Some(x);
        var c := x - f.plot.left;
        assert 0 <= c <= f.plot.Width() ==> (top[c], bot[c]) == Band(f, pts, c);
        if 0 <= c <= f.plot.Width() && top[c] != INT_MAX && top[c] <= y + 1 && bot[c] >= y - 1 { n := n + 1; }
      }
      i := i + 1;
    }
  }

  // ----- one placement -----

  /** The state of the scan before candidate (k, l). */
  ghost predicate BestSoFar(f: Week, pts: seq<Row<int>>, placed: seq<Rect>, e: Entry, score: Rect -> real,
                            best: real, rect: Rect, i: int, j: int, k: int, l: int)
  {
    if best == 1e18 then NoneFeasible(f, pts, placed, e, k, l)
    else
      && best < 1e17 && FirstBest(f, pts, placed, e, score, i, j, k, l)
      && rect == Cand(f, e, i, j) && best == score(rect)
  }

  /** Scanning one more candidate: keep the best, or take a feasible one that is strictly better. */
  lemma ScanStep(f: Week, pts: seq<Row<int>>, placed: seq<Rect>, e: Entry, score: Rect -> real,
                 best: real, rect: Rect, i: int, j: int, k: int, l: int)
    requires BestSoFar(f, pts, placed, e, score, best, rect, i, j, k, l)
    requires InGrid(f, e, k, l) && score(Cand(f, e, k, l)) < 1e17
    ensures var c := Cand(f, e, k, l);
            if Feasible(f, pts, placed, c) && score(c) < best
            then BestSoFar(f, pts, placed, e, score, score(c), c, k, l, k, l + 1)
            else BestSoFar(f, pts, placed, e, score, best, rect, i, j, k, l + 1)
  {
  }

  lemma ScanCandidate(f: Week, pts: seq<Row<int>>, placed: seq<Rect>, e: Entry, hypot: (int, int) -> real,
                      best: real, rect: Rect, i: int, j: int, k: int, l: int)
    requires Sane(f) && Hypot(hypot) && IsInt(e.x) && IsInt(e.y) && InGrid(f, e, k, l)
    requires BestSoFar(f, pts, placed, e, ScoreOf(f, pts, e, hypot), best, rect, i, j, k, l)
    ensures var c, score := Cand(f, e, k, l), ScoreOf(f, pts, e, hypot);
            if Feasible(f, pts, placed, c) && score(c) < best
            then BestSoFar(f, pts, placed, e, score, score(c), c, k, l, k, l + 1)
            else BestSoFar(f, pts, placed, e, score, best, rect, i, j, k, l + 1)
  {
    ScoresAreModest(f, pts, e, hypot, k, l);
    ScanStep(f, pts, placed, e, ScoreOf(f, pts, e, hypot), best, rect, i, j, k, l);
  }

  lemma RowDone(f: Week, pts: seq<Row<int>>, placed: seq<Rect>, e: Entry, score: Rect -> real,
                best: real, rect: Rect, i: int, j: int, k: int, l: int)
    requires BestSoFar(f, pts, placed, e, score, best, rect, i, j, k, l)
    requires l >= 0 && XLo(f, e) + 8 * l > XHi(f, e)
    ensures BestSoFar(f, pts, placed, e, score, best, rect, i, j, k + 1, 0)
  {
  }

  /** One candidate: feasible or not, and its score if it is. */
  method Evaluate(f: Week, ghost pts: seq<Row<int>>, top: seq<int>, bot: seq<int>, placed: seq<Rect>, e: Entry,
        hypot: (int, int) -> real, cand: Rect)
    returns (ok: bool, score: real)
    requires Sane(f) && |top| == |bot| == f.plot.Width() + 1
    requires forall c :: 0 <= c <= f.plot.Width() ==> (top[c], bot[c]) == Band(f, pts, c)
    ensures ok <==> Feasible(f, pts, placed, cand)
    ensures ok ==> score == ScoreOf(f, pts, e, hypot)(cand)
  {
    score := 0.0;
    var hit := CheckLabels(placed, cand);
    if !hit && InData(f, cand) { hit := CheckLine(f, pts, top, bot, cand); }
    ok := !hit;
    if ok {
      var dx, dy := Clamp(e.x, cand.left, cand.right) - e.x, Clamp(e.y, cand.top, cand.bottom) - e.y;
      var crossings := CountCrossings(f, pts, top, bot, e.x, e.y, dx, dy);
      var dist := hypot(dx, dy);
      score := dist;
      if InData(f, cand) { score := score + 40.0; }
      score := score + 25.0 * crossings as real;
      if dist < 6.0 { score := score + 20.0; }
    }
  }

  /** One candidate of the scan. */
  method ScanOne(f: Week, ghost pts: seq<Row<int>>, top: seq<int>, bot: seq<int>, placed: seq<Rect>, e: Entry,
        hypot: (int, int) -> real, lx: int, ly: int, ghost k: int, ghost l: int,
        best: real, rect: Rect, ghost i: int, ghost j: int)
    returns (best': real, rect': Rect, ghost i': int, ghost j': int)
    requires Sane(f) && |top| == |bot| == f.plot.Width() + 1
    requires forall c :: 0 <= c <= f.plot.Width() ==> (top[c], bot[c]) == Band(f, pts, c)
    requires Hypot(hypot) && IsInt(e.x) && IsInt(e.y)
    requires 0 <= k && ly == f.plot.top + 1 + 6 * k && ly + LABEL_H <= f.plot.bottom - 1
    requires 0 <= l && lx == XLo(f, e) + 8 * l && lx <= XHi(f, e)
    requires BestSoFar(f, pts, placed, e, ScoreOf(f, pts, e, hypot), best, rect, i, j, k, l)
    ensures BestSoFar(f, pts, placed, e, ScoreOf(f, pts, e, hypot), best', rect', i', j', k, l + 1)
  {
    best', rect', i', j' := best, rect, i, j;
    var cand := Rect(lx, ly, lx + e.w, ly + LABEL_H);
    assert cand == Cand(f, e, k, l);
    var ok, score := Evaluate(f, pts, top, bot, placed, e, hypot, cand);
    ScanCandidate(f, pts, placed, e, hypot, best, rect, i, j, k, l);
    if ok && score < best { best', rect', i', j' := score, cand, k, l; }
  }

  /** One row of the grid. */
  method ScanRow(f: Week, ghost pts: seq<Row<int>>, top: seq<int>, bot: seq<int>, placed: seq<Rect>, e: Entry,
        hypot: (int, int) -> real, ly: int, ghost k: int, best: real, rect: Rect, ghost i: int, ghost j: int)
    returns (best': real, rect': Rect, ghost i': int, ghost j': int)
    requires Sane(f) && |top| == |bot| == f.plot.Width() + 1
    requires forall c :: 0 <= c <= f.plot.Width() ==> (top[c], bot[c]) == Band(f, pts, c)
    requires Hypot(hypot) && IsInt(e.x) && IsInt(e.y)
    requires 0 <= k && ly == f.plot.top + 1 + 6 * k && ly + LABEL_H <= f.plot.bottom - 1
    requires BestSoFar(f, pts, placed, e, ScoreOf(f, pts, e, hypot), best, rect, i, j, k, 0)
    ensures BestSoFar(f, pts, placed, e, ScoreOf(f, pts, e, hypot), best', rect', i', j', k + 1, 0)
  {
    best', rect', i', j' := best, rect, i, j;
    var lx := XLo(f, e);
    ghost var l := 0;
    while lx <= XHi(f, e)
      invariant 0 <= l && lx == XLo(f, e) + 8 * l
      invariant BestSoFar(f, pts, placed, e, ScoreOf(f, pts, e, hypot), best', rect', i', j', k, l)
      decreases XHi(f, e) - lx
    {
      best', rect', i', j' :=
        ScanOne(f, pts, top, bot, placed, e, hypot, lx, ly, k, l, best', rect', i', j');
      lx, l := lx + 8, l + 1;
    }
    RowDone(f, pts, placed, e, ScoreOf(f, pts, e, hypot), best', rect', i', j', k, l);
  }

  method PlaceOne(f: Week, ghost pts: seq<Row<int>>, top: seq<int>, bot: seq<int>, placed: seq<Rect>, e: Entry,
        hypot: (int, int) -> real)
    returns (best: Option<Rect>)
    requires Sane(f) && |top| == |bot| == f.plot.Width() + 1
    requires forall c :: 0 <= c <= f.plot.Width() ==> (top[c], bot[c]) == Band(f, pts, c)
    requires Hypot(hypot) && IsInt(e.x) && IsInt(e.y)
    ensures Chosen(f, pts, placed, e, ScoreOf(f, pts, e, hypot), best)
  {
    var bestScore, rect := 1e18, Rect(0, 0, 0, 0);
    var ly := f.plot.top + 1;
    ghost var i, bi, bj := 0, 0, 0;
    while ly + LABEL_H <= f.plot.bottom - 1
      invariant 0 <= i && ly == f.plot.top + 1 + 6 * i
      invariant BestSoFar(f, pts, placed, e, ScoreOf(f, pts, e, hypot), bestScore, rect, bi, bj, i, 0)
      decreases f.plot.bottom - ly
    {
      bestScore, rect, bi, bj := ScanRow(f, pts, top, bot, placed, e, hypot, ly, i, bestScore, rect, bi, bj);
      ly, i := ly + 6, i + 1;
    }
    best := if bestScore >= 1e17 then None else Some(rect);
    assert forall a, b :: InGrid(f, e, a, b) ==> a < i;
  }

  // ----- all entries of the week -----

  /** What becomes of each info row. */
  datatype Mark = Skipped | MarkerOnly | Label(rect: Rect)

  function Placed(marks: seq<Mark>): seq<Rect>
  {
    if marks == [] then [] else
    Placed(marks[..|marks| - 1]) + if marks[|marks| - 1].Label? then [marks[|marks| - 1].rect] else []
  }

  /** The row of the first sample not before the change, if it is of this week. */
  function AnchorY(f: Week, pts: seq<Row<int>>, ts: int): int
  {
    var i := FirstFrom(pts, ts);
    if i < |pts| && pts[i].ts < f.t0 + WEEK then Y(f, pts[i].pair) else f.data.bottom
  }

  function FirstFrom(pts: seq<Row<int>>, ts: int): (i: nat)
    ensures i <= |pts|
  {
    if pts == [] || pts[0].ts >= ts then 0 else 1 + FirstFrom(pts[1..], ts)
  }

  lemma {:induction false} FirstFromIs(pts: seq<Row<int>>, ts: int, r: nat)
    requires r <= |pts| && (forall i :: 0 <= i < r ==> pts[i].ts < ts) && (r < |pts| ==> ts <= pts[r].ts)
    ensures FirstFrom(pts, ts) == r
  {
    if r > 0 { FirstFromIs(pts[1..], ts, r - 1); }
  }

  /** `extent` is the width of the wider of its two lines of text. */
  function EntryOf(f: Week, pts: seq<Row<int>>, info: Row<Pair>, extent: nat): Entry
  {
    Entry(X(f, info.ts), AnchorY(f, pts, info.ts), Min(extent + 6, MAX_LABEL_W))
  }

  /** The drawing of a whole week: given text extents, hypot, samples in time order with int coordinates. */
  datatype Scene = Scene(pts: seq<Row<int>>, infos: seq<Row<Pair>>, extents: nat -> nat, hypot: (int, int) -> real)

  ghost predicate Drawable(f: Week, s: Scene)
  {
    && Sane(f) && INT_MIN <= f.plot.left && f.plot.right <= INT_MAX
    && Ascending(s.pts) && (forall i :: 0 <= i < |s.pts| ==> IsInt(Y(f, s.pts[i].pair))) && Hypot(s.hypot)
  }

  /** The k-th mark is what the grid scan gives against the labels before it. */
  ghost predicate Placement(f: Week, s: Scene, marks: seq<Mark>, k: nat)
    requires k < |marks| && k < |s.infos|
  {
    var e := EntryOf(f, s.pts, s.infos[k], s.extents(k));
    match marks[k]
    case Skipped => !InWeek(f, s.infos[k].ts)
    case MarkerOnly =>
      InWeek(f, s.infos[k].ts) && Chosen(f, s.pts, Placed(marks[..k]), e, ScoreOf(f, s.pts, e, s.hypot), None)
    case Label(r) =>
      InWeek(f, s.infos[k].ts) && Chosen(f, s.pts, Placed(marks[..k]), e, ScoreOf(f, s.pts, e, s.hypot), Some(r))
  }

  ghost predicate Placements(f: Week, s: Scene, marks: seq<Mark>)
  {
    |marks| <= |s.infos| && forall k :: 0 <= k < |marks| ==> Placement(f, s, marks, k)
  }

  method PlaceAll(f: Week, s: Scene) returns (marks: seq<Mark>)
    requires Drawable(f, s)
    ensures |marks| == |s.infos| && Placements(f, s, marks)
  {
    var top, bot := Columns(f, s.pts);
    var placed := [];
    marks := [];
    for k := 0 to |s.infos|
      invariant |marks| == k && placed == Placed(marks) && Placements(f, s, marks)
    {
      var mark := Skipped;
      if InWeek(f, s.infos[k].ts) {
        mark := PlaceEntry(f, s, top, bot, placed, k);
        if mark.Label? { placed := placed + [mark.rect]; }
      }
      Extend(f, s, marks, mark);
      marks := marks + [mark];
    }
  }

  method PlaceEntry(f: Week, s: Scene, top: seq<int>, bot: seq<int>, placed: seq<Rect>, k: nat) returns (mark: Mark)
    requires Drawable(f, s) && |top| == |bot| == f.plot.Width() + 1
    requires forall c :: 0 <= c <= f.plot.Width() ==> (top[c], bot[c]) == Band(f, s.pts, c)
    requires k < |s.infos| && InWeek(f, s.infos[k].ts)
    ensures var e := EntryOf(f, s.pts, s.infos[k], s.extents(k));
            && !mark.Skipped?
            && Chosen(f, s.pts, placed, e, ScoreOf(f, s.pts, e, s.hypot),
                      if mark.Label? then Some(mark.rect) else None)
  {
    var ts := s.infos[k].ts;
    var y := f.data.bottom;
    var i := LowerBound(s.pts, ts);
    FirstFromIs(s.pts, ts, i);
    if i < |s.pts| && s.pts[i].ts < f.t0 + WEEK { y := Y(f, s.pts[i].pair); }
    var e := Entry(X(f, ts), y, Min(s.extents(k) + 6, MAX_LABEL_W));
    assert e == EntryOf(f, s.pts, s.infos[k], s.extents(k));
    RoundTrip(ts, f.plot.left, f.plot.Width(), f.t0, WEEK);
    var best := PlaceOne(f, s.pts, top, bot, placed, e, s.hypot);
    mark := if best.None? then MarkerOnly else Label(best.value);
  }

  lemma Extend(f: Week, s: Scene, marks: seq<Mark>, mark: Mark)
    requires Placements(f, s, marks) && |marks| < |s.infos|
    requires Placement(f, s, marks + [mark], |marks|)
    ensures Placements(f, s, marks + [mark])
  {
    forall k | 0 <= k < |marks| ensures Placement(f, s, marks + [mark], k) {
      assert Placement(f, s, marks, k);
      assert (marks + [mark])[..k] == marks[..k];
    }
  }

  // ----- what the picture looks like -----

  /** A chosen label lies inside the plot, is feasible, and is as wide as its entry says. */
  lemma ChosenIsInside(f: Week, pts: seq<Row<int>>, placed: seq<Rect>, e: Entry, score: Rect -> real, r: Rect)
    requires Sane(f) && Chosen(f, pts, placed, e, score, Some(r))
    ensures f.plot.left <= r.left && r.right <= f.plot.right && f.plot.top < r.top && r.bottom < f.plot.bottom
    ensures r.right - r.left == e.w && r.bottom - r.top == LABEL_H
    ensures Feasible(f, pts, placed, r)
  {
  }

  lemma {:induction false} PlacedHas(marks: seq<Mark>, k: nat)
    requires k < |marks| && marks[k].Label?
    ensures marks[k].rect in Placed(marks)
  {
    if k < |marks| - 1 { PlacedHas(marks[..|marks| - 1], k); }
  }

  /** Of any placement of a whole week: any two labels are at least three pixels apart sideways or up and
      down. */
  lemma LabelsApart(f: Week, s: Scene, marks: seq<Mark>, k: nat, n: nat)
    requires Drawable(f, s) && Placements(f, s, marks)
    requires n < k < |marks| && marks[k].Label? && marks[n].Label?
    ensures Apart(marks[k].rect, marks[n].rect)
  {
    var placed, r, q := Placed(marks[..k]), marks[k].rect, marks[n].rect;
    LabelInside(f, s, marks, k);
    LabelInside(f, s, marks, n);
    PlacedHas(marks[..k], n);
    var m :| 0 <= m < |placed| && placed[m] == q;
    assert !Intersects(Inflated(r), placed[m]);
  }

  /** Every label lies inside the plot, is feasible against the labels before it, and is as large as its text
      asks. */
  lemma LabelInside(f: Week, s: Scene, marks: seq<Mark>, k: nat)
    requires Drawable(f, s) && Placements(f, s, marks) && k < |marks| && marks[k].Label?
    ensures var r := marks[k].rect;
            && f.plot.left <= r.left && r.right <= f.plot.right && f.plot.top < r.top && r.bottom < f.plot.bottom
            && 6 <= r.right - r.left <= MAX_LABEL_W && r.bottom - r.top == LABEL_H
            && Feasible(f, s.pts, Placed(marks[..k]), r)
  {
    assert Placement(f, s, marks, k);
    var e := EntryOf(f, s.pts, s.infos[k], s.extents(k));
    ChosenIsInside(f, s.pts, Placed(marks[..k]), e, ScoreOf(f, s.pts, e, s.hypot), marks[k].rect);
  }

  /** A label reaching into the band is more than three pixels away from the point; one outside does not have it
      inside. */
  predicate Clear(f: Week, r: Rect, x: int, y: int)
  {
    if InData(f, r) then x < r.left - GAP || r.right + GAP < x || y < r.top - GAP || r.bottom + GAP < y
    else !(r.top < y < r.bottom)
  }

  // ----- the same in terms of samples, spots and labels alone -----

  /** Sample i is one of the week and drawn in pixel column x. */
  predicate DrawnIn(f: Week, pts: seq<Row<int>>, i: int, x: int)
  {
    0 <= i < |pts| && f.t0 <= pts[i].ts < f.t0 + WEEK && X(f, pts[i].ts) == x
  }

  /** The interval of a column is tight: it covers the column's samples, each end is one of them, and without samples
      it is (INT_MAX, INT_MIN). */
  lemma {:induction false} BandIsTight(f: Week, pts: seq<Row<int>>, x: int)
    ensures var (lo, hi) := Band(f, pts, x - f.plot.left);
            && (forall i :: DrawnIn(f, pts, i, x) ==> lo <= Y(f, pts[i].pair) <= hi)
            && (lo != INT_MAX ==> exists i :: DrawnIn(f, pts, i, x) && Y(f, pts[i].pair) == lo)
            && (hi != INT_MIN ==> exists i :: DrawnIn(f, pts, i, x) && Y(f, pts[i].pair) == hi)
            && ((forall i :: !DrawnIn(f, pts, i, x)) ==> (lo, hi) == (INT_MAX, INT_MIN))
  {
    if pts != [] {
      var pre, n := pts[..|pts| - 1], |pts| - 1;
      BandIsTight(f, pre, x);
      assert forall i :: 0 <= i < n ==> (DrawnIn(f, pts, i, x) <==> DrawnIn(f, pre, i, x)) && pts[i] == pre[i];
      assert DrawnIn(f, pts, n, x) <==> InWeek(f, pts[n].ts) && X(f, pts[n].ts) - f.plot.left == x - f.plot.left;
    }
  }

  /** Some sample of the column is not below y1 and some is not above y0. */
  ghost predicate LineIn(f: Week, pts: seq<Row<int>>, x: int, y0: int, y1: int)
  {
    && (exists i :: DrawnIn(f, pts, i, x) && Y(f, pts[i].pair) <= y1)
    && (exists i :: DrawnIn(f, pts, i, x) && Y(f, pts[i].pair) >= y0)
  }

  /** No sample of the week is drawn at or beyond the largest row a 32-bit int can hold. */
  ghost predicate InRange(f: Week, pts: seq<Row<int>>)
  {
    forall i :: 0 <= i < |pts| ==> INT_MIN <= Y(f, pts[i].pair) < INT_MAX
  }

  lemma LineAtIs(f: Week, pts: seq<Row<int>>, x: int, y0: int, y1: int)
    requires Sane(f) && InRange(f, pts)
    ensures LineAt(f, pts, x, y0, y1) <==> LineIn(f, pts, x, y0, y1)
  {
    BandIsTight(f, pts, x);
    var (lo, hi) := Band(f, pts, x - f.plot.left);
    if i :| DrawnIn(f, pts, i, x) {
      RoundTrip(pts[i].ts, f.plot.left, f.plot.Width(), f.t0, WEEK);
      assert lo <= Y(f, pts[i].pair) <= hi;
      if hi == INT_MIN { assert Y(f, pts[i].pair) == hi; }
    }
  }

  /** The line comes within three pixels of a rectangle. */
  ghost predicate LineTouches(f: Week, pts: seq<Row<int>>, r: Rect)
  {
    exists x :: LineTouchesAt(f, pts, r, x)
  }

  ghost predicate LineTouchesAt(f: Week, pts: seq<Row<int>>, r: Rect, x: int)
  {
    r.left - 3 <= x <= r.right + 3 && LineIn(f, pts, x, r.top - 3, r.bottom + 3)
  }

  lemma HitsLineIs(f: Week, pts: seq<Row<int>>, r: Rect)
    requires Sane(f) && InRange(f, pts)
    ensures HitsLine(f, pts, r) <==> LineTouches(f, pts, r)
  {
    forall x ensures LineNear(f, pts, r, x) <==> LineTouchesAt(f, pts, r, x) {
      LineAtIs(f, pts, x, r.top - 3, r.bottom + 3);
    }
  }

  /** A spot for a label of an entry: as wide as the text asks, at most 260 pixels and its width from the change,
      inside the plot, every 8 pixels across and every 6 down. */
  ghost predicate IsSpot(f: Week, e: Entry, r: Rect)
  {
    var first := if f.plot.left < e.x - e.w - 260 then e.x - e.w - 260 else f.plot.left;
    && r.right == r.left + e.w && r.bottom == r.top + 30
    && r.left >= first && (r.left - first) % 8 == 0 && r.left <= e.x + 260 && r.right <= f.plot.right
    && r.top > f.plot.top && (r.top - f.plot.top - 1) % 6 == 0 && r.bottom < f.plot.bottom
  }

  lemma SpotsAreGrid(f: Week, e: Entry, r: Rect)
    ensures IsSpot(f, e, r) <==> exists i, j :: InGrid(f, e, i, j) && r == Cand(f, e, i, j)
  {
    if IsSpot(f, e, r) {
      var i, j := (r.top - f.plot.top - 1) / 6, (r.left - XLo(f, e)) / 8;
      assert r == Cand(f, e, i, j) && InGrid(f, e, i, j);
    }
  }

  /** Less than three pixels from a label. */
  predicate Meets(r: Rect, q: Rect)
  {
    r.left - 3 < q.right && q.left < r.right + 3 && r.top - 3 < q.bottom && q.top < r.bottom + 3
  }

  /** Something is in the way of a label: one placed before, or, in the band, the line. */
  ghost predicate Blocked(f: Week, s: Scene, marks: seq<Mark>, k: nat, r: Rect)
    requires k <= |marks|
  {
    || (exists n :: 0 <= n < k && marks[n].Label? && Meets(r, marks[n].rect))
    || (r.bottom > f.data.top && r.top < f.data.bottom && LineTouches(f, s.pts, r))
  }

  lemma {:induction false} PlacedAre(marks: seq<Mark>, q: Rect)
    ensures q in Placed(marks) <==> exists n :: 0 <= n < |marks| && marks[n] == Label(q)
  {
    if marks != [] {
      var pre := marks[..|marks| - 1];
      PlacedAre(pre, q);
      if n :| 0 <= n < |pre| && pre[n] == Label(q) { assert marks[n] == Label(q); }
      if n :| 0 <= n < |marks| && marks[n] == Label(q) { assert n < |pre| ==> pre[n] == Label(q); }
    }
  }

  lemma HitsLabelIs(f: Week, s: Scene, marks: seq<Mark>, k: nat, r: Rect)
    requires Drawable(f, s) && Placements(f, s, marks) && k <= |marks| && r.left < r.right && r.top < r.bottom
    ensures HitsLabel(Placed(marks[..k]), r) <==>
              exists n :: 0 <= n < k && marks[n].Label? && Meets(r, marks[n].rect)
  {
    var placed := Placed(marks[..k]);
    if HitsLabel(placed, r) {
      var i :| 0 <= i < |placed| && Intersects(Inflated(r), placed[i]);
      PlacedAre(marks[..k], placed[i]);
      var n :| 0 <= n < |marks[..k]| && marks[..k][n] == Label(placed[i]);
      assert marks[n].rect == placed[i];
    }
    if n :| 0 <= n < k && marks[n].Label? && Meets(r, marks[n].rect) {
      assert marks[..k][n] == Label(marks[n].rect);
      PlacedAre(marks[..k], marks[n].rect);
      var i :| 0 <= i < |placed| && placed[i] == marks[n].rect;
      LabelInside(f, s, marks, n);
      assert Intersects(Inflated(r), placed[i]);
    }
  }

  lemma FeasibleIs(f: Week, s: Scene, marks: seq<Mark>, k: nat, e: Entry, r: Rect)
    requires Drawable(f, s) && InRange(f, s.pts) && Placements(f, s, marks) && k <= |marks|
    requires e.w >= 1 && IsSpot(f, e, r)
    ensures Feasible(f, s.pts, Placed(marks[..k]), r) <==> !Blocked(f, s, marks, k, r)
  {
    HitsLabelIs(f, s, marks, k, r);
    HitsLineIs(f, s.pts, r);
  }

  /** What a change is placed by: the column of its time, and its text with six pixels to spare, at most 220. */
  lemma EntryIs(f: Week, s: Scene, k: nat)
    requires k < |s.infos|
    ensures var e := EntryOf(f, s.pts, s.infos[k], s.extents(k));
            e.x == X(f, s.infos[k].ts) && e.w == (if s.extents(k) + 6 < 220 then s.extents(k) + 6 else 220)
  {
  }

  /** And the row of the first sample not before it, if that is of the week. */
  lemma AnchorIs(f: Week, s: Scene, k: nat, i: nat)
    requires k < |s.infos| && i < |s.pts| && s.infos[k].ts <= s.pts[i].ts < f.t0 + WEEK
    requires forall j :: 0 <= j < i ==> s.pts[j].ts < s.infos[k].ts
    ensures EntryOf(f, s.pts, s.infos[k], s.extents(k)).y == Y(f, s.pts[i].pair)
  {
    FirstFromIs(s.pts, s.infos[k].ts, i);
  }

  /** If there is none, the foot of the band. */
  lemma NoAnchor(f: Week, s: Scene, k: nat)
    requires k < |s.infos|
    requires forall j :: 0 <= j < |s.pts| ==> s.pts[j].ts < s.infos[k].ts || s.pts[j].ts >= f.t0 + WEEK
    ensures EntryOf(f, s.pts, s.infos[k], s.extents(k)).y == f.data.bottom
  {
    FirstFromFinds(s.pts, s.infos[k].ts);
  }

  lemma {:induction false} FirstFromFinds(pts: seq<Row<int>>, ts: int)
    ensures var i := FirstFrom(pts, ts);
            i < |pts| ==> ts <= pts[i].ts
  {
    if pts != [] && pts[0].ts < ts { FirstFromFinds(pts[1..], ts); }
  }

  /** A change of the week is drawn as a bare marker exactly when something is in the way at every spot. */
  lemma MarkerMeansFull(f: Week, s: Scene, marks: seq<Mark>, k: nat)
    requires Drawable(f, s) && InRange(f, s.pts) && Placements(f, s, marks)
    requires k < |marks| && InWeek(f, s.infos[k].ts)
    ensures var e := EntryOf(f, s.pts, s.infos[k], s.extents(k));
            marks[k] == MarkerOnly <==> forall r :: IsSpot(f, e, r) ==> Blocked(f, s, marks, k, r)
  {
    var e := EntryOf(f, s.pts, s.infos[k], s.extents(k));
    MarkerOnlyIfFull(f, s, marks, k);
    forall r | IsSpot(f, e, r)
      ensures Feasible(f, s.pts, Placed(marks[..k]), r) <==> !Blocked(f, s, marks, k, r)
      ensures exists i, j :: InGrid(f, e, i, j) && r == Cand(f, e, i, j)
    {
      FeasibleIs(f, s, marks, k, e, r);
      SpotsAreGrid(f, e, r);
    }
    forall i, j | InGrid(f, e, i, j) ensures IsSpot(f, e, Cand(f, e, i, j)) {
      SpotsAreGrid(f, e, Cand(f, e, i, j));
    }
  }

  /** The pixel of a leader after m of its steps: from the anchor by (dx, dy) in as many steps as the longer side. */
  function Step(p: int, d: int, m: int, steps: int): int
  {
    p + Quot(d * m, Max1(steps))
  }

  /** After m steps the leader enters a pixel column in which it is within a pixel of the line. */
  ghost predicate Crosses(f: Week, pts: seq<Row<int>>, e: Entry, dx: int, dy: int, m: int)
  {
    var steps := Max(Abs(dx), Abs(dy));
    var x, y := Step(e.x, dx, m, steps), Step(e.y, dy, m, steps);
    (m == 4 || x != Step(e.x, dx, m - 1, steps)) && LineIn(f, pts, x, y - 1, y + 1)
  }

  /** The numbers from n to last that satisfy a predicate. */
  ghost function Which(good: int -> bool, n: int, last: int): set<int>
  {
    set m | n <= m <= last && good(m)
  }

  lemma OneMore(good: int -> bool, n: int, last: int)
    requires n <= last
    ensures |Which(good, n, last)| == |Which(good, n + 1, last)| + if good(n) then 1 else 0
  {
    var more := Which(good, n + 1, last);
    assert Which(good, n, last) == if good(n) then more + {n} else more;
  }

  ghost function CrossedFrom(f: Week, pts: seq<Row<int>>, e: Entry, dx: int, dy: int, n: int): set<int>
  {
    Which(m => Crosses(f, pts, e, dx, dy, m), n, Max(Abs(dx), Abs(dy)))
  }

  lemma CrossingsStep(f: Week, pts: seq<Row<int>>, e: Entry, dx: int, dy: int, n: nat, last: Option<int>)
    requires Sane(f) && InRange(f, pts) && 4 <= n <= Max(Abs(dx), Abs(dy))
    requires last == if n == 4 then None else Some(Step(e.x, dx, n - 1, Max(Abs(dx), Abs(dy))))
    ensures Crossings(f, pts, e.x, e.y, dx, dy, n, last)
         == Crossings(f, pts, e.x, e.y, dx, dy, n + 1, Some(Step(e.x, dx, n, Max(Abs(dx), Abs(dy)))))
            + if Crosses(f, pts, e, dx, dy, n) then 1 else 0
  {
    var steps := Max(Abs(dx), Abs(dy));
    var x, y := Step(e.x, dx, n, steps), Step(e.y, dy, n, steps);
    LineAtIs(f, pts, x, y - 1, y + 1);
  }

  lemma {:induction false} CrossingsFrom(f: Week, pts: seq<Row<int>>, e: Entry, dx: int, dy: int, n: nat,
        last: Option<int>)
    requires Sane(f) && InRange(f, pts) && n >= 4
    requires last == if n == 4 then None else Some(Step(e.x, dx, n - 1, Max(Abs(dx), Abs(dy))))
    ensures Crossings(f, pts, e.x, e.y, dx, dy, n, last) == |CrossedFrom(f, pts, e, dx, dy, n)|
    decreases Max(Abs(dx), Abs(dy)) + 1 - n
  {
    var steps := Max(Abs(dx), Abs(dy));
    if n <= steps {
      CrossingsStep(f, pts, e, dx, dy, n, last);
      CrossingsFrom(f, pts, e, dx, dy, n + 1, Some(Step(e.x, dx, n, steps)));
      OneMore(m => Crosses(f, pts, e, dx, dy, m), n, steps);
    } else {
      assert CrossedFrom(f, pts, e, dx, dy, n) == {};
    }
  }

  /** The distance of a coordinate from an interval, signed towards it. */
  function Towards(v: int, lo: int, hi: int): int { if v < lo then lo - v else if v > hi then hi - v else 0 }

  /** What a spot costs: the distance from the anchor to the rectangle, 40 for reaching into the band, 25 for every
      column in which the leader, four pixels out, crosses the line, 20 for being closer than 6. */
  ghost function Cost(f: Week, s: Scene, e: Entry, r: Rect): real
  {
    var dx, dy := Towards(e.x, r.left, r.right), Towards(e.y, r.top, r.bottom);
    var dist := s.hypot(dx, dy);
    dist + (if r.bottom > f.data.top && r.top < f.data.bottom then 40.0 else 0.0)
      + 25.0 * |CrossedFrom(f, s.pts, e, dx, dy, 4)| as real + (if dist < 6.0 then 20.0 else 0.0)
  }

  lemma ScoreIsCost(f: Week, s: Scene, e: Entry, r: Rect)
    requires Sane(f) && InRange(f, s.pts) && r.left <= r.right && r.top <= r.bottom
    ensures ScoreOf(f, s.pts, e, s.hypot)(r) == Cost(f, s, e, r)
  {
    var dx, dy := Towards(e.x, r.left, r.right), Towards(e.y, r.top, r.bottom);
    assert dx == Clamp(e.x, r.left, r.right) - e.x && dy == Clamp(e.y, r.top, r.bottom) - e.y;
    CrossingsFrom(f, s.pts, e, dx, dy, 4, None);
  }

  /** A label is put on a spot with nothing in the way, of least cost; of several the first from the top, then from
      the left. */
  lemma LabelIsBest(f: Week, s: Scene, marks: seq<Mark>, k: nat, c: Rect)
    requires Drawable(f, s) && InRange(f, s.pts) && Placements(f, s, marks) && k < |marks| && marks[k].Label?
    ensures var e, r := EntryOf(f, s.pts, s.infos[k], s.extents(k)), marks[k].rect;
            && InWeek(f, s.infos[k].ts) && IsSpot(f, e, r) && !Blocked(f, s, marks, k, r)
            && (IsSpot(f, e, c) && !Blocked(f, s, marks, k, c) ==>
                  && Cost(f, s, e, r) <= Cost(f, s, e, c)
                  && (c.top < r.top || (c.top == r.top && c.left < r.left) ==> Cost(f, s, e, r) < Cost(f, s, e, c)))
  {
    var e, r := EntryOf(f, s.pts, s.infos[k], s.extents(k)), marks[k].rect;
    assert Placement(f, s, marks, k);
    var i, j, n :| r == Cand(f, e, i, j)
                   && FirstBest(f, s.pts, Placed(marks[..k]), e, ScoreOf(f, s.pts, e, s.hypot), i, j, n, 0)
                   && forall a, b :: InGrid(f, e, a, b) ==> a < n;
    SpotsAreGrid(f, e, r);
    FeasibleIs(f, s, marks, k, e, r);
    ScoreIsCost(f, s, e, r);
    if IsSpot(f, e, c) && !Blocked(f, s, marks, k, c) {
      SpotsAreGrid(f, e, c);
      FeasibleIs(f, s, marks, k, e, c);
      ScoreIsCost(f, s, e, c);
      var a, b :| InGrid(f, e, a, b) && c == Cand(f, e, a, b);
      assert Earlier(a, b, n, 0);
    }
  }

  /** The one way a label can sit on a sample: the sample is negative and drawn below the band, and so is the label. */
  predicate Under(f: Week, r: Rect, v: int, y: int)
  {
    v < 0 && f.data.bottom <= r.top < y < r.bottom
  }

  /** No label sits on the line: it is clear of every drawn sample of the week, but for negative ones below the
      band. */
  lemma LabelsClear(f: Week, s: Scene, marks: seq<Mark>, k: nat, i: nat)
    requires Drawable(f, s) && Placements(f, s, marks) && k < |marks| && marks[k].Label?
    requires i < |s.pts| && InWeek(f, s.pts[i].ts) && s.pts[i].pair <= f.ymax && Y(f, s.pts[i].pair) < INT_MAX
    ensures var r, v := marks[k].rect, s.pts[i].pair;
            Clear(f, r, X(f, s.pts[i].ts), Y(f, v)) || Under(f, r, v, Y(f, v))
  {
    var r, x, v := marks[k].rect, X(f, s.pts[i].ts), s.pts[i].pair;
    RoundTrip(s.pts[i].ts, f.plot.left, f.plot.Width(), f.t0, WEEK);
    if v < 0 { NegativeIsBelow(f, v); } else { NumberInBand(f, v); }
    BandCovers(f, s.pts, i);
    LabelInside(f, s, marks, k);
    if InData(f, r) { assert !LineNear(f, s.pts, r, x); }
  }

  /** One spot for the label, under the band, and a negative sample drawn there. */
  function SmallPlot(): Week { WeekPlot(Rect(0, 0, 8, 32), Rect(0, 0, 8, 1), 0, 1) }

  function LowScene(): Scene
  {
    Scene([Row(WEEK / 2, -10)], [Row(WEEK / 2, Pair("a", "x"))], _ => 0, (_, _) => 0.0)
  }

  /** Any scene like it. */
  predicate IsLow(f: Week, s: Scene)
  {
    && f.plot == Rect(0, 0, 8, 32) && f.data == Rect(0, 0, 8, 1) && f.t0 == 0 && f.ymax == 1
    && |s.pts| == 1 && s.pts[0] == Row(WEEK / 2, -10) && |s.infos| == 1 && s.infos[0].ts == WEEK / 2
    && s.extents(0) == 0
  }

  lemma LowColumn(f: Week)
    requires f.plot == Rect(0, 0, 8, 32) && f.t0 == 0
    ensures X(f, WEEK / 2) == 4
  {
    DivIs(WEEK / 2 * 8, WEEK, 4);
  }

  lemma LowRow(f: Week)
    requires f.data == Rect(0, 0, 8, 1) && f.ymax == 1
    ensures Y(f, -10) == 11
  {
    DivIs(10, 1, 10);
  }

  lemma LowPixels(f: Week, s: Scene)
    requires IsLow(f, s)
    ensures X(f, s.pts[0].ts) == 4 && Y(f, s.pts[0].pair) == 11
  {
    LowColumn(f);
    LowRow(f);
  }

  lemma LowAnchor(f: Week, s: Scene, ts: int)
    requires |s.pts| == 1 && s.pts[0].ts == ts && ts < f.t0 + WEEK
    ensures AnchorY(f, s.pts, ts) == Y(f, s.pts[0].pair)
  {
    FirstFromIs(s.pts, ts, 0);
  }

  lemma LowEntry(f: Week, s: Scene)
    requires IsLow(f, s)
    ensures EntryOf(f, s.pts, s.infos[0], s.extents(0)) == Entry(4, 11, 6)
  {
    LowColumn(f);
    LowRow(f);
    LowAnchor(f, s, s.infos[0].ts);
    EntryFrom(f, s.pts, s.infos[0], s.extents(0), 4, 11);
  }

  lemma EntryFrom(f: Week, pts: seq<Row<int>>, info: Row<Pair>, extent: nat, x: int, y: int)
    requires X(f, info.ts) == x && AnchorY(f, pts, info.ts) == y && extent + 6 < MAX_LABEL_W
    ensures EntryOf(f, pts, info, extent) == Entry(x, y, extent + 6)
  {
  }

  lemma LowIsDrawn(f: Week, s: Scene)
    requires IsLow(f, s) && Hypot(s.hypot)
    ensures Drawable(f, s)
  {
    LowRow(f);
    forall i | 0 <= i < |s.pts| ensures IsInt(Y(f, s.pts[i].pair)) { assert s.pts[i].pair == -10; }
  }

  lemma LowSpot(f: Week, pts: seq<Row<int>>, score: Rect -> real)
    requires f.plot == Rect(0, 0, 8, 32) && f.data == Rect(0, 0, 8, 1)
    ensures Chosen(f, pts, [], Entry(4, 11, 6), score, Some(Rect(0, 1, 6, 31)))
  {
    var e := Entry(4, 11, 6);
    assert XLo(f, e) == 0 && XHi(f, e) == 2;
    OnlySpot(f, pts, e, score, Rect(0, 1, 6, 31));
  }

  lemma OnePlaced(f: Week, s: Scene, r: Rect)
    requires |s.infos| == 1 && InWeek(f, s.infos[0].ts)
    requires var e := EntryOf(f, s.pts, s.infos[0], s.extents(0));
             Chosen(f, s.pts, [], e, ScoreOf(f, s.pts, e, s.hypot), Some(r))
    ensures Placements(f, s, [Label(r)])
  {
    assert [Label(r)][..0] == [];
    assert Placement(f, s, [Label(r)], 0);
  }

  /** It happens: the placement puts the label on the sample. */
  lemma NegativeCanBeCovered(f: Week, s: Scene)
    requires IsLow(f, s) && Hypot(s.hypot)
    ensures var r := Rect(0, 1, 6, 31);
            && Drawable(f, s) && Placements(f, s, [Label(r)])
            && r.left < X(f, s.pts[0].ts) < r.right && r.top < Y(f, s.pts[0].pair) < r.bottom
  {
    LowPixels(f, s);
    LowIsDrawn(f, s);
    LowEntry(f, s);
    LowSpot(f, s.pts, ScoreOf(f, s.pts, Entry(4, 11, 6), s.hypot));
    OnePlaced(f, s, Rect(0, 1, 6, 31));
  }

  /** There is such a scene. */
  lemma LowExists()
    ensures IsLow(SmallPlot(), LowScene()) && Hypot(LowScene().hypot)
  {
    NoDistance(LowScene());
  }

  lemma NoDistance(s: Scene)
    requires forall dx, dy :: s.hypot(dx, dy) == 0.0
    ensures Hypot(s.hypot)
  {
    forall dx, dy ensures (Abs(dx) + Abs(dy)) as real >= 0.0 { }
  }

  /** A grid of a single spot, outside the band: it is chosen. */
  lemma OnlySpot(f: Week, pts: seq<Row<int>>, e: Entry, score: Rect -> real, r: Rect)
    requires r == Cand(f, e, 0, 0) && InGrid(f, e, 0, 0) && !InData(f, r)
    requires XLo(f, e) + 8 > XHi(f, e) && f.plot.top + 7 + LABEL_H > f.plot.bottom - 1
    ensures Chosen(f, pts, [], e, score, Some(r))
  {
    forall a, b | InGrid(f, e, a, b) ensures a == 0 && b == 0 { }
    assert FirstBest(f, pts, [], e, score, 0, 0, 1, 0);
  }

  /** An entry of the week is drawn as a bare marker exactly when no spot of its grid is feasible. */
  lemma MarkerOnlyIfFull(f: Week, s: Scene, marks: seq<Mark>, k: nat)
    requires Drawable(f, s) && Placements(f, s, marks) && k < |marks| && InWeek(f, s.infos[k].ts)
    ensures var e := EntryOf(f, s.pts, s.infos[k], s.extents(k));
            marks[k] == MarkerOnly <==>
              forall i, j :: InGrid(f, e, i, j) ==> !Feasible(f, s.pts, Placed(marks[..k]), Cand(f, e, i, j))
  {
    assert Placement(f, s, marks, k);
  }
}
