/** The client's window: what it asks for, where the answers go, what the mouse points at. */
module Dialog {
  import opened Aggregates
  import opened Arith
  import opened Tables
  import opened Protocol
  import opened Hover

  const KST := 9 * 3600
  const MULTI_COUNT := 10
  const CLOSE := 300

  datatype Mode = Single | Multi

  datatype Answer = Answer(channel: string, from: int, to: int, points: seq<Row<int>>, info: seq<Row<Pair>>)

  /** A samples request: channel and window. */
  datatype Asked = Asked(channel: string, from: int, to: int)

  /** Sunday 00:00 KST of the week of a time (the epoch was a Thursday); C++ division, so the time is not
      before the epoch. */
  function WeekStart(ts: nat): int
  {
    var days := (ts + KST) / DAY;
    (days - (days + 4) % 7) * DAY - KST
  }

  /** The start of the 24-hour window: a day ago, down to the minute; C++ division. */
  function MultiFrom(now: int): int
  {
    var t := now - DAY;
    (if t >= 0 then t / 60 else -(-t / 60)) * 60
  }

  /** It is a Sunday, midnight in Korea, and its week holds the time. */
  lemma WeekStartIsSunday(ts: nat)
    ensures var w := WeekStart(ts);
            && w <= ts < w + WEEK
            && (w + KST) % DAY == 0 && ((w + KST) / DAY + 4) % 7 == 0
  {
    var days := (ts + KST) / DAY;
    var sunday := days - (days + 4) % 7;
    DivIs(sunday * DAY, DAY, sunday);
    DivBounds(ts + KST, DAY);
  }

  function Ask(a: Asked): Doc { Request("samples", None, Some(a.channel), Some(a.to), Some(a.from)) }

  /** The two-week request: at least 7 and less than 14 days long, and the relay takes and echoes it unchanged
      exactly when it starts after the epoch, so always from 14 days after it on. */
  lemma TwoWeeksAccepted(channel: string, now: nat, serverNow: int)
    requires now > 0
    ensures var a := Asked(channel, WeekStart(now) - WEEK, now);
            && WEEK <= a.to - a.from < 2 * WEEK
            && (WindowOf(Ask(a), serverNow) == Some((a.from, a.to)) <==> a.from > 0)
            && (now >= 14 * DAY ==> a.from > 0)
  {
    WeekStartIsSunday(now);
  }

  /** Both windows of every listed channel. */
  function DayRequests(ids: seq<string>, from: int): seq<Asked>
  {
    if ids == [] then [] else
    var id := ids[|ids| - 1];
    DayRequests(ids[..|ids| - 1], from) + [Asked(id, from, from + DAY), Asked(id, from - WEEK, from - WEEK + DAY)]
  }

  lemma {:induction false} DayRequestsAre(ids: seq<string>, from: int, a: Asked)
    ensures a in DayRequests(ids, from) <==>
              a.channel in ids && a.to == a.from + DAY && (a.from == from || a.from == from - WEEK)
  {
    if ids != [] {
      DayRequestsAre(ids[..|ids| - 1], from, a);
      assert ids == ids[..|ids| - 1] + [ids[|ids| - 1]];
    }
  }

  /** In the order of the list, the day before now first. */
  lemma {:induction false} DayRequestsAt(ids: seq<string>, from: int, k: nat)
    requires k < |ids|
    ensures var asked := DayRequests(ids, from);
            && |asked| == 2 * |ids| && asked[2 * k] == Asked(ids[k], from, from + DAY)
            && asked[2 * k + 1] == Asked(ids[k], from - WEEK, from - WEEK + DAY)
  {
    if k < |ids| - 1 {
      DayRequestsAt(ids[..|ids| - 1], from, k);
    } else if k > 0 {
      DayRequestsAt(ids[..|ids| - 1], from, k - 1);
    }
  }

  /** The 24-hour requests: for every listed channel the day up to now, down to the minute, and the same day a
      week before, and nothing else; the relay takes and echoes each unchanged. */
  lemma DayRequestsAccepted(ids: seq<string>, now: nat, a: Asked, serverNow: int)
    requires now >= 14 * DAY
    ensures var m := MultiFrom(now);
            && now - DAY - 60 < m <= now - DAY && m % 60 == 0
            && (a in DayRequests(ids, m) <==>
                  a.channel in ids && a.to == a.from + DAY && (a.from == m || a.from == m - WEEK))
            && (a in DayRequests(ids, m) ==> WindowOf(Ask(a), serverNow) == Some((a.from, a.to)))
  {
    DivBounds(now - DAY, 60);
    DivIs(MultiFrom(now), 60, (now - DAY) / 60);
    DayRequestsAre(ids, MultiFrom(now), a);
  }

  // ----- where an answer goes -----

  datatype Place = ToMulti | ToPrev | ToSingle | Dropped

  function Route(listed: seq<string>, multiFrom: int, samplesId: string, a: Answer): Place
  {
    if a.to - a.from == DAY && multiFrom != 0 && a.channel in listed then
      if Dist(a.from, multiFrom - WEEK) < CLOSE then ToPrev else ToMulti
    else if a.channel == samplesId then ToSingle else Dropped
  }

  /** For a listed channel, asked at time t and answered when the window has last been set at time u: last
      week's answer goes to last week's map exactly while the window has moved less than 300 s (five minutes of
      the clock), and the current one to the current map unless it has moved to within 300 s of a whole week.
      So both find their maps when at most 240 s lie between. */
  lemma DayAnswersFindTheirMap(listed: seq<string>, t: nat, u: nat, samplesId: string, a: Answer, b: Answer)
    requires a.channel in listed && b.channel in listed && 14 * DAY <= t <= u
    requires a.from == MultiFrom(t) && a.to == a.from + DAY
    requires b.from == MultiFrom(t) - WEEK && b.to == b.from + DAY
    ensures var moved := MultiFrom(u) - MultiFrom(t);
            && moved == 60 * (u / 60 - t / 60) && u - t - 60 < moved < u - t + 60
            && Route(listed, MultiFrom(u), samplesId, b) == (if moved < CLOSE then ToPrev else ToMulti)
            && Route(listed, MultiFrom(u), samplesId, a)
               == (if WEEK - CLOSE < moved < WEEK + CLOSE then ToPrev else ToMulti)
            && (u - t <= 240 ==>
                  && Route(listed, MultiFrom(u), samplesId, a) == ToMulti
                  && Route(listed, MultiFrom(u), samplesId, b) == ToPrev)
  {
    DivIs(t - DAY, 60, t / 60 - DAY / 60);
    DivIs(u - DAY, 60, u / 60 - DAY / 60);
    DivMono(t, u, 60);
  }

  /** A two-week answer is never taken for a 24-hour one. */
  lemma TwoWeekAnswerIsSingle(listed: seq<string>, multiFrom: int, samplesId: string, now: nat, a: Answer)
    requires a.from == WeekStart(now) - WEEK && a.to == now
    ensures Route(listed, multiFrom, samplesId, a) == if a.channel == samplesId then ToSingle else Dropped
  {
    WeekStartIsSunday(now);
  }

  /** A 24-hour answer of a channel that is not listed, or any before the 24-hour view was asked for, counts as one
      for the channel of the two-week view. */
  lemma UnlistedIsSingle(listed: seq<string>, multiFrom: int, samplesId: string, a: Answer)
    requires a.channel !in listed || multiFrom == 0
    ensures Route(listed, multiFrom, samplesId, a) == if a.channel == samplesId then ToSingle else Dropped
  {
  }

  // ----- the window's state -----

  /** The first ten channels of the view are listed, from a day before now down to the minute, and asked for twice. */
  ghost predicate Listed(view: seq<string>, now: int, ids: seq<string>, from: int, asked: seq<Asked>)
  {
    && ids == view[..if |view| < MULTI_COUNT then |view| else MULTI_COUNT]
    && from == MultiFrom(now) && asked == DayRequests(ids, from)
  }

  class MainDlg {
    var mode: Mode
    var view: seq<string>         // channel ids in list order
    var week0: int
    var samplesId: string
    var samples: Option<Answer>
    var multiIds: seq<string>
    var multi: map<string, Answer>
    var multiPrev: map<string, Answer>
    var multiFrom: int
    var rowRects: (Rect, Rect)    // the two weeks of the last drawing
    var multiRows: seq<Rect>      // the rows of the last drawing
    var hoverIdx: int
    var hoverRow: int
    var hoverMulti: int

    /** Only listed channels have 24-hour answers, each under its own name; at most ten are listed; the window
        starts on a minute; the points of every kept answer are in time order. */
    ghost predicate Valid()
      reads this
    {
      && |multiIds| <= MULTI_COUNT && multiFrom % 60 == 0
      && (forall id :: id in multi ==>
            && id in multiIds && multi[id].channel == id && multi[id].to - multi[id].from == DAY
            && Ascending(multi[id].points))
      && (forall id :: id in multiPrev ==>
            && id in multiIds && multiPrev[id].channel == id && multiPrev[id].to - multiPrev[id].from == DAY
            && Ascending(multiPrev[id].points))
      && (samples.Some? ==> Ascending(samples.value.points))
    }

    constructor ()
      ensures Valid() && mode == Single && samples == None && multiIds == [] && multiFrom == 0 && samplesId == ""
    {
      mode, view, week0, samplesId, samples := Single, [], 0, "", None;
      multiIds, multi, multiPrev, multiFrom := [], map[], map[], 0;
      rowRects, multiRows := (Rect(0, 0, 0, 0), Rect(0, 0, 0, 0)), [];
      hoverIdx, hoverRow, hoverMulti := -1, 0, -1;
    }

    /** Lists the first ten channels of the view, forgets answers of others, asks twice for each listed one. */
    method RequestMulti(connected: bool, now: int) returns (asked: seq<Asked>)
      requires Valid()
      modifies this`multiFrom, this`multiIds, this`multi, this`multiPrev
      ensures Valid()
      ensures !connected ==> asked == [] && unchanged(this)
      ensures connected ==>
                && Listed(view, now, multiIds, multiFrom, asked)
                && multi == Kept(old(multi), multiIds) && multiPrev == Kept(old(multiPrev), multiIds)
    {
      asked := [];
      if !connected { return; }
      multiFrom := MultiFrom(now);
      MinuteFrom(now);
      multiIds := FirstOf(view, MULTI_COUNT);
      multi := Forget(multi, multiIds);
      multiPrev := Forget(multiPrev, multiIds);
      asked := AskAll(multiIds, multiFrom);
    }

    /** The query button: the selected channel's last two weeks, or the 24-hour view. */
    method Query(connected: bool, sent: bool, cur: int, now: nat) returns (asked: seq<Asked>)
      requires Valid()
      modifies this
      ensures Valid()
      ensures old(mode).Single? && (!(0 <= cur < |old(view)|) || !connected) ==> asked == [] && unchanged(this)
      ensures old(mode).Single? && 0 <= cur < |old(view)| && connected ==>
                && asked == [Asked(old(view)[cur], WeekStart(now) - WEEK, now)]
                && (sent ==> samplesId == old(view)[cur] && week0 == WeekStart(now) - WEEK)
                && (!sent ==> unchanged(this))
      ensures old(mode).Single? ==>
                && multi == old(multi) && multiPrev == old(multiPrev) && multiIds == old(multiIds)
                && samples == old(samples)
      ensures old(mode).Multi? ==>
                && samplesId == old(samplesId) && week0 == old(week0)
                && asked == (if connected then DayRequests(multiIds, MultiFrom(now)) else [])
                && (connected ==>
                      && Listed(view, now, multiIds, multiFrom, asked)
                      && multi == Kept(old(multi), multiIds) && multiPrev == Kept(old(multiPrev), multiIds))
    {
      if mode.Multi? {
        asked := RequestMulti(connected, now);
        return;
      }
      asked := [];
      if !(0 <= cur < |view|) || !connected { return; }
      var from := WeekStart(now) - WEEK;
      asked := [Asked(view[cur], from, now)];
      if !sent { return; }
      samplesId := view[cur];
      week0 := from;
    }

    /** The minute timer asks for the channel list and repeats what is being shown. */
    method OnTimer(connected: bool, now: nat) returns (listAsked: bool, asked: seq<Asked>)
      requires Valid()
      modifies this
      ensures Valid()
      ensures listAsked == connected
      ensures asked == if !connected then []
                       else if old(mode).Multi? then
                         (if old(multiIds) == [] then [] else DayRequests(multiIds, MultiFrom(now)))
                       else if old(samplesId) == "" then [] else [Asked(old(samplesId), WeekStart(now) - WEEK, now)]
      ensures samplesId == old(samplesId) && samples == old(samples)
      ensures connected && old(mode).Single? && samplesId != "" ==> week0 == WeekStart(now) - WEEK
      ensures connected && old(mode).Multi? && old(multiIds) != [] ==>
                && Listed(view, now, multiIds, multiFrom, asked)
                && multi == Kept(old(multi), multiIds) && multiPrev == Kept(old(multiPrev), multiIds)
      ensures !connected || old(mode).Single? || old(multiIds) == [] ==>
                && multiIds == old(multiIds) && multiFrom == old(multiFrom)
                && multi == old(multi) && multiPrev == old(multiPrev)
    {
      listAsked, asked := false, [];
      if !connected { return; }
      listAsked := true;
      if mode.Multi? {
        if multiIds != [] { asked := RequestMulti(connected, now); }
      } else if samplesId != "" {
        week0 := WeekStart(now) - WEEK;
        asked := [Asked(samplesId, week0, now)];
      }
    }

    /** An answer arrives, its points in time order as the server sends them. */
    method OnSamples(a: Answer)
      requires Valid() && Ascending(a.points)
      modifies this
      ensures Valid()
      ensures multiIds == old(multiIds) && multiFrom == old(multiFrom) && samplesId == old(samplesId)
              && week0 == old(week0) && mode == old(mode)
      ensures match Route(old(multiIds), old(multiFrom), old(samplesId), a)
              case ToMulti =>
                multi == old(multi)[a.channel := a] && multiPrev == old(multiPrev) && samples == old(samples)
              case ToPrev =>
                multiPrev == old(multiPrev)[a.channel := a] && multi == old(multi) && samples == old(samples)
              case ToSingle =>
                samples == Some(a) && hoverIdx == -1 && multi == old(multi) && multiPrev == old(multiPrev)
              case Dropped => unchanged(this)
    {
      if a.to - a.from == DAY && multiFrom != 0 {
        var prev := Dist(a.from, multiFrom - WEEK) < CLOSE;
        for i := 0 to |multiIds|
          invariant unchanged(this)
          invariant forall k :: 0 <= k < i ==> multiIds[k] != a.channel
        {
          if multiIds[i] == a.channel {
            if prev { multiPrev := multiPrev[a.channel := a]; } else { multi := multi[a.channel := a]; }
            return;
          }
        }
      }
      if a.channel != samplesId { return; }
      samples := Some(a);
      hoverIdx := -1;
    }

    /** The mouse moves: which sample of which row it points at. */
    method UpdateHover(x: int, y: int)
      requires Valid()
      modifies this`hoverIdx, this`hoverRow, this`hoverMulti
      ensures Valid()
      ensures mode.Multi? ==>
                && hoverRow == old(hoverRow)
                && PointedMulti(multiRows, multiIds, multi, multiFrom, x, y, hoverMulti, hoverIdx)
      ensures mode.Single? ==>
                && hoverMulti == old(hoverMulti)
                && PointedSingle(rowRects, samples, week0, x, y, hoverRow, hoverIdx)
    {
      if mode.Multi? {
        hoverMulti, hoverIdx := PointMulti(multiRows, multiIds, multi, multiFrom, x, y);
      } else {
        hoverRow, hoverIdx := PointSingle(rowRects, samples, week0, x, y);
      }
    }
  }

  /** In the 24-hour view: the row under the mouse, and the nearest of all of its channel's samples. */
  ghost predicate PointedMulti(rows: seq<Rect>, ids: seq<string>, multi: map<string, Answer>, from: int, x: int,
        y: int, row: int, idx: int)
  {
    && IsRow(rows, x, y, row)
    && if 0 <= row < |ids| && ids[row] in multi && multi[ids[row]].points != []
       then Picked(multi[ids[row]].points, x, rows[row], from, DAY, All, idx)
       else idx == -1
  }

  method PointMulti(rows: seq<Rect>, ids: seq<string>, multi: map<string, Answer>, from: int, x: int, y: int)
    returns (row: int, idx: int)
    requires forall id :: id in multi ==> Ascending(multi[id].points)
    ensures PointedMulti(rows, ids, multi, from, x, y, row, idx)
  {
    row := FindRow(rows, x, y);
    idx := -1;
    if 0 <= row < |ids| && ids[row] in multi && multi[ids[row]].points != [] {
      idx := Pick(multi[ids[row]].points, x, rows[row], from, DAY, All);
    }
  }

  /** In the two-week view: the week under the mouse, and the nearest of that week's samples. */
  ghost predicate PointedSingle(rects: (Rect, Rect), samples: Option<Answer>, week0: int, x: int, y: int, row: int,
        idx: int)
  {
    if samples.Some? && samples.value.points != [] && (rects.0.Has(x, y) || rects.1.Has(x, y)) then
      var r := if rects.0.Has(x, y) then 0 else 1;
      var t0 := week0 + r * WEEK;
      && Picked(samples.value.points, x, if r == 0 then rects.0 else rects.1, t0, WEEK, Within(t0, t0 + WEEK), idx)
      && row == if idx >= 0 then r else 0
    else idx == -1 && row == 0
  }

  method PointSingle(rects: (Rect, Rect), samples: Option<Answer>, week0: int, x: int, y: int)
    returns (row: int, idx: int)
    requires samples.Some? ==> Ascending(samples.value.points)
    ensures PointedSingle(rects, samples, week0, x, y, row, idx)
  {
    row, idx := 0, -1;
    if samples.Some? && samples.value.points != [] {
      for r := 0 to 2
        invariant row == 0 && idx == -1
        invariant r > 0 ==> !rects.0.Has(x, y)
        invariant r > 1 ==> !rects.1.Has(x, y)
      {
        var plot := if r == 0 then rects.0 else rects.1;
        if plot.Has(x, y) {
          var t0 := week0 + r * WEEK;
          idx := Pick(samples.value.points, x, plot, t0, WEEK, Within(t0, t0 + WEEK));
          if idx >= 0 { row := r; }
          return;
        }
      }
    }
  }

  /** The first row with the point in it, or -1. */
  ghost predicate IsRow(rows: seq<Rect>, x: int, y: int, r: int)
  {
    if exists i :: 0 <= i < |rows| && rows[i].Has(x, y)
    then 0 <= r < |rows| && rows[r].Has(x, y) && forall i :: 0 <= i < r ==> !rows[i].Has(x, y)
    else r == -1
  }

  method FindRow(rows: seq<Rect>, x: int, y: int) returns (r: int)
    ensures IsRow(rows, x, y, r)
  {
    for i := 0 to |rows|
      invariant forall k :: 0 <= k < i ==> !rows[k].Has(x, y)
    {
      if rows[i].Has(x, y) { return i; }
    }
    return -1;
  }

  function Kept(m: map<string, Answer>, ids: seq<string>): map<string, Answer>
  {
    map id | id in m && id in ids :: m[id]
  }

  method Forget(m: map<string, Answer>, ids: seq<string>) returns (kept: map<string, Answer>)
    ensures kept == Kept(m, ids)
    ensures forall id :: (id in kept <==> id in m && id in ids) && (id in kept ==> kept[id] == m[id])
  {
    kept := m;
    var left := m.Keys;
    while left != {}
      invariant left <= kept.Keys <= m.Keys
      invariant forall id :: id in kept ==> kept[id] == m[id]
      invariant forall id :: id in m && id !in left ==> (id in kept <==> id in ids)
      decreases left
    {
      var id :| id in left;
      var keep := false;
      for i := 0 to |ids|
        invariant keep <==> id in ids[..i]
      {
        if ids[i] == id { keep := true; }
      }
      if !keep { kept := kept - {id}; }
      left := left - {id};
    }
  }

  method FirstOf(ids: seq<string>, n: nat) returns (first: seq<string>)
    ensures first == ids[..if |ids| < n then |ids| else n]
  {
    first := [];
    while |first| < |ids| && |first| < n
      invariant |first| <= |ids| && |first| <= n && first == ids[..|first|]
    {
      first := first + [ids[|first|]];
    }
  }

  method AskAll(ids: seq<string>, from: int) returns (asked: seq<Asked>)
    ensures asked == DayRequests(ids, from)
  {
    asked := [];
    for i := 0 to |ids|
      invariant asked == DayRequests(ids[..i], from)
    {
      assert ids[..i + 1][..i] == ids[..i];
      asked := asked + [Asked(ids[i], from, from + DAY), Asked(ids[i], from - WEEK, from - WEEK + DAY)];
    }
    assert ids[..|ids|] == ids;
  }

  lemma MinuteFrom(now: int)
    ensures MultiFrom(now) % 60 == 0
  {
    var t := now - DAY;
    var q := if t >= 0 then t / 60 else -(-t / 60);
    DivIs(q * 60, 60, q);
  }
}
