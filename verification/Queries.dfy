/** The relay's queries, and what the client reads out of their answers. */
module Queries {
  import opened Aggregates
  import opened Tables
  import opened Runs
  import opened Daemon

  // ----- samples: points and info of a window -----

  /** SELECT ts, viewers ... WHERE channel_id=? AND ts>=? AND ts<=? ORDER BY ts */
  function Points(samples: map<Key, int>, id: string, from: int, to: int): seq<Row<int>>
  {
    RowsAt(samples, id, set u | u in Times(samples, id) && from <= u <= to)
  }

  /** The half of the info query that gives the value at the start of the window. */
  function AtStart<P>(info: map<Key, P>, id: string, from: int): seq<Row<P>>
  {
    var r := InForce(info, id, from);
    if r.None? then [] else [r.value]
  }

  /** The half that gives the changes inside it. */
  function Inside<P>(info: map<Key, P>, id: string, from: int, to: int): seq<Row<P>>
  {
    RowsAt(info, id, set u | u in Times(info, id) && from < u <= to)
  }

  /** The points are exactly the channel's samples of the window, in time order. */
  lemma PointsAreTheWindow(samples: map<Key, int>, id: string, from: int, to: int, p: Row<int>)
    ensures p in Points(samples, id, from, to) <==>
              from <= p.ts <= to && Key(id, p.ts) in samples && samples[Key(id, p.ts)] == p.pair
    ensures Ascending(Points(samples, id, from, to))
  {
    var s := set u | u in Times(samples, id) && from <= u <= to;
    RowsAtFacts(samples, id, s);
    if p.ts in s && samples[Key(id, p.ts)] == p.pair { assert p == Row(p.ts, samples[Key(id, p.ts)]); }
  }

  /** A poll alone at its time, with no sample there before, is a point of every window that holds it: with the
      number of its first entry for the channel, exactly as long as no later deletion covers it. */
  lemma EveryPollIsAPoint<P>(db: Db<P>, ops: seq<Op<P>>, i: int, id: string, from: int, to: int)
    requires Alone(ops, i) && FirstEntry(ops[i].lives, id).Some? && Key(id, ops[i].ts) !in db.samples
    requires from <= ops[i].ts <= to
    ensures Row(ops[i].ts, FirstEntry(ops[i].lives, id).value.viewers) in Points(Run(db, ops).samples, id, from, to)
            <==> Spares(ops, i, ops[i].ts)
  {
    SampleOfPoll(db, ops, i, id);
    PointsAreTheWindow(Run(db, ops).samples, id, from, to,
                       Row(ops[i].ts, FirstEntry(ops[i].lives, id).value.viewers));
  }

  function InsertByTs<P>(rows: seq<Row<P>>, r: Row<P>): seq<Row<P>>
  {
    if rows == [] || rows[|rows| - 1].ts <= r.ts then rows + [r]
    else InsertByTs(rows[..|rows| - 1], r) + [rows[|rows| - 1]]
  }

  function OrderByTs<P>(rows: seq<Row<P>>): seq<Row<P>>
  {
    if rows == [] then [] else InsertByTs(OrderByTs(rows[..|rows| - 1]), rows[|rows| - 1])
  }

  /** The whole query: UNION ALL of the halves, ORDER BY ts. */
  function InfoAnswer<P>(info: map<Key, P>, id: string, from: int, to: int): seq<Row<P>>
  {
    OrderByTs(AtStart(info, id, from) + Inside(info, id, from, to))
  }

  lemma InsertLast<P>(rows: seq<Row<P>>)
    requires rows != [] && Ascending(rows)
    ensures InsertByTs(rows[..|rows| - 1], rows[|rows| - 1]) == rows
  {
    if |rows| >= 2 { assert rows[|rows| - 2].ts < rows[|rows| - 1].ts; }
    assert rows == rows[..|rows| - 1] + [rows[|rows| - 1]];
  }

  lemma {:induction false} OrderedStays<P>(rows: seq<Row<P>>)
    requires Ascending(rows)
    ensures OrderByTs(rows) == rows
  {
    if rows != [] {
      OrderedStays(rows[..|rows| - 1]);
      InsertLast(rows);
    }
  }

  lemma Follows<P>(a: seq<Row<P>>, b: seq<Row<P>>, t: int)
    requires |a| <= 1 && Ascending(b)
    requires (forall r :: r in a ==> r.ts <= t) && forall j :: 0 <= j < |b| ==> t < b[j].ts
    ensures Ascending(a + b)
  {
  }

  /** The two halves never share a row, so the answer is strictly ascending. */
  lemma InfoAscending<P>(info: map<Key, P>, id: string, from: int, to: int)
    ensures forall r :: r in AtStart(info, id, from) ==> r !in Inside(info, id, from, to)
    ensures Ascending(InfoAnswer(info, id, from, to))
    ensures InfoAnswer(info, id, from, to) == AtStart(info, id, from) + Inside(info, id, from, to)
  {
    var a, b := AtStart(info, id, from), Inside(info, id, from, to);
    RowsAtFacts(info, id, set u | u in Times(info, id) && from < u <= to);
    Follows(a, b, from);
    OrderedStays(a + b);
  }

  /** Sorting in one more row. */
  lemma {:induction false} RowsAtInsert<V>(t: map<Key, V>, id: string, s: set<int>, u: int)
    requires forall v :: v in s + {u} ==> Key(id, v) in t
    requires u !in s
    ensures RowsAt(t, id, s + {u}) == InsertByTs(RowsAt(t, id, s), Row(u, t[Key(id, u)]))
    decreases s
  {
    var m := MaxOf(s + {u}).value;
    if m == u {
      assert (s + {u}) - {u} == s;
      if s != {} { assert MaxOf(s).value < u; }
    } else {
      assert MaxOf(s).value == m && (s + {u}) - {m} == (s - {m}) + {u};
      RowsAtInsert(t, id, s - {m}, u);
    }
  }

  /** A scan of the table, in any order: one channel's rows with lo <= ts <= hi, sorted by ts. */
  method Scan<V>(t: map<Key, V>, id: string, lo: int, hi: int) returns (rows: seq<Row<V>>)
    ensures rows == RowsAt(t, id, set u | u in Times(t, id) && lo <= u <= hi)
  {
    var left := t.Keys;
    ghost var s: set<int> := {};
    rows := [];
    while left != {}
      invariant left <= t.Keys
      invariant forall u :: u in s <==> Key(id, u) in t.Keys - left && lo <= u <= hi
      invariant rows == RowsAt(t, id, s)
      decreases left
    {
      var k :| k in left;
      if k.id == id && lo <= k.ts <= hi {
        RowsAtInsert(t, id, s, k.ts);
        rows := InsertByTs(rows, Row(k.ts, t[k]));
        s := s + {k.ts};
      }
      left := left - {k};
    }
    assert s == set u | u in Times(t, id) && lo <= u <= hi;
  }

  /** A scan for the newest row not after a time. */
  method ScanInForce<V>(t: map<Key, V>, id: string, at: int) returns (r: Option<Row<V>>)
    ensures r == InForce(t, id, at)
  {
    var left := t.Keys;
    r := None;
    while left != {}
      invariant left <= t.Keys
      invariant r.None? ==> forall u :: u <= at && Key(id, u) in t ==> Key(id, u) in left
      invariant r.Some? ==> r.value.ts <= at && Key(id, r.value.ts) in t && t[Key(id, r.value.ts)] == r.value.pair
      invariant r.Some? ==> forall u :: u <= at && Key(id, u) in t ==> Key(id, u) in left || u <= r.value.ts
      decreases left
    {
      var k :| k in left;
      if k.id == id && k.ts <= at && (r.None? || r.value.ts < k.ts) { r := Some(Row(k.ts, t[k])); }
      left := left - {k};
    }
  }

  /** Answers for one channel's window. */
  method Samples(samples: map<Key, int>, info: map<Key, Pair>, id: string, from: int, to: int)
    returns (points: seq<Row<int>>, changes: seq<Row<Pair>>)
    ensures points == Points(samples, id, from, to)
    ensures changes == InfoAnswer(info, id, from, to)
  {
    points := Scan(samples, id, from, to);
    var start := ScanInForce(info, id, from);
    var inside := Scan(info, id, from + 1, to);
    assert inside == Inside(info, id, from, to) by {
      assert (set u | u in Times(info, id) && from + 1 <= u <= to) == set u | u in Times(info, id) && from < u <= to;
    }
    changes := OrderByTs((if start.None? then [] else [start.value]) + inside);
  }

  // ----- the client's tooltip -----

  /** The last row of a list that is not after a time. */
  function LastUpTo<P>(rows: seq<Row<P>>, at: int): Option<Row<P>>
  {
    if rows == [] then None
    else if rows[|rows| - 1].ts <= at then Some(rows[|rows| - 1])
    else LastUpTo(rows[..|rows| - 1], at)
  }

  /** The scan over the received changes. */
  method Tooltip<P>(rows: seq<Row<P>>, at: int) returns (cur: Option<Row<P>>)
    ensures cur == LastUpTo(rows, at)
  {
    cur := None;
    for i := 0 to |rows|
      invariant cur == LastUpTo(rows[..i], at)
    {
      assert rows[..i + 1][..i] == rows[..i];
      if rows[i].ts <= at { cur := Some(rows[i]); }
    }
    assert rows[..|rows|] == rows;
  }

  lemma {:induction false} LastUpToIs<P>(rows: seq<Row<P>>, at: int)
    requires Ascending(rows)
    ensures var c := LastUpTo(rows, at);
            && (c.None? ==> forall r :: r in rows ==> r.ts > at)
            && (c.Some? ==> c.value in rows && c.value.ts <= at && forall r :: r in rows && r.ts <= at ==>
                  r.ts <= c.value.ts)
  {
    if rows != [] {
      var pre, last := rows[..|rows| - 1], rows[|rows| - 1];
      assert forall r :: r in rows <==> r in pre || r == last;
      if last.ts > at { LastUpToIs(pre, at); }
    }
  }

  lemma AnswerHas<P>(info: map<Key, P>, id: string, from: int, to: int, r: Row<P>)
    ensures r in InfoAnswer(info, id, from, to) <==>
              || InForce(info, id, from) == Some(r)
              || (from < r.ts <= to && Key(id, r.ts) in info && info[Key(id, r.ts)] == r.pair)
  {
    var s := set u | u in Times(info, id) && from < u <= to;
    InfoAscending(info, id, from, to);
    RowsAtFacts(info, id, s);
    assert r in Inside(info, id, from, to) <==> r.ts in s && info[Key(id, r.ts)] == r.pair by {
      if r.ts in s && info[Key(id, r.ts)] == r.pair { assert r == Row(r.ts, info[Key(id, r.ts)]); }
    }
  }

  /** A row that is the newest of the listed rows not after `at` is what the scan finds. */
  lemma ScanFinds<P>(rows: seq<Row<P>>, at: int, r: Row<P>)
    requires Ascending(rows) && r in rows && r.ts <= at
    requires forall q :: q in rows && q.ts <= at ==> q.ts <= r.ts
    ensures LastUpTo(rows, at) == Some(r)
  {
    LastUpToIs(rows, at);
    var c := LastUpTo(rows, at).value;
    var i, j :| 0 <= i < |rows| && 0 <= j < |rows| && rows[i] == c && rows[j] == r;
  }

  /** The exact answer of any run of later polls, repeated channels and equal times included: the last row, not after
      the time, of the compression of everything observed, unless that was forgotten. */
  lemma AnswersTheObservations<P(!new)>(db: Db<P>, ops: seq<Op<P>>, id: string, at: int)
    requires LaterPolls(db, ops)
    ensures InForce(Run(db, ops).info, id, at)
         == if Lost(db, ops, id, at) then None
            else LastUpTo(Compress(History(db.info, id), Observations(ops, id)), at)
  {
    var full := Full(db, ops).info;
    var rows, r := History(full, id), InForce(full, id, at);
    ForgetsExactly(db, ops, id, at);
    HistoryIsCompressed(db, ops, id);
    RowsAtFacts(full, id, Times(full, id));
    if r.Some? {
      assert r.value == Row(r.value.ts, full[Key(id, r.value.ts)]);
      ScanFinds(rows, at, r.value);
    } else {
      LastUpToIs(rows, at);
    }
  }

  /** The window hides nothing: for every table and window, and every time inside it, the scan over the
      answer finds the row in force in the whole table. */
  lemma WindowSeesWhatApplies<P>(info: map<Key, P>, id: string, from: int, to: int, at: int)
    requires from <= at <= to
    ensures LastUpTo(InfoAnswer(info, id, from, to), at) == InForce(info, id, at)
  {
    var rows, r := InfoAnswer(info, id, from, to), InForce(info, id, at);
    assert Ascending(rows) by { InfoAscending(info, id, from, to); }
    forall q | q in rows && q.ts <= at ensures r.Some? && q.ts <= r.value.ts { AnswerHas(info, id, from, to, q); }
    if r.Some? {
      if r.value.ts <= from { assert InForce(info, id, from) == r; }
      AnswerHas(info, id, from, to, r.value);
      ScanFinds(rows, at, r.value);
    } else {
      LastUpToIs(rows, at);
    }
  }

  /** From poll to tooltip: after any run of later polls and purges, every point of any answer is the number of some
      poll's first entry for the channel.  The tooltip at it shows a pair said at that very time (by that very poll,
      if it was alone; the one of its entry, if it named the channel once), or nothing, and nothing exactly when that
      was forgotten.  The points are read after a operations, the changes after all of them. */
  lemma TooltipTellsItsPoll<P(!new)>(db: Db<P>, ops: seq<Op<P>>, a: nat, id: string, from: int, to: int, p: Row<int>)
    returns (i: int, l: Live<P>)
    requires LaterPolls(db, ops) && a <= |ops|
    requires p in Points(Run(db, ops[..a]).samples, id, from, to) && Key(id, p.ts) !in db.samples
    ensures 0 <= i < a && ops[i].Record? && ops[i].ts == p.ts && FirstEntry(ops[i].lives, id) == Some(l)
    ensures l.viewers == p.pair
    ensures var c := LastUpTo(InfoAnswer(Run(db, ops).info, id, from, to), p.ts);
            && (c.None? <==> Lost(db, ops, id, p.ts))
            && (c.Some? ==> c.value.pair in SaidAt(db, ops, id, p.ts))
            && (c.Some? && Alone(ops, i) && Key(id, p.ts) !in db.info ==>
                  && c.value.pair in SeenPairs(ops[i].lives, id)
                  && (Distinct(ops[i].lives) ==> c.value.pair == l.pair))
  {
    PointsAreTheWindow(Run(db, ops[..a]).samples, id, from, to, p);
    i, l := SampleHasPoll(db, ops[..a], Key(id, p.ts));
    assert l.pair in SeenPairs(ops[i].lives, id);
    PolledEntry(db, ops, i, id);
    WindowSeesWhatApplies(Run(db, ops).info, id, from, to, p.ts);
  }

  // ----- channels -----

  datatype ChannelAnswer =
    ChannelAnswer(id: string, name: string, firstSeen: int, lastSeen: int, samples: nat, peak: int, current: int)

  /** The channel's samples that the JOIN keeps. */
  function Recent(samples: map<Key, int>, id: string, since: int): set<int>
  {
    set u | u in Times(samples, id) && u >= since
  }

  function Numbers(samples: map<Key, int>, id: string, since: int): set<int>
  {
    set u | u in Recent(samples, id, since) :: samples[Key(id, u)]
  }

  /** Channels without a recent sample do not survive the JOIN. */
  function Eligible<P>(db: Db<P>, since: int): set<string>
  {
    set id | id in db.channels && Recent(db.samples, id, since) != {}
  }

  /** One group of the query; a null `current` is written as 0. */
  function AnswerFor<P>(db: Db<P>, id: string, since: int): ChannelAnswer
    requires id in Eligible(db, since)
  {
    var c := db.channels[id];
    Member(Recent(db.samples, id, since));
    assert Numbers(db.samples, id, since) != {} by {
      var u :| u in Recent(db.samples, id, since);
      assert db.samples[Key(id, u)] in Numbers(db.samples, id, since);
    }
    ChannelAnswer(id, c.name, c.firstSeen, c.lastSeen, |Recent(db.samples, id, since)|,
                  MaxOf(Numbers(db.samples, id, since)).value,
                  if Key(id, c.lastSeen) in db.samples then db.samples[Key(id, c.lastSeen)] else 0)
  }

  /** ORDER BY MAX(viewers) DESC, last_seen_ts DESC */
  predicate NotBefore(a: ChannelAnswer, b: ChannelAnswer)
  {
    a.peak > b.peak || (a.peak == b.peak && a.lastSeen >= b.lastSeen)
  }

  /** No channel twice, and in the query's order. */
  ghost predicate Ordered(rows: seq<ChannelAnswer>)
  {
    forall i, j :: 0 <= i < j < |rows| ==> rows[i].id != rows[j].id && NotBefore(rows[i], rows[j])
  }

  ghost predicate IsChannelsAnswer<P>(db: Db<P>, since: int, rows: seq<ChannelAnswer>)
  {
    && (forall r :: r in rows ==> r.id in Eligible(db, since) && r == AnswerFor(db, r.id, since))
    && (forall id :: id in Eligible(db, since) ==> AnswerFor(db, id, since) in rows)
    && Ordered(rows)
  }

  /** Sorted insertion: after every row that does not have to come later. */
  method InsertRow(rows: seq<ChannelAnswer>, r: ChannelAnswer) returns (out: seq<ChannelAnswer>)
    requires Ordered(rows)
    requires forall q :: q in rows ==> q.id != r.id
    ensures Ordered(out)
    ensures forall q :: q in out <==> q in rows || q == r
  {
    var n := 0;
    while n < |rows| && NotBefore(rows[n], r)
      invariant n <= |rows|
      invariant forall i :: 0 <= i < n ==> NotBefore(rows[i], r)
    {
      n := n + 1;
    }
    assert forall i :: 0 <= i < |rows| ==> rows[i] in rows;
    out := rows[..n] + [r] + rows[n..];
    Members(rows, n, r);
    InsertedInOrder(rows, n, r);
  }

  lemma InsertedInOrder(rows: seq<ChannelAnswer>, n: nat, r: ChannelAnswer)
    requires Ordered(rows) && n <= |rows| && (forall i :: 0 <= i < |rows| ==> rows[i].id != r.id)
    requires (forall i :: 0 <= i < n ==> NotBefore(rows[i], r)) && (n < |rows| ==> !NotBefore(rows[n], r))
    ensures Ordered(rows[..n] + [r] + rows[n..])
  {
    var out := rows[..n] + [r] + rows[n..];
    forall i, j | 0 <= i < j < |out| ensures out[i].id != out[j].id && NotBefore(out[i], out[j]) {
      var a, b := (if i <= n then i else i - 1), if j <= n then j else j - 1;
      if i == n { assert b == n || NotBefore(rows[n], rows[b]); }
      else if j != n { assert out[i] == rows[a] && out[j] == rows[b]; }
    }
  }

  lemma Members<T>(rows: seq<T>, n: nat, r: T)
    requires n <= |rows|
    ensures forall q :: q in rows[..n] + [r] + rows[n..] <==> q in rows || q == r
  {
    assert rows == rows[..n] + rows[n..];
  }

  method Channels<P>(db: Db<P>, now: int) returns (rows: seq<ChannelAnswer>)
    ensures IsChannelsAnswer(db, now - WEEK, rows)
  {
    var since := now - WEEK;
    var left := Eligible(db, since);
    rows := [];
    while left != {}
      invariant left <= Eligible(db, since)
      invariant forall r :: r in rows ==> r.id in Eligible(db, since) - left && r == AnswerFor(db, r.id, since)
      invariant forall id :: id in Eligible(db, since) - left ==> AnswerFor(db, id, since) in rows
      invariant Ordered(rows)
      decreases left
    {
      var id :| id in left;
      rows := InsertRow(rows, AnswerFor(db, id, since));
      left := left - {id};
    }
  }

  /** What the query answers: a row for each channel with a sample since the time, and for no other, the highest peak
      first and among equals the one seen last; with the number of points that a window from the time on would
      have. */
  lemma ChannelsAreTheActive<P>(db: Db<P>, since: int, rows: seq<ChannelAnswer>, id: string, until: int)
    requires IsChannelsAnswer(db, since, rows)
    requires forall k :: k in db.samples ==> k.ts <= until
    ensures (exists r :: r in rows && r.id == id)
            <==> id in db.channels && exists u :: u >= since && Key(id, u) in db.samples
    ensures forall r :: r in rows && r.id == id ==> r.samples == |Points(db.samples, id, since, until)|
    ensures forall i, j :: 0 <= i < j < |rows| ==>
              && rows[i].id != rows[j].id
              && (rows[i].peak > rows[j].peak || (rows[i].peak == rows[j].peak && rows[i].lastSeen >= rows[j].lastSeen))
  {
    if id in db.channels && exists u :: u >= since && Key(id, u) in db.samples {
      var u :| u >= since && Key(id, u) in db.samples;
      assert u in Recent(db.samples, id, since);
      assert AnswerFor(db, id, since) in rows;
    }
    forall r | r in rows && r.id == id
      ensures exists u :: u >= since && Key(id, u) in db.samples
      ensures r.samples == |Points(db.samples, id, since, until)|
    {
      Member(Recent(db.samples, id, since));
      var u :| u in Recent(db.samples, id, since);
      assert Key(id, u) in db.samples;
      RowsCount(db.samples, id, Recent(db.samples, id, since));
      assert Recent(db.samples, id, since) == set u | u in Times(db.samples, id) && since <= u <= until;
    }
  }

  lemma {:induction false} RowsCount<V>(t: map<Key, V>, id: string, s: set<int>)
    requires forall u :: u in s ==> Key(id, u) in t
    ensures |RowsAt(t, id, s)| == |s|
  {
    if s != {} { RowsCount(t, id, s - {MaxOf(s).value}); }
  }

  /** Two lists of the same rows that differ only in the order of ties. */
  ghost predicate SameUpToTies(a: seq<ChannelAnswer>, b: seq<ChannelAnswer>)
  {
    && |a| == |b| && (forall r :: r in a <==> r in b)
    && (forall i :: 0 <= i < |a| ==> a[i].peak == b[i].peak && a[i].lastSeen == b[i].lastSeen)
  }

  function Rows(s: seq<ChannelAnswer>): set<ChannelAnswer> { set r | r in s }

  lemma {:induction false} DistinctRows(s: seq<ChannelAnswer>)
    requires forall i, j :: 0 <= i < j < |s| ==> s[i].id != s[j].id
    ensures |Rows(s)| == |s|
  {
    if s != [] {
      var pre, r := s[..|s| - 1], s[|s| - 1];
      DistinctRows(pre);
      assert s == pre + [r];
      assert r !in pre;
      assert Rows(s) == Rows(pre) + {r};
    }
  }

  /** The i-th row of one answer is not before the i-th of another: otherwise more than i rows of the other would
      have to precede it. */
  lemma NotBeforeIth(a: seq<ChannelAnswer>, b: seq<ChannelAnswer>, i: int)
    requires Ordered(a) && Ordered(b) && (forall r :: r in a ==> r in b) && 0 <= i < |a| && i < |b|
    ensures NotBefore(b[i], a[i])
  {
    if !NotBefore(b[i], a[i]) {
      DistinctRows(a[..i + 1]);
      DistinctRows(b[..i]);
      forall r | r in Rows(a[..i + 1]) ensures r in Rows(b[..i]) {
        var m :| 0 <= m <= i && a[m] == r;
        assert r in a && NotBefore(r, a[i]);
        var n :| 0 <= n < |b| && b[n] == r;
        assert n < i;
        assert b[..i][n] == r;
      }
      SubsetSize(Rows(a[..i + 1]), Rows(b[..i]));
    }
  }

  lemma {:induction false} SubsetSize<T>(a: set<T>, b: set<T>)
    requires a <= b
    ensures |a| <= |b|
  {
    if a != {} {
      var x :| x in a;
      SubsetSize(a - {x}, b - {x});
    }
  }

  /** The query determines its answer up to the order of ties. */
  lemma AnswersDifferInTies<P>(db: Db<P>, since: int, a: seq<ChannelAnswer>, b: seq<ChannelAnswer>)
    requires IsChannelsAnswer(db, since, a) && IsChannelsAnswer(db, since, b)
    ensures SameUpToTies(a, b)
  {
    DistinctRows(a);
    DistinctRows(b);
    assert Rows(a) == Rows(b);
    forall i | 0 <= i < |a| ensures a[i].peak == b[i].peak && a[i].lastSeen == b[i].lastSeen {
      NotBeforeIth(a, b, i);
      NotBeforeIth(b, a, i);
    }
  }

  // ----- stats -----

  function TimesOf(keys: set<Key>): set<int> { set k | k in keys :: k.ts }

  lemma OneMoreTime(keys: set<Key>, k: Key)
    ensures TimesOf(keys + {k}) == TimesOf(keys) + {k.ts}
    ensures var m := MinOf(TimesOf(keys));
            MinOf(TimesOf(keys + {k})) == if m.None? || k.ts < m.value then Some(k.ts) else m
    ensures var m := MaxOf(TimesOf(keys));
            MaxOf(TimesOf(keys + {k})) == if m.None? || k.ts > m.value then Some(k.ts) else m
  {
    forall t ensures t in TimesOf(keys + {k}) <==> t in TimesOf(keys) + {k.ts} {
      if t in TimesOf(keys) {
        var x :| x in keys && x.ts == t;
        assert x in keys + {k};
      }
      assert k in keys + {k};
    }
  }

  /** COUNT(*), MIN(ts), MAX(ts) of the samples and the number of channels, in one scan. */
  method Totals<P>(db: Db<P>) returns (n: nat, oldest: Option<int>, newest: Option<int>, channels: nat)
    ensures n == |db.samples| && channels == |db.channels|
    ensures oldest == MinOf(TimesOf(db.samples.Keys)) && newest == MaxOf(TimesOf(db.samples.Keys))
  {
    var keys, left := db.samples.Keys, db.samples.Keys;
    n, oldest, newest := 0, None, None;
    while left != {}
      invariant left <= keys && n + |left| == |keys|
      invariant oldest == MinOf(TimesOf(keys - left)) && newest == MaxOf(TimesOf(keys - left))
      decreases left
    {
      var k :| k in left;
      OneMoreTime(keys - left, k);
      assert keys - (left - {k}) == (keys - left) + {k};
      n := n + 1;
      if oldest.None? || k.ts < oldest.value { oldest := Some(k.ts); }
      if newest.None? || k.ts > newest.value { newest := Some(k.ts); }
      left := left - {k};
    }
    assert keys - {} == keys;
    channels := |db.channels|;
  }

  /** The greatest recent number. */
  ghost predicate Peak(samples: map<Key, int>, id: string, since: int, v: int)
  {
    && (exists u :: u in Recent(samples, id, since) && samples[Key(id, u)] == v)
    && (forall u :: u in Recent(samples, id, since) ==> samples[Key(id, u)] <= v)
  }

  /** Every row of the answer makes sense when the channels table agrees with the samples. */
  lemma SoundRow<P>(db: Db<P>, hi: int, since: int, id: string)
    requires Sound(db, hi) && id in Eligible(db, since)
    ensures var a := AnswerFor(db, id, since);
            && a.samples >= 1 && a.firstSeen <= a.lastSeen && since <= a.lastSeen
            && Key(id, a.lastSeen) in db.samples && a.current == db.samples[Key(id, a.lastSeen)]
            && a.current <= a.peak && Peak(db.samples, id, since, a.peak)
  {
    var last := db.channels[id].lastSeen;
    Member(Recent(db.samples, id, since));
    var u :| u in Recent(db.samples, id, since);
    assert Key(id, u) in db.samples;
    assert last in Recent(db.samples, id, since);
    assert forall v :: v in Recent(db.samples, id, since) ==> db.samples[Key(id, v)] in Numbers(db.samples, id, since);
    assert db.samples[Key(id, last)] in Numbers(db.samples, id, since);
  }

  /** After any run with nondecreasing record times, whatever was purged and when, and at any query time,
      every row of the channels answer has a sample, was first seen before it was last seen, has its
      last sighting among its samples (the null fallback never fires) and a current not over its peak. */
  lemma ChannelsMakeSense<P>(db: Db<P>, ops: seq<Op<P>>, from: int, now: int, rows: seq<ChannelAnswer>,
        r: ChannelAnswer)
    requires Sound(db, from) && Nondecreasing(ops, from)
    requires IsChannelsAnswer(Run(db, ops), now - WEEK, rows) && r in rows
    ensures r.samples >= 1 && r.firstSeen <= r.lastSeen && now - WEEK <= r.lastSeen
    ensures Key(r.id, r.lastSeen) in Run(db, ops).samples && r.current == Run(db, ops).samples[Key(r.id, r.lastSeen)]
    ensures r.current <= r.peak && Peak(Run(db, ops).samples, r.id, now - WEEK, r.peak)
  {
    assert r.id in Eligible(Run(db, ops), now - WEEK) && r == AnswerFor(Run(db, ops), r.id, now - WEEK);
    SoundRun(db, ops, from);
    SoundRow(Run(db, ops), Latest(ops, from), now - WEEK, r.id);
  }

  /** And its name and times are those of the whole log, polls long purged included. */
  lemma ChannelsTellSightings<P>(db: Db<P>, ops: seq<Op<P>>, now: int, rows: seq<ChannelAnswer>, r: ChannelAnswer)
    requires IsChannelsAnswer(Run(db, ops), now - WEEK, rows) && r in rows && r.id !in db.channels
    ensures var s := Sightings(ops, r.id);
            s != [] && r.name == s[|s| - 1].name && r.firstSeen == s[0].ts && r.lastSeen == s[|s| - 1].ts
  {
    assert r.id in Eligible(Run(db, ops), now - WEEK) && r == AnswerFor(Run(db, ops), r.id, now - WEEK);
    ChannelsTellTheLog(db, ops, r.id);
  }

  /** And for any record times at all, that is exactly when it makes sense: a channel was first seen before it was
      last seen if its first sighting was before its last, and its current number is its last sighting's sample if no
      deletion has covered that since, else the fallback. */
  lemma ChannelsMakeSenseExactly<P>(db: Db<P>, ops: seq<Op<P>>, now: int, rows: seq<ChannelAnswer>, r: ChannelAnswer)
    requires IsChannelsAnswer(Run(db, ops), now - WEEK, rows) && r in rows && r.id !in db.channels
    ensures var s := Sightings(ops, r.id);
            s != [] && (r.firstSeen <= r.lastSeen <==> s[0].ts <= s[|s| - 1].ts)
    ensures var t, k := Run(db, ops).samples, Key(r.id, r.lastSeen);
            && (k in t <==> (k in db.samples && Spares(ops, -1, k.ts))
                            || exists i :: Sights(ops, i, k) && Spares(ops, i, k.ts))
            && r.current == if k in t then t[k] else 0
  {
    ChannelsTellSightings(db, ops, now, rows, r);
    SampleLives(db, ops, Key(r.id, r.lastSeen));
    assert r.id in Eligible(Run(db, ops), now - WEEK) && r == AnswerFor(Run(db, ops), r.id, now - WEEK);
  }

  /** In particular under the daemon's own loop, from an empty store. */
  lemma DaemonChannelsMakeSense(turns: seq<Turn>, p: int, retainDays: int, now: int, rows: seq<ChannelAnswer>,
        r: ChannelAnswer)
    requires p >= 1 && Clock(turns)
    requires IsChannelsAnswer(Run(Db(map[], map[], map[]), After(turns, p, retainDays).ops), now - WEEK, rows)
             && r in rows
    ensures r.samples >= 1 && r.firstSeen <= r.lastSeen && r.current <= r.peak
  {
    var ops := After(turns, p, retainDays).ops;
    LoopIncreases(turns, p, retainDays);
    forall op | op in ops && op.Record? ensures 0 <= op.ts {
      LoopSources(turns, p, retainDays, op);
      var t :| t in turns && op.ts == Floor(t.start, p);
      FloorNonnegative(t.start, p);
    }
    ChannelsMakeSense(Db(map[], map[], map[]), ops, 0, now, rows, r);
  }

  lemma FloorNonnegative(t: int, p: int)
    requires t >= 0 && p >= 1
    ensures Floor(t, p) >= 0
  {
    assert t / p >= 0;
  }

  /** Without nondecreasing times it breaks: polled at 100, then at 50, then purged at 60, a channel was
      first seen after it was last seen and its current number is the fallback. */
  lemma BackwardsClockBreaksChannels()
    ensures var l := Live("c", "n", 7, Pair("a", "x"));
            var db := Run(Db(map[], map[], map[]), [Record(100, [l]), Record(50, [l]), DropSamples(60)]);
            "c" in Eligible(db, 0) && AnswerFor(db, "c", 0) == ChannelAnswer("c", "n", 100, 50, 1, 7, 0)
  {
    var l := Live("c", "n", 7, Pair("a", "x"));
    var e: Db<Pair> := Db(map[], map[], map[]);
    var ops := [Record(100, [l]), Record(50, [l]), DropSamples(60)];
    assert ops[..2] == [Record(100, [l]), Record(50, [l])] && ops[..2][..1] == [Record(100, [l])]
           && ops[..2][..1][..0] == [];
    assert [l][..0] == [];
    var a := RecordOne(e, 100, l);
    assert RecordAll(e, 100, [l]) == a;
    var b := RecordOne(a, 50, l);
    assert RecordAll(a, 50, [l]) == b;
    assert Run(e, ops[..2][..1]) == a && Run(e, ops[..2]) == b;
    var db := Run(e, ops);
    assert db == Apply(b, DropSamples(60));
    assert b.samples == map[Key("c", 100) := 7, Key("c", 50) := 7];
    assert db.samples == SamplesFrom(b.samples, 60) == map[Key("c", 100) := 7];
    assert Times(db.samples, "c") == {100};
    assert Recent(db.samples, "c", 0) == {100};
    assert Numbers(db.samples, "c", 0) == {7};
  }
}
