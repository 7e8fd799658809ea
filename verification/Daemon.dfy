/** The collector's main loop: poll, maybe purge, wait for the next poll boundary. */
module Daemon {
  import opened Aggregates
  import opened Arith
  import opened Tables
  import opened Runs
  import opened Stores

  /** One pass of the loop, as the world sees it: every clock reading in the order it is taken, what the
      API gave (None if fetching or recording failed), and how many of the two purge statements
      committed before a failure (2: none failed). */
  datatype Turn = Turn(start: int, polled: Option<seq<Live<Pair>>>, due: int, at: int, committed: nat, done: int,
                       end: int, waits: seq<int>)

  /** The clock never runs backwards, inside a pass or from one pass to the next. */
  ghost predicate Clock(turns: seq<Turn>)
  {
    && (forall t :: t in turns ==>
          0 <= t.start <= t.due <= t.at <= t.done <= t.end && forall w :: w in t.waits ==> t.end <= w)
    && (forall i, j :: 0 <= i < j < |turns| ==>
          turns[i].end <= turns[j].start && forall w :: w in turns[i].waits ==> w <= turns[j].start)
  }

  function Floor(t: int, p: int): int
    requires p >= 1
  {
    t / p * p
  }

  function Wake(t: int, p: int): int
    requires p >= 1
  {
    (t / p + 1) * p
  }

  /** What the loop has done so far: committed changes, when it last purged, whether it was told to stop. */
  datatype Progress = Progress(ops: seq<Op<Pair>>, lastPurge: int, stopped: bool)

  function TurnOps(t: Turn, lastPurge: int, p: int, retainDays: int): seq<Op<Pair>>
    requires p >= 1
  {
    if t.polled.None? then [] else
    var cutoff := t.at - retainDays * 86400;
    [Record(Floor(t.start, p), t.polled.value)] +
    if t.due - lastPurge <= 3600 || t.committed == 0 then []
    else if t.committed == 1 then [DropSamples(cutoff)]
    else [DropSamples(cutoff), DropInfo(cutoff)]
  }

  function TurnPurge(t: Turn, lastPurge: int): int
  {
    if t.polled.Some? && t.due - lastPurge > 3600 && t.committed >= 2 then t.done else lastPurge
  }

  predicate Released(t: Turn, p: int)
    requires p >= 1
  {
    exists w :: w in t.waits && w >= Wake(t.end, p)
  }

  function After(turns: seq<Turn>, p: int, retainDays: int): Progress
    requires p >= 1
  {
    if turns == [] then Progress([], 0, false) else
    var s, t := After(turns[..|turns| - 1], p, retainDays), turns[|turns| - 1];
    if s.stopped then s
    else Progress(s.ops + TurnOps(t, s.lastPurge, p, retainDays), TurnPurge(t, s.lastPurge), !Released(t, p))
  }

  lemma {:induction false} RunConcat<P>(db: Db<P>, a: seq<Op<P>>, b: seq<Op<P>>)
    ensures Run(db, a + b) == Run(Run(db, a), b)
  {
    if b == [] {
      assert a + b == a;
    } else {
      RunConcat(db, a, b[..|b| - 1]);
      assert (a + b)[..|a + b| - 1] == a + b[..|b| - 1];
    }
  }

  lemma OneMore<P>(db: Db<P>, ops: seq<Op<P>>, op: Op<P>)
    ensures Run(db, ops + [op]) == Apply(Run(db, ops), op)
  {
    assert (ops + [op])[..|ops + [op]| - 1] == ops;
  }

  lemma PurgeIsTwoDrops<P>(db: Db<P>, ops: seq<Op<P>>, c: int)
    ensures Run(db, ops + [DropSamples(c), DropInfo(c)]) == Purge(Run(db, ops), c)
  {
    assert ops + [DropSamples(c), DropInfo(c)] == ops + [DropSamples(c)] + [DropInfo(c)];
    OneMore(db, ops, DropSamples(c));
    OneMore(db, ops + [DropSamples(c)], DropInfo(c));
  }

  method PurgeTurn(store: Store, t: Turn, retainDays: int, ops: seq<Op<Pair>>, lastPurge: int, ghost start: Db<Pair>)
    returns (ops': seq<Op<Pair>>, lastPurge': int)
    requires store.Contents() == Run(start, ops)
    modifies store
    ensures store.Contents() == Run(start, ops')
    ensures var c := t.at - retainDays * 86400;
            ops' == ops + if t.committed == 0 then []
                          else if t.committed == 1 then [DropSamples(c)]
                          else [DropSamples(c), DropInfo(c)]
    ensures lastPurge' == if t.committed >= 2 then t.done else lastPurge
  {
    var c := t.at - retainDays * 86400;
    ops', lastPurge' := ops, lastPurge;
    if t.committed >= 2 {
      PurgeIsTwoDrops(start, ops, c);
      var n, m := store.Purge(t.at, retainDays);
      ops', lastPurge' := ops + [DropSamples(c), DropInfo(c)], t.done;
    } else if t.committed == 1 {
      OneMore(start, ops, DropSamples(c));
      var n := store.DeleteSamples(c);
      ops' := ops + [DropSamples(c)];
    }
  }

  /** The loop itself.  `pollSec` is at least 1: main raises it. */
  method Loop(store: Store, turns: seq<Turn>, p: int, retainDays: int) returns (ops: seq<Op<Pair>>)
    requires p >= 1
    modifies store
    ensures ops == After(turns, p, retainDays).ops
    ensures store.Contents() == Run(old(store.Contents()), ops)
  {
    var lastPurge, stopped, i := 0, false, 0;
    ops := [];
    while i < |turns| && !stopped
      invariant i <= |turns|
      invariant Progress(ops, lastPurge, stopped) == After(turns[..i], p, retainDays)
      invariant store.Contents() == Run(old(store.Contents()), ops)
    {
      assert turns[..i + 1][..i] == turns[..i];
      ops, lastPurge := Pass(store, turns[i], p, retainDays, ops, lastPurge, old(store.Contents()));
      stopped := Wait(turns[i], p);
      i := i + 1;
    }
    StopsForGood(turns, i, p, retainDays);
  }

  lemma {:induction false} StopsForGood(turns: seq<Turn>, i: nat, p: int, retainDays: int)
    requires p >= 1 && i <= |turns| && (i == |turns| || After(turns[..i], p, retainDays).stopped)
    ensures After(turns, p, retainDays) == After(turns[..i], p, retainDays)
  {
    if i == |turns| {
      assert turns[..i] == turns;
    } else {
      assert turns[..|turns| - 1][..i] == turns[..i];
      StopsForGood(turns[..|turns| - 1], i, p, retainDays);
    }
  }

  /** Sleep until the next boundary; true if told to stop before it came. */
  method Wait(t: Turn, p: int) returns (stopped: bool)
    requires p >= 1
    ensures stopped == !Released(t, p)
  {
    var j := 0;
    while j < |t.waits| && t.waits[j] < Wake(t.end, p)
      invariant j <= |t.waits|
      invariant forall k :: 0 <= k < j ==> t.waits[k] < Wake(t.end, p)
    {
      j := j + 1;
    }
    stopped := j == |t.waits|;
    assert !stopped ==> t.waits[j] in t.waits;
  }

  method RecordTurn(store: Store, op: Op<Pair>, ops: seq<Op<Pair>>, ghost start: Db<Pair>) returns (ops': seq<Op<Pair>>)
    requires op.Record? && store.Contents() == Run(start, ops)
    modifies store
    ensures ops' == ops + [op] && store.Contents() == Run(start, ops')
  {
    var changed := store.Record(op.ts, op.lives);
    ops' := ops + [op];
    OneMore(start, ops, op);
  }

  /** One poll and, if it succeeded and an hour has passed, one purge. */
  method Pass(store: Store, t: Turn, p: int, retainDays: int, ops: seq<Op<Pair>>, lastPurge: int, ghost start: Db<Pair>)
    returns (ops': seq<Op<Pair>>, lastPurge': int)
    requires p >= 1 && store.Contents() == Run(start, ops)
    modifies store
    ensures store.Contents() == Run(start, ops')
    ensures ops' == ops + TurnOps(t, lastPurge, p, retainDays)
    ensures lastPurge' == TurnPurge(t, lastPurge)
  {
    ops', lastPurge' := ops, lastPurge;
    if t.polled.Some? {
      ops' := RecordTurn(store, Record(Floor(t.start, p), t.polled.value), ops, start);
      if t.due - lastPurge > 3600 {
        ops', lastPurge' := PurgeTurn(store, t, retainDays, ops', lastPurge, start);
      }
    }
  }

  // ----- what every run of the loop does -----

  lemma FloorBounds(t: int, p: int)
    requires t >= 0 && p >= 1
    ensures Floor(t, p) <= t < Floor(t, p) + p && Floor(t, p) % p == 0
    ensures t < Wake(t, p) <= t + p && Wake(t, p) % p == 0
  {
    DivBounds(t, p);
    DivIs(Floor(t, p), p, t / p);
    DivIs(Wake(t, p), p, t / p + 1);
  }

  /** The loop waits for the very next boundary. */
  lemma WakeIsNext(t: int, p: int, m: int)
    requires t >= 0 && p >= 1 && t < m * p
    ensures Wake(t, p) <= m * p
  {
    DivBounds(t, p);
    if m <= t / p { MulMono(m, t / p, p); }
    MulMono(t / p + 1, m, p);
  }

  /** Nothing is recorded between a time and the next poll boundary after it. */
  lemma WakeFloor(t: int, u: int, p: int)
    requires p >= 1 && Wake(t, p) <= u
    ensures Wake(t, p) <= Floor(u, p)
  {
    DivAtLeast(u, p, t / p + 1);
    MulMono(t / p + 1, u / p, p);
  }

  ghost predicate RecordsBefore(ops: seq<Op<Pair>>, b: int)
  {
    forall op :: op in ops && op.Record? ==> op.ts < b
  }

  lemma ClockPrefix(turns: seq<Turn>)
    requires Clock(turns) && turns != []
    ensures Clock(turns[..|turns| - 1])
  {
    var pre := turns[..|turns| - 1];
    assert forall t :: t in pre ==> t in turns;
  }

  /** Recorded times strictly increase, whatever fails and however long a pass takes. */
  lemma {:induction false} LoopIncreases(turns: seq<Turn>, p: int, retainDays: int)
    requires p >= 1 && Clock(turns)
    ensures var s := After(turns, p, retainDays);
            && StrictlyIncreasing(s.ops)
            && (turns == [] ==> s.ops == [])
            && (turns != [] && !s.stopped ==>
                  RecordsBefore(s.ops, Wake(turns[|turns| - 1].end, p)) && Released(turns[|turns| - 1], p))
  {
    if turns != [] {
      var pre, t := turns[..|turns| - 1], turns[|turns| - 1];
      assert t in turns;
      ClockPrefix(turns);
      LoopIncreases(pre, p, retainDays);
      var s := After(pre, p, retainDays);
      if !s.stopped {
        if pre != [] {
          var last := pre[|pre| - 1];
          assert last == turns[|turns| - 2];
          var w :| w in last.waits && w >= Wake(last.end, p);
          WakeFloor(last.end, t.start, p);
        }
        FloorMonotone(t.start, t.end, p);
        NewOps(s.ops, t, s.lastPurge, p, retainDays);
      }
    }
  }

  /** Recorded times are multiples of the period, taken from the clock; only what was polled is recorded;
      cutoffs stay `retainDays` behind the clock. */
  lemma {:induction false} LoopSources(turns: seq<Turn>, p: int, retainDays: int, op: Op<Pair>)
    requires p >= 1 && Clock(turns) && op in After(turns, p, retainDays).ops
    ensures op.Record? ==> op.ts % p == 0
    ensures op.Record? ==>
              exists t :: t in turns && t.polled == Some(op.lives) && op.ts == Floor(t.start, p) && op.ts <= t.start
    ensures !op.Record? ==> exists t :: t in turns && op.cutoff == t.at - retainDays * 86400
  {
    var pre, t := turns[..|turns| - 1], turns[|turns| - 1];
    assert t in turns;
    assert forall u :: u in pre ==> u in turns;
    ClockPrefix(turns);
    var s := After(pre, p, retainDays);
    if op in s.ops {
      LoopSources(pre, p, retainDays, op);
    } else {
      FloorBounds(t.start, p);
      assert op in TurnOps(t, s.lastPurge, p, retainDays);
    }
  }

  // ----- exactly what the loop does -----

  /** In a wait some reading of the clock falls into a later period than the end of the pass. */
  ghost predicate SeesNextPeriod(t: Turn, p: int)
    requires p >= 1
  {
    exists w :: w in t.waits && w / p > t.end / p
  }

  lemma ReleasedIs(t: Turn, p: int)
    requires p >= 1
    ensures Released(t, p) <==> SeesNextPeriod(t, p)
  {
    forall w ensures w >= Wake(t.end, p) <==> w / p > t.end / p {
      if w >= Wake(t.end, p) {
        DivAtLeast(w, p, t.end / p + 1);
      } else if w / p > t.end / p {
        DivBounds(w, p);
        MulMono(t.end / p + 1, w / p, p);
      }
    }
  }

  /** Each of the first n waits sees the next period. */
  ghost predicate GoesOn(turns: seq<Turn>, n: int, p: int)
    requires p >= 1 && n <= |turns|
  {
    forall j :: 0 <= j < n ==> SeesNextPeriod(turns[j], p)
  }

  /** The loop gets to turn i. */
  ghost predicate Reached(turns: seq<Turn>, i: int, p: int)
    requires p >= 1
  {
    0 <= i < |turns| && GoesOn(turns, i, p)
  }

  /** Turn i purges: its poll succeeded, and every purge completed before it was more than an hour ago. */
  ghost predicate Purges(turns: seq<Turn>, i: int, p: int)
    requires p >= 1
    decreases i, 0
  {
    && Reached(turns, i, p) && turns[i].polled.Some? && turns[i].due > 3600
    && forall j :: 0 <= j < i && Completes(turns, j, p) ==> turns[i].due - turns[j].done > 3600
  }

  /** And it completes the purge. */
  ghost predicate Completes(turns: seq<Turn>, i: int, p: int)
    requires p >= 1
    decreases i, 1
  {
    Purges(turns, i, p) && turns[i].committed >= 2
  }

  /** What turn i commits. */
  ghost function Commits(turns: seq<Turn>, i: int, p: int, retainDays: int): seq<Op<Pair>>
    requires p >= 1
  {
    if !Reached(turns, i, p) || turns[i].polled.None? then [] else
    Committed(turns[i], Purges(turns, i, p), p, retainDays)
  }

  /** What a turn whose poll succeeded commits. */
  function Committed(t: Turn, purges: bool, p: int, retainDays: int): seq<Op<Pair>>
    requires p >= 1 && t.polled.Some?
  {
    var c := t.at - retainDays * 86400;
    [Record(Floor(t.start, p), t.polled.value)]
    + (if purges && t.committed >= 1 then [DropSamples(c)] else [])
    + (if purges && t.committed >= 2 then [DropInfo(c)] else [])
  }

  lemma CommittedIs(t: Turn, lastPurge: int, p: int, retainDays: int)
    requires p >= 1 && t.polled.Some?
    ensures TurnOps(t, lastPurge, p, retainDays) == Committed(t, t.due - lastPurge > 3600, p, retainDays)
  {
    var c, r := t.at - retainDays * 86400, Record(Floor(t.start, p), t.polled.value);
    assert [r] + [DropSamples(c)] + [DropInfo(c)] == [r] + [DropSamples(c), DropInfo(c)];
    assert [r] + [DropSamples(c)] + [] == [r] + [DropSamples(c)] && [r] + [] + [] == [r] + [];
  }

  ghost function AllCommits(turns: seq<Turn>, n: nat, p: int, retainDays: int): seq<Op<Pair>>
    requires p >= 1
  {
    if n == 0 then [] else AllCommits(turns, n - 1, p, retainDays) + Commits(turns, n - 1, p, retainDays)
  }

  /** When the last purge before turn n completed, 0 if none did. */
  ghost function LastDone(turns: seq<Turn>, n: nat, p: int): int
    requires p >= 1 && n <= |turns|
  {
    if n == 0 then 0
    else if Completes(turns, n - 1, p) then turns[n - 1].done
    else LastDone(turns, n - 1, p)
  }

  lemma DoneGrows(turns: seq<Turn>, i: nat, j: nat)
    requires Clock(turns) && i <= j < |turns|
    ensures 0 <= turns[i].done <= turns[j].done
  {
    assert turns[i] in turns && turns[j] in turns;
    if i < j { assert turns[i].end <= turns[j].start; }
  }

  lemma {:induction false} LastDoneIs(turns: seq<Turn>, n: nat, p: int)
    requires p >= 1 && Clock(turns) && n <= |turns|
    ensures LastDone(turns, n, p) >= 0
    ensures forall j :: 0 <= j < n && Completes(turns, j, p) ==> turns[j].done <= LastDone(turns, n, p)
    ensures LastDone(turns, n, p) == 0 ||
            exists j :: 0 <= j < n && Completes(turns, j, p) && turns[j].done == LastDone(turns, n, p)
  {
    if n > 0 {
      LastDoneIs(turns, n - 1, p);
      forall j | 0 <= j < n ensures 0 <= turns[j].done <= turns[n - 1].done { DoneGrows(turns, j, n - 1); }
    }
  }

  lemma DueIsPurges(turns: seq<Turn>, i: nat, p: int)
    requires p >= 1 && Clock(turns) && Reached(turns, i, p) && turns[i].polled.Some?
    ensures Purges(turns, i, p) <==> turns[i].due - LastDone(turns, i, p) > 3600
  {
    LastDoneIs(turns, i, p);
  }

  lemma OneMoreTurn(turns: seq<Turn>, i: nat, p: int, retainDays: int)
    requires p >= 1 && i < |turns|
    ensures var s, t := After(turns[..i], p, retainDays), turns[i];
            After(turns[..i + 1], p, retainDays)
            == if s.stopped then s
               else Progress(s.ops + TurnOps(t, s.lastPurge, p, retainDays), TurnPurge(t, s.lastPurge), !Released(t, p))
  {
    assert turns[..i + 1][..i] == turns[..i];
  }

  lemma {:induction false} LoopStops(turns: seq<Turn>, n: nat, p: int, retainDays: int)
    requires p >= 1 && n <= |turns|
    ensures After(turns[..n], p, retainDays).stopped <==> !GoesOn(turns, n, p)
  {
    if n > 0 {
      LoopStops(turns, n - 1, p, retainDays);
      OneMoreTurn(turns, n - 1, p, retainDays);
      ReleasedIs(turns[n - 1], p);
      GoesOnMore(turns, n, p);
    }
  }

  lemma GoesOnMore(turns: seq<Turn>, n: nat, p: int)
    requires p >= 1 && 0 < n <= |turns|
    ensures GoesOn(turns, n, p) <==> GoesOn(turns, n - 1, p) && SeesNextPeriod(turns[n - 1], p)
  {
  }

  lemma {:induction false} LoopState(turns: seq<Turn>, n: nat, p: int, retainDays: int)
    requires p >= 1 && Clock(turns) && n <= |turns|
    ensures After(turns[..n], p, retainDays).ops == AllCommits(turns, n, p, retainDays)
    ensures After(turns[..n], p, retainDays).lastPurge == LastDone(turns, n, p)
  {
    if n > 0 {
      LoopState(turns, n - 1, p, retainDays);
      LoopStops(turns, n - 1, p, retainDays);
      OneMoreTurn(turns, n - 1, p, retainDays);
      TurnCommits(turns, n - 1, p, retainDays, After(turns[..n - 1], p, retainDays));
    }
  }

  lemma TurnCommits(turns: seq<Turn>, i: nat, p: int, retainDays: int, s: Progress)
    requires p >= 1 && Clock(turns) && i < |turns| && s.lastPurge == LastDone(turns, i, p)
    requires s.stopped <==> !GoesOn(turns, i, p)
    ensures s.ops + Commits(turns, i, p, retainDays)
         == if s.stopped then s.ops else s.ops + TurnOps(turns[i], s.lastPurge, p, retainDays)
    ensures LastDone(turns, i + 1, p) == if s.stopped then s.lastPurge else TurnPurge(turns[i], s.lastPurge)
  {
    assert s.ops + [] == s.ops;
    assert Completes(turns, i, p) <==> Purges(turns, i, p) && turns[i].committed >= 2;
    if !s.stopped && turns[i].polled.Some? {
      CommittedIs(turns[i], s.lastPurge, p, retainDays);
      DueIsPurges(turns, i, p);
    }
  }

  /** Exactly what the loop does, whatever fails: it goes on as long as its waits see the next period; every turn it
      reaches whose poll succeeds is recorded at its boundary; and it purges as soon as every completed purge is more
      than an hour old, committing what did not fail. */
  lemma LoopExactly(turns: seq<Turn>, p: int, retainDays: int)
    requires p >= 1 && Clock(turns)
    ensures var s := After(turns, p, retainDays);
            && (s.stopped <==> !GoesOn(turns, |turns|, p))
            && s.ops == AllCommits(turns, |turns|, p, retainDays)
  {
    assert turns[..|turns|] == turns;
    LoopStops(turns, |turns|, p, retainDays);
    LoopState(turns, |turns|, p, retainDays);
  }

  /** So no poll and no deletion is missing. */
  lemma NothingIsMissing(turns: seq<Turn>, i: int, p: int, retainDays: int, op: Op<Pair>)
    requires p >= 1 && Clock(turns) && Reached(turns, i, p) && turns[i].polled.Some?
    requires op in Committed(turns[i], Purges(turns, i, p), p, retainDays)
    ensures op in After(turns, p, retainDays).ops
  {
    LoopExactly(turns, p, retainDays);
    AllHasCommits(turns, |turns|, i, p, retainDays);
  }

  lemma {:induction false} AllHasCommits(turns: seq<Turn>, n: nat, i: int, p: int, retainDays: int)
    requires p >= 1 && 0 <= i < n
    ensures forall op :: op in Commits(turns, i, p, retainDays) ==> op in AllCommits(turns, n, p, retainDays)
  {
    if i < n - 1 { AllHasCommits(turns, n - 1, i, p, retainDays); }
  }

  lemma FloorMonotone(a: int, b: int, p: int)
    requires p >= 1 && 0 <= a <= b
    ensures Floor(a, p) < Wake(b, p)
  {
    FloorBounds(a, p);
    FloorBounds(b, p);
  }

  lemma NewOps(ops: seq<Op<Pair>>, t: Turn, lastPurge: int, p: int, retainDays: int)
    requires p >= 1 && StrictlyIncreasing(ops) && RecordsBefore(ops, Floor(t.start, p))
    ensures StrictlyIncreasing(ops + TurnOps(t, lastPurge, p, retainDays))
    ensures forall b :: b > Floor(t.start, p) ==> RecordsBefore(ops + TurnOps(t, lastPurge, p, retainDays), b)
  {
    var more := TurnOps(t, lastPurge, p, retainDays);
    forall i, j | 0 <= i < j < |ops + more| && (ops + more)[i].Record? && (ops + more)[j].Record?
      ensures (ops + more)[i].ts < (ops + more)[j].ts
    {
      if i < |ops| <= j { assert ops[i] in ops; }
    }
  }

  /** So on a store with no row after the first poll boundary, every run of the loop is a run of later polls, and one
      of polls that name each channel once on an older store if its polls do. */
  lemma LoopPolls(db: Db<Pair>, turns: seq<Turn>, p: int, retainDays: int)
    requires p >= 1 && Clock(turns)
    requires forall k, t :: k in db.info && t in turns ==> k.ts <= Floor(t.start, p)
    ensures var ops := After(turns, p, retainDays).ops;
            && LaterPolls(db, ops) && StrictlyIncreasing(ops)
            && ((forall k, t :: k in db.info && t in turns ==> k.ts < Floor(t.start, p)) &&
                (forall t :: t in turns && t.polled.Some? ==> Distinct(t.polled.value)) ==>
                  Polls(db, ops))
  {
    var ops := After(turns, p, retainDays).ops;
    LoopIncreases(turns, p, retainDays);
    forall op | op in ops && op.Record?
      ensures exists t :: t in turns && t.polled == Some(op.lives) && op.ts == Floor(t.start, p)
    {
      LoopSources(turns, p, retainDays, op);
    }
  }

  /** What is forgotten is older than the retention of the last pass. */
  lemma ForgottenIsStale(db: Db<Pair>, turns: seq<Turn>, p: int, retainDays: int, k: Key)
    requires p >= 1 && Clock(turns) && Forgotten(db, After(turns, p, retainDays).ops, k)
    ensures turns != [] && k.ts < turns[|turns| - 1].at - retainDays * 86400
  {
    var ops := After(turns, p, retainDays).ops;
    ForgottenIsOld(db, ops, k);
    var j :| 0 <= j < |ops| && ops[j].DropInfo? && k.ts < ops[j].cutoff;
    CutoffsBehind(turns, p, retainDays, ops[j]);
  }

  lemma CutoffsBehind(turns: seq<Turn>, p: int, retainDays: int, op: Op<Pair>)
    requires p >= 1 && Clock(turns) && op in After(turns, p, retainDays).ops && !op.Record?
    ensures turns != [] && op.cutoff <= turns[|turns| - 1].at - retainDays * 86400
  {
    LoopSources(turns, p, retainDays, op);
    var t :| t in turns && op.cutoff == t.at - retainDays * 86400;
    var i, last :| 0 <= i < |turns| && turns[i] == t && last == |turns| - 1;
    assert turns[last] in turns;
    if i < last { assert turns[i].end <= turns[last].start; }
  }

  /** Whatever the API returns, the daemon's store says, at every time, one of the things said at the last time the
      log of its polls says anything of the channel.  It says nothing only if the log says nothing, or the row was
      forgotten, and then that row is older than the retention and a newer one has replaced it. */
  lemma DaemonAnswersSomeEntry(db: Db<Pair>, turns: seq<Turn>, p: int, retainDays: int, id: string, at: int)
    requires p >= 1 && Clock(turns)
    requires forall k, t :: k in db.info && t in turns ==> k.ts <= Floor(t.start, p)
    ensures var ops := After(turns, p, retainDays).ops;
            var a, t := AsOf(Run(db, ops).info, id, at), LastSaid(db, ops, id, at);
            && (a.None? <==> t.None? || Lost(db, ops, id, at))
            && (a.Some? ==> a.value in SaidAt(db, ops, id, t.value))
            && (Lost(db, ops, id, at) ==>
                  var r := InForce(Full(db, ops).info, id, at).value;
                  && turns != [] && r.ts < turns[|turns| - 1].at - retainDays * 86400
                  && exists u :: u > r.ts && Key(id, u) in Full(db, ops).info)
  {
    var ops := After(turns, p, retainDays).ops;
    LoopPolls(db, turns, p, retainDays);
    AnswersSomeEntry(db, ops, id, at);
    if Lost(db, ops, id, at) {
      var k := Key(id, InForce(Full(db, ops).info, id, at).value.ts);
      ForgottenIsStale(db, turns, p, retainDays, k);
      ForgottenIsOld(db, ops, k);
    }
  }

  /** If no poll names a channel twice, the daemon's store answers "what was the title at `at`?" as the log of its
      own polls would, unless that was forgotten. */
  lemma DaemonAnswersTheLog(db: Db<Pair>, turns: seq<Turn>, p: int, retainDays: int, id: string, at: int)
    requires p >= 1 && Clock(turns)
    requires forall t :: t in turns && t.polled.Some? ==> Distinct(t.polled.value)
    requires forall k, t :: k in db.info && t in turns ==> k.ts < Floor(t.start, p)
    ensures var ops := After(turns, p, retainDays).ops;
            AsOf(Run(db, ops).info, id, at) == if Lost(db, ops, id, at) then None else Truth(db, ops, id, at)
  {
    var ops := After(turns, p, retainDays).ops;
    LoopPolls(db, turns, p, retainDays);
    AnswersTheLog(db, ops, id, at);
  }

  /** Each of the daemon's polls stores the number of its first entry for a channel, unless a sample was already
      there, and it stays exactly until a purge covers its time: at least as long as the retention of the last
      pass does. */
  lemma DaemonKeepsSamples(db: Db<Pair>, turns: seq<Turn>, p: int, retainDays: int, i: int, id: string)
    requires p >= 1 && Clock(turns)
    ensures var ops := After(turns, p, retainDays).ops;
            0 <= i < |ops| && ops[i].Record? && FirstEntry(ops[i].lives, id).Some?
              && Key(id, ops[i].ts) !in db.samples ==>
              var t, k := Run(db, ops).samples, Key(id, ops[i].ts);
              && (k in t <==> Spares(ops, i, k.ts))
              && (k in t ==> t[k] == FirstEntry(ops[i].lives, id).value.viewers)
              && turns != [] && (k.ts >= turns[|turns| - 1].at - retainDays * 86400 ==> k in t)
  {
    var ops := After(turns, p, retainDays).ops;
    if 0 <= i < |ops| && ops[i].Record? && FirstEntry(ops[i].lives, id).Some? && Key(id, ops[i].ts) !in db.samples {
      LoopIncreases(turns, p, retainDays);
      SampleOfPoll(db, ops, i, id);
      forall j | 0 <= j < |ops| && ops[j].DropSamples?
        ensures ops[j].cutoff <= turns[|turns| - 1].at - retainDays * 86400
      {
        CutoffsBehind(turns, p, retainDays, ops[j]);
      }
    }
  }

  // ----- retention -----

  predicate Purged(t: Turn) { t.polled.Some? && t.committed >= 2 }

  /** u completed the last purge, and no sample is older than its cutoff allows: what is older than that was
      recorded after it. */
  ghost predicate CutBy(samples: map<Key, int>, u: Turn, p: int, retainDays: int)
    requires p >= 1
  {
    forall k :: k in samples ==> k.ts >= u.at - retainDays * 86400 || k.ts >= Floor(u.start, p)
  }

  lemma {:induction false} RecordKeepsCut(db: Db<Pair>, ts: int, lives: seq<Live<Pair>>, u: Turn, p: int,
        retainDays: int)
    requires p >= 1 && CutBy(db.samples, u, p, retainDays) && ts >= Floor(u.start, p)
    ensures CutBy(RecordAll(db, ts, lives).samples, u, p, retainDays)
  {
    if lives != [] { RecordKeepsCut(db, ts, lives[..|lives| - 1], u, p, retainDays); }
  }

  /** Samples of polls not before a time are all there. */
  ghost predicate KeepsFrom(db: Db<Pair>, ops: seq<Op<Pair>>, ts: int)
  {
    forall i, l :: 0 <= i < |ops| && ops[i].Record? && l in ops[i].lives && ops[i].ts >= ts ==>
      Key(l.id, ops[i].ts) in Run(db, ops).samples
  }

  lemma LoopKeepsYoung(db: Db<Pair>, turns: seq<Turn>, p: int, retainDays: int)
    requires p >= 1 && Clock(turns) && turns != []
    ensures KeepsFrom(db, After(turns, p, retainDays).ops, turns[|turns| - 1].at - retainDays * 86400)
  {
    var ops := After(turns, p, retainDays).ops;
    forall i, l | 0 <= i < |ops| && ops[i].Record? && l in ops[i].lives
                  && ops[i].ts >= turns[|turns| - 1].at - retainDays * 86400
      ensures Key(l.id, ops[i].ts) in Run(db, ops).samples
    {
      var k := Key(l.id, ops[i].ts);
      SampleLives(db, ops, k);
      assert Sights(ops, i, k);
      forall j | 0 <= j < |ops| && i < j && ops[j].DropSamples? ensures ops[j].cutoff <= k.ts {
        CutoffsBehind(turns, p, retainDays, ops[j]);
      }
      assert Spares(ops, i, k.ts);
    }
  }

  /** Purging keeps up: after every successful pass whose own purge did not fail, some purge was completed at
      most an hour before, and nothing but newer records escapes its cutoff.  And it goes no further: every
      sample polled within the retention of the last pass is there. */
  lemma {:induction false} LoopRetains(db: Db<Pair>, turns: seq<Turn>, p: int, retainDays: int)
    requires p >= 1 && Clock(turns)
    ensures var s := After(turns, p, retainDays);
            s.lastPurge != 0 ==>
              exists u :: u in turns && Purged(u) && u.done == s.lastPurge
                          && CutBy(Run(db, s.ops).samples, u, p, retainDays)
    ensures var s := After(turns, p, retainDays);
            turns != [] && !After(turns[..|turns| - 1], p, retainDays).stopped
              && Purged(turns[|turns| - 1]) && turns[|turns| - 1].due > 3600
            ==> s.lastPurge != 0 && turns[|turns| - 1].due - s.lastPurge <= 3600
    ensures turns != [] ==> KeepsFrom(db, After(turns, p, retainDays).ops, turns[|turns| - 1].at - retainDays * 86400)
  {
    if turns != [] {
      LoopKeepsYoung(db, turns, p, retainDays);
      var pre, t := turns[..|turns| - 1], turns[|turns| - 1];
      assert t in turns;
      ClockPrefix(turns);
      LoopRetains(db, pre, p, retainDays);
      var s, s' := After(pre, p, retainDays), After(turns, p, retainDays);
      if !s.stopped && t.polled.Some? {
        var was, rec := Run(db, s.ops), Record(Floor(t.start, p), t.polled.value);
        var more := TurnOps(t, s.lastPurge, p, retainDays);
        RunConcat(db, s.ops, more);
        TurnRuns(was, t, s.lastPurge, p, retainDays);
        var recorded := RecordAll(was, rec.ts, rec.lives);
        if s'.lastPurge == s.lastPurge != 0 {
          var u :| u in pre && Purged(u) && u.done == s.lastPurge && CutBy(was.samples, u, p, retainDays);
          assert u in turns && u.start <= t.start;
          DivMono(u.start, t.start, p);
          MulMono(u.start / p, t.start / p, p);
          RecordKeepsCut(was, rec.ts, rec.lives, u, p, retainDays);
          assert CutBy(Run(db, s'.ops).samples, u, p, retainDays);
        } else if s'.lastPurge != 0 {
          assert CutBy(Run(db, s'.ops).samples, t, p, retainDays);
        }
      } else if s'.lastPurge != 0 {
        var u :| u in pre && Purged(u) && u.done == s.lastPurge && CutBy(Run(db, s.ops).samples, u, p, retainDays);
        assert s'.ops == s.ops;
        assert u in turns;
      }
    }
  }

  /** What a successful pass does to the samples. */
  lemma TurnRuns(db: Db<Pair>, t: Turn, lastPurge: int, p: int, retainDays: int)
    requires p >= 1 && t.polled.Some?
    ensures var recorded := RecordAll(db, Floor(t.start, p), t.polled.value).samples;
            Run(db, TurnOps(t, lastPurge, p, retainDays)).samples
            == if t.due - lastPurge <= 3600 || t.committed == 0 then recorded
               else SamplesFrom(recorded, t.at - retainDays * 86400)
  {
    var c, rec := t.at - retainDays * 86400, Record(Floor(t.start, p), t.polled.value);
    assert [] + [rec] == [rec];
    OneMore(db, [], rec);
    OneMore(db, [rec], DropSamples(c));
    OneMore(db, [rec] + [DropSamples(c)], DropInfo(c));
    var ops := TurnOps(t, lastPurge, p, retainDays);
    if t.due - lastPurge <= 3600 || t.committed == 0 {
      assert ops == [rec];
    } else if t.committed == 1 {
      assert ops == [rec] + [DropSamples(c)];
    } else {
      assert ops == [rec] + [DropSamples(c)] + [DropInfo(c)];
    }
  }
}
