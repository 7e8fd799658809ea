/** The client's end of the connection, and the path from a poll to a tooltip. */
module Client {
  import opened Aggregates
  import opened Daemon
  import opened Lines
  import opened Peers
  import opened Protocol
  import opened Queries
  import opened Relay
  import opened Runs
  import opened Tables

  /** Results of the client's recv: bytes, the one-second timeout, or the end of the connection. */
  datatype Arrival = Got(chunk: Bytes) | TimedOut | Ended

  /** All bytes that come in before the connection ends. */
  function Arrived(rs: seq<Arrival>): Bytes
  {
    if rs == [] || rs[0].Ended? || rs[0] == Got([]) then []
    else (if rs[0].Got? then rs[0].chunk else []) + Arrived(rs[1..])
  }

  /** The bytes of all chunks; a receive that times out brings none. */
  function Joined(rs: seq<Arrival>): Bytes
  {
    if rs == [] then [] else Joined(rs[..|rs| - 1]) + Brings(rs[|rs| - 1])
  }

  predicate IsEnd(r: Arrival) { r.Ended? || r == Got([]) }

  /** What comes in is every chunk up to the first end, and nothing after it. */
  lemma {:induction false} ArrivedIs(before: seq<Arrival>, after: seq<Arrival>)
    requires (forall r :: r in before ==> !IsEnd(r)) && (after == [] || IsEnd(after[0]))
    ensures Arrived(before + after) == Joined(before)
  {
    if before == [] {
      assert before + after == after;
    } else {
      assert before[0] in before && forall r :: r in before[1..] ==> r in before;
      assert (before + after)[0] == before[0] && (before + after)[1..] == before[1..] + after;
      ArrivedIs(before[1..], after);
      JoinedFront(before);
    }
  }

  function Brings(r: Arrival): Bytes { if r.Got? then r.chunk else [] }

  lemma {:induction false} JoinedFront(rs: seq<Arrival>)
    requires rs != []
    ensures Joined(rs) == Brings(rs[0]) + Joined(rs[1..])
  {
    if |rs| == 1 {
      assert rs[..0] == [] && rs[1..] == [] && rs[0] == rs[|rs| - 1];
      assert [] + Brings(rs[0]) == Brings(rs[0]) == Brings(rs[0]) + [];
    } else {
      var pre, tail := rs[..|rs| - 1], rs[1..];
      JoinedFront(pre);
      assert pre[1..] == tail[..|tail| - 1] && tail[|tail| - 1] == rs[|rs| - 1];
      Assoc(Brings(rs[0]), Joined(pre[1..]), Brings(rs[|rs| - 1]));
    }
  }

  class StreamClient {
    var hasSocket: bool
    var buf: Bytes
    ghost var handled: seq<Bytes>
    ghost var wire: Bytes

    constructor ()
      ensures !hasSocket && buf == [] && handled == [] && wire == []
    {
      hasSocket, buf, handled, wire := false, [], [], [];
    }

    /** Sends a line and its newline; `takes` are the results of send, not more than asked; once they are
        used up everything is taken.  False leaves the line cut off on the wire, and the socket as it was. */
    method SendLine(line: Bytes, takes: seq<int>) returns (ok: bool)
      modifies this`wire
      ensures wire == old(wire) + if hasSocket then Sends(Call(line, takes)) else []
      ensures ok <==> hasSocket && Delivered(Call(line, takes))
    {
      if !hasSocket {
        assert wire + [] == wire;
        return false;
      }
      var payload, sent, left := line + [NL], 0, takes;
      while sent < |payload|
        invariant sent <= |payload|
        invariant wire == old(wire) + payload[..sent]
        invariant sent + Out(|payload| - sent, left) == Out(|payload|, takes)
      {
        var n := if left == [] then |payload| - sent else left[0];
        left := if left == [] then [] else left[1..];
        if n <= 0 { return false; }
        var k := if n < |payload| - sent then n else |payload| - sent;
        wire := wire + payload[sent..sent + k];
        assert payload[..sent] + payload[sent..sent + k] == payload[..sent + k];
        sent := sent + k;
      }
      ok := true;
    }

    /** Appends a chunk to the buffer and handles every complete line. */
    method TakeChunk(chunk: Bytes)
      modifies this`buf, this`handled
      ensures handled == old(handled) + Handled(old(buf) + chunk)
      ensures buf == Held(old(buf) + chunk)
    {
      buf := buf + chunk;
      var p := Find(buf);
      while p < |buf|
        invariant p == First(buf)
        invariant handled + Handled(buf) == old(handled) + Handled(old(buf) + chunk)
        invariant Held(buf) == Held(old(buf) + chunk)
        decreases |buf|
      {
        var line := buf[..p];
        LineTaken(handled, buf, p, old(handled) + Handled(old(buf) + chunk));
        buf := buf[p + 1..];
        if line != [] { handled := handled + [line]; } else { assert handled + [] == handled; }
        p := Find(buf);
      }
      assert buf[..p] == buf;
      SplitPlain(buf);
    }

    method TakeMore(chunk: Bytes, ghost got: Bytes, ghost before: seq<Bytes>)
      requires handled == before + Handled(got) && buf == Held(got)
      modifies this`buf, this`handled
      ensures handled == before + Handled(got + chunk) && buf == Held(got + chunk)
    {
      Chunk(got, chunk);
      Assoc(before, Handled(got), Handled(Held(got) + chunk));
      TakeChunk(chunk);
    }

    /** One connection's receive loop, from an empty buffer: however the bytes are chunked, the lines handled
        are the non-empty lines of all that came in, and the buffer is the unfinished one. */
    method Receive(rs: seq<Arrival>)
      modifies this
      ensures handled == old(handled) + Handled(Arrived(rs))
      ensures buf == Held(Arrived(rs))
      ensures wire == old(wire) && !hasSocket
    {
      buf := [];
      var i := 0;
      ghost var got: Bytes := [];
      while i < |rs| && !rs[i].Ended? && rs[i] != Got([])
        invariant i <= |rs| && wire == old(wire)
        invariant got + Arrived(rs[i..]) == Arrived(rs)
        invariant handled == old(handled) + Handled(got) && buf == Held(got)
      {
        ArrivedStep(rs, i, got);
        if rs[i].Got? {
          TakeMore(rs[i].chunk, got, old(handled));
          got := got + rs[i].chunk;
        }
        i := i + 1;
      }
      assert got + [] == got;
      hasSocket := false;
    }
  }

  lemma ArrivedStep(rs: seq<Arrival>, i: nat, got: Bytes)
    requires i < |rs| && !rs[i].Ended? && rs[i] != Got([])
    ensures got + Arrived(rs[i..]) == got + (if rs[i].Got? then rs[i].chunk else []) + Arrived(rs[i + 1..])
  {
    assert rs[i..][1..] == rs[i + 1..];
  }

  // ----- what the client's calls put on the wire -----

  /** One call of SendLine with the results of its sends. */
  datatype Call = Call(line: Bytes, takes: seq<int>)

  /** How many of n bytes a blocking send gets out. */
  function Out(n: nat, takes: seq<int>): (k: nat)
    ensures k <= n
    decreases |takes|
  {
    if n == 0 || takes == [] then n
    else if takes[0] <= 0 then 0
    else if takes[0] >= n then n
    else takes[0] + Out(n - takes[0], takes[1..])
  }

  function Total(takes: seq<int>): int
  {
    if takes == [] then 0 else takes[0] + Total(takes[1..])
  }

  /** Exactly how much that is: as long as the sends take something, everything or all they take; what comes after one
      that takes nothing is lost. */
  lemma {:induction false} OutIs(n: nat, good: seq<int>, rest: seq<int>)
    requires (forall t :: t in good ==> t > 0) && (rest == [] || rest[0] <= 0)
    ensures Out(n, good + rest) == if rest == [] || n <= Total(good) then n else Total(good)
    ensures Total(good) >= 0
    decreases |good|
  {
    if good == [] {
      assert good + rest == rest;
    } else {
      assert good[0] in good && forall t :: t in good[1..] ==> t in good;
      assert (good + rest)[0] == good[0] && (good + rest)[1..] == good[1..] + rest;
      OutIs(if good[0] < n then n - good[0] else 0, good[1..], rest);
    }
  }

  function Sends(c: Call): Bytes { (c.line + [NL])[..Out(|c.line| + 1, c.takes)] }

  predicate Delivered(c: Call) { Out(|c.line| + 1, c.takes) == |c.line| + 1 }

  /** What a series of calls on one socket puts on the wire. */
  function OnWire(calls: seq<Call>): Bytes
  {
    if calls == [] then [] else OnWire(calls[..|calls| - 1]) + Sends(calls[|calls| - 1])
  }

  function Requests(calls: seq<Call>): seq<Bytes>
  {
    seq(|calls|, i requires 0 <= i < |calls| => calls[i].line)
  }

  /** No call but the last was cut off. */
  predicate OnlyLastCut(calls: seq<Call>)
  {
    forall i :: 0 <= i < |calls| - 1 ==> Delivered(calls[i])
  }

  /** After a call that was cut off nothing more goes out, as on a broken connection. */
  predicate MuteAfterCut(calls: seq<Call>)
  {
    forall i, j :: 0 <= i < j < |calls| && !Delivered(calls[i]) ==> Sends(calls[j]) == []
  }

  lemma OneMoreCall(calls: seq<Call>)
    requires calls != []
    ensures var pre, c := calls[..|calls| - 1], calls[|calls| - 1];
            && Requests(calls) == Requests(pre) + [c.line]
            && Frame(Requests(calls)) == Frame(Requests(pre)) + (c.line + [NL])
  {
    assert Requests(calls)[..|calls| - 1] == Requests(calls[..|calls| - 1]);
  }

  /** As long as nothing goes out after a line that was cut off, the wire holds a beginning of the framed requests. */
  lemma {:induction false} WireIsFramed(calls: seq<Call>)
    requires MuteAfterCut(calls)
    ensures OnWire(calls) <= Frame(Requests(calls))
    ensures (forall i :: 0 <= i < |calls| ==> Delivered(calls[i])) ==> OnWire(calls) == Frame(Requests(calls))
    ensures calls == [] || Delivered(calls[|calls| - 1]) ==> OnWire(calls) == Frame(Requests(calls))
  {
    if calls != [] {
      var pre, c := calls[..|calls| - 1], calls[|calls| - 1];
      WireIsFramed(pre);
      OneMoreCall(calls);
      assert calls[|calls| - 1] == c;
      if i :| 0 <= i < |pre| && !Delivered(pre[i]) {
        assert !Delivered(calls[i]) && Sends(c) == [];
        assert OnWire(calls) == OnWire(pre);
      }
    }
  }

  lemma {:induction false} WireIsShorter(calls: seq<Call>)
    ensures |OnWire(calls)| <= |Frame(Requests(calls))|
  {
    if calls != [] {
      WireIsShorter(calls[..|calls| - 1]);
      OneMoreCall(calls);
    }
  }

  /** The bytes of the framed requests that are still to come, if the wire holds a beginning of them. */
  function Owed(calls: seq<Call>): Bytes
  {
    WireIsShorter(calls);
    Frame(Requests(calls))[|OnWire(calls)|..]
  }

  /** Every call sends what comes next: the missing rest of earlier lines, then its own. */
  predicate Seamless(calls: seq<Call>)
  {
    calls == [] ||
    var pre, c := calls[..|calls| - 1], calls[|calls| - 1];
    Seamless(pre) && Sends(c) <= Owed(pre) + (c.line + [NL])
  }

  lemma Appended(a: Bytes, b: Bytes, f: Bytes, x: Bytes)
    requires |a| <= |f|
    ensures a + b <= f + x <==> a <= f && b <= f[|a|..] + x
  {
    assert (f + x)[|a|..] == f[|a|..] + x;
    assert (a + b)[..|a|] == a && (a + b)[|a|..] == b;
    if a + b <= f + x {
      assert (f + x)[..|a|] == f[..|a|];
      assert (f + x)[..|a + b|] == a + b;
      assert a == (a + b)[..|a|] == (f + x)[..|a|];
      assert b == (f + x)[..|a + b|][|a|..] == (f + x)[|a|..][..|b|];
    }
    if a <= f && b <= f[|a|..] + x {
      assert f + x == f[..|a|] + (f[|a|..] + x);
    }
  }

  /** For every series of calls, whatever the sends take: the wire holds a beginning of the framed requests exactly
      when every call is seamless. */
  lemma {:induction false} WireExact(calls: seq<Call>)
    ensures OnWire(calls) <= Frame(Requests(calls)) <==> Seamless(calls)
  {
    if calls != [] {
      var pre, c := calls[..|calls| - 1], calls[|calls| - 1];
      WireExact(pre);
      OneMoreCall(calls);
      WireIsShorter(pre);
      Appended(OnWire(pre), Sends(c), Frame(Requests(pre)), c.line + [NL]);
    }
  }

  /** What is owed after whole lines and one that may be cut off: its rest. */
  lemma OwedRest(pre: seq<Call>, cut: Call)
    requires OnlyLastCut(pre + [cut])
    ensures Seamless(pre + [cut]) && Owed(pre + [cut]) == (cut.line + [NL])[|Sends(cut)|..]
  {
    var most, f, x := pre + [cut], Frame(Requests(pre)), cut.line + [NL];
    assert most[..|most| - 1] == pre;
    forall i | 0 <= i < |pre| ensures Delivered(pre[i]) { assert most[i] == pre[i]; }
    WireIsFramed(pre);
    WireIsFramed(most);
    WireExact(most);
    OneMoreCall(most);
    assert (f + x)[|f| + |Sends(cut)|..] == x[|Sends(cut)|..];
  }

  /** After a line of which a part was cut off, a line whose first byte does not occur in that part breaks the order
      exactly when anything of it goes out. */
  lemma AfterACut(pre: seq<Call>, cut: Call, c: Call)
    requires OnlyLastCut(pre + [cut]) && 0 < |Sends(cut)| <= |cut.line|
    requires c.line != [] && c.line[0] !in cut.line[1..] + [NL]
    ensures OnWire(pre + [cut, c]) <= Frame(Requests(pre + [cut, c])) <==> Sends(c) == []
  {
    var all, most := pre + [cut, c], pre + [cut];
    assert all[..|all| - 1] == most;
    OwedRest(pre, cut);
    OtherStart(cut.line, |Sends(cut)|, c);
    WireExact(all);
  }

  lemma OtherStart(line: Bytes, k: nat, c: Call)
    requires 0 < k <= |line| && c.line != [] && c.line[0] !in line[1..] + [NL]
    ensures Sends(c) <= (line + [NL])[k..] + (c.line + [NL]) <==> Sends(c) == []
  {
    var owed := (line + [NL])[k..] + (c.line + [NL]);
    assert owed[0] == (line[1..] + [NL])[k - 1];
    if Sends(c) != [] { assert Sends(c)[0] == c.line[0]; }
  }

  /** The calls of which anything goes out.  One of which nothing does leaves no trace but a lost request. */
  function Started(calls: seq<Call>): (r: seq<Call>)
    ensures forall c :: c in r ==> c in calls && Sends(c) != []
  {
    if calls == [] then [] else
    var c := calls[|calls| - 1];
    Started(calls[..|calls| - 1]) + if Sends(c) == [] then [] else [c]
  }

  lemma {:induction false} StartedWire(calls: seq<Call>)
    ensures OnWire(Started(calls)) == OnWire(calls)
  {
    if calls != [] {
      var pre, c := calls[..|calls| - 1], calls[|calls| - 1];
      StartedWire(pre);
      if Sends(c) != [] {
        assert Started(calls)[..|Started(calls)| - 1] == Started(pre);
      } else {
        assert Started(calls) == Started(pre);
      }
    }
  }

  /** A line that opens with a byte found nowhere else in it, as a JSON object without inner braces does. */
  predicate Opens(line: Bytes, b: Byte)
  {
    line != [] && line[0] == b && b !in line[1..]
  }

  /** For a series of such lines: what goes out is a beginning of the framed requests exactly when none that was cut
      off is followed by one of which anything goes out. */
  lemma SeriesExact(calls: seq<Call>, b: Byte)
    requires b != NL && forall c :: c in calls ==> Opens(c.line, b)
    ensures OnWire(calls) <= Frame(Requests(Started(calls))) <==> OnlyLastCut(Started(calls))
  {
    StartedWire(calls);
    forall i | 0 <= i < |Started(calls)| ensures Opens(Started(calls)[i].line, b) && Sends(Started(calls)[i]) != [] {
      assert Started(calls)[i] in Started(calls);
    }
    StartedExact(Started(calls), b);
  }

  lemma {:induction false} StartedExact(calls: seq<Call>, b: Byte)
    requires b != NL && forall i :: 0 <= i < |calls| ==> Opens(calls[i].line, b) && Sends(calls[i]) != []
    ensures OnWire(calls) <= Frame(Requests(calls)) <==> OnlyLastCut(calls)
  {
    if OnlyLastCut(calls) {
      WireIsFramed(calls);
    } else if OnWire(calls) <= Frame(Requests(calls)) {
      WireExact(calls);
      WireExact(calls[..|calls| - 1]);
      StartedExact(calls[..|calls| - 1], b);
      NoMoreCut(calls, b);
    }
  }

  lemma NoMoreCut(calls: seq<Call>, b: Byte)
    requires b != NL && forall i :: 0 <= i < |calls| ==> Opens(calls[i].line, b) && Sends(calls[i]) != []
    requires |calls| >= 2 && OnlyLastCut(calls[..|calls| - 1]) && OnWire(calls) <= Frame(Requests(calls))
    ensures OnlyLastCut(calls)
  {
    LastTwo(calls);
    NothingCut(calls[..|calls| - 2], calls[|calls| - 2], calls[|calls| - 1], b);
    AllButLast(calls);
  }

  lemma LastTwo<T>(s: seq<T>)
    requires |s| >= 2
    ensures s[..|s| - 1] == s[..|s| - 2] + [s[|s| - 2]]
    ensures s == s[..|s| - 2] + [s[|s| - 2], s[|s| - 1]]
  {
  }

  lemma AllButLast(calls: seq<Call>)
    requires |calls| >= 2 && OnlyLastCut(calls[..|calls| - 1]) && Delivered(calls[|calls| - 2])
    ensures OnlyLastCut(calls)
  {
    forall i | 0 <= i < |calls| - 1 ensures Delivered(calls[i]) {
      if i < |calls| - 2 { assert Delivered(calls[..|calls| - 1][i]); }
    }
  }

  lemma NothingCut(pre: seq<Call>, cut: Call, c: Call, b: Byte)
    requires b != NL && Opens(cut.line, b) && Opens(c.line, b) && Sends(cut) != [] && Sends(c) != []
    requires OnlyLastCut(pre + [cut]) && OnWire(pre + [cut, c]) <= Frame(Requests(pre + [cut, c]))
    ensures Delivered(cut)
  {
    if |Sends(cut)| <= |cut.line| { AfterACut(pre, cut, c); }
  }

  /** A line sent whole after one that was cut off after k bytes is glued to it, and the relay handles the two as one
      line; for k = 0 that is the second line, and the first is lost.  The wire is a beginning of the framed requests
      exactly when the second line happens to be the missing rest of the first. */
  lemma GluedLine(line: Bytes, next: Bytes, k: nat)
    requires Framable(line) && Framable(next) && k <= |line|
    ensures var calls := [Call(line, [k, 0]), Call(next, [])];
            && OnWire(calls) == line[..k] + next + [NL]
            && Handled(OnWire(calls)) == [line[..k] + next]
            && (OnWire(calls) <= Frame(Requests(calls)) <==> next == line[k..])
  {
    var calls, glued := [Call(line, [k, 0]), Call(next, [])], line[..k] + next;
    WireOfTwo(line, next, k);
    OneFrame(glued);
    FramesOfTwo(line, next);
    assert Requests(calls) == [line, next];
    if glued + [NL] <= Frame([line, next]) {
      PrefixOfFrames([line, next], glued + [NL]);
      assert [glued][0] == [line, next][0];
    }
    if next == line[k..] { assert glued == line; }
  }

  lemma WireOfTwo(line: Bytes, next: Bytes, k: nat)
    requires k <= |line|
    ensures OnWire([Call(line, [k, 0]), Call(next, [])]) == line[..k] + next + [NL]
  {
    var a, c := Call(line, [k, 0]), Call(next, []);
    assert [a, c][..1] == [a] && [a][..0] == [];
    assert [k, 0][1..] == [0];
    assert Out(|line| + 1, [k, 0]) == k && Out(|next| + 1, []) == |next| + 1;
    assert Sends(a) == line[..k] && Sends(c) == next + [NL];
    assert OnWire([a]) == [] + Sends(a) == line[..k];
    assert OnWire([a, c]) == line[..k] + (next + [NL]) == line[..k] + next + [NL];
  }

  lemma FramesOfTwo(a: Bytes, b: Bytes)
    ensures Frame([a, b]) == a + [NL] + b + [NL]
  {
    assert [a, b][..1] == [a] && [a][..0] == [];
    assert Frame([a]) == [] + a + [NL] == a + [NL];
  }

  // ----- what the client makes of a samples answer -----

  predicate IsInt32(v: int) { -0x8000_0000 <= v < 0x8000_0000 }

  /** The points whose number fits 32 bits: the server writes 64-bit numbers, the client reads 32-bit ones. */
  function Fitting(points: seq<Row<int>>): seq<Row<int>>
  {
    if points == [] then [] else
    Fitting(points[..|points| - 1]) + if IsInt32(points[|points| - 1].pair) then [points[|points| - 1]] else []
  }

  method ReadPoints(points: seq<Row<int>>) returns (out: seq<Row<int>>)
    ensures out == Fitting(points)
  {
    out := [];
    for i := 0 to |points|
      invariant out == Fitting(points[..i])
    {
      assert points[..i + 1][..i] == points[..i];
      if IsInt32(points[i].pair) { out := out + [points[i]]; }
    }
    assert points[..|points|] == points;
  }

  /** The client draws what the server sent exactly when every number fits 32 bits. */
  lemma {:induction false} FittingIsAll(points: seq<Row<int>>)
    ensures |Fitting(points)| <= |points|
    ensures Fitting(points) == points <==> forall i :: 0 <= i < |points| ==> IsInt32(points[i].pair)
    ensures forall p :: p in Fitting(points) <==> p in points && IsInt32(p.pair)
  {
    if points != [] {
      var pre, last := points[..|points| - 1], points[|points| - 1];
      FittingIsAll(pre);
      assert points == pre + [last];
      assert forall p :: p in points <==> p in pre || p == last;
      if Fitting(points) == points { assert Fitting(points)[..|pre|] == pre; }
    }
  }

  /** Points in time order stay so. */
  lemma {:induction false} FittingAscends(points: seq<Row<int>>)
    requires Ascending(points)
    ensures Ascending(Fitting(points))
  {
    if points != [] {
      var pre := points[..|points| - 1];
      FittingAscends(pre);
      FittingIsAll(pre);
      assert forall p :: p in pre ==> p.ts < points[|points| - 1].ts;
    }
  }

  /** The k-th reply a client handles answers its k-th request. */
  lemma KthReply(l: Log, w: Wire, requests: seq<Bytes>, arrived: Bytes, n: nat, k: nat)
    requires Writes(w) && InOrder(l, w)
    requires forall j :: 0 <= j < |requests| ==> Framable(requests[j])
    requires l.received <= Frame(requests) && arrived <= l.sent
    requires n <= |l.msgs| && Handled(arrived) == Texts(w, l.msgs[..n])
    requires k < |Replies(l.msgs[..n])|
    ensures k < |l.handled| && k < |requests|
    ensures Replies(l.msgs[..n])[k]
         == Respond(w.parse(requests[k]), l.handled[k].env, l.handled[k].clients, w.retainDays)
  {
    var n' := EndToEnd(l, w, requests, arrived);
    assert |Texts(w, l.msgs[..n])| == n && |Texts(w, l.msgs[..n'])| == n';
  }

  /** What a window answer says of a run: its points are in time order as the client keeps them; a point kept is the
      number of the first entry for the channel in some poll at its time; the text shown at it was said at that very
      time (by that very poll, if it was alone; the one of its entry, if it named the channel once), and there is
      none exactly when that was forgotten. */
  ghost predicate Tells(m: Msg, db: Db<Pair>, ops: seq<Op<Pair>>, p: Row<int>, i: int, live: Live<Pair>)
    requires m.Window?
  {
    && Ascending(Fitting(m.points))
    && 0 <= i < |ops| && ops[i].Record? && ops[i].ts == p.ts && FirstEntry(ops[i].lives, m.channel) == Some(live)
    && live.viewers == p.pair
    && var c := LastUpTo(m.info, p.ts);
       && (c.None? <==> Lost(db, ops, m.channel, p.ts))
       && (c.Some? ==> c.value.pair in SaidAt(db, ops, m.channel, p.ts))
       && (c.Some? && Alone(ops, i) && Key(m.channel, p.ts) !in db.info ==>
             && c.value.pair in SeenPairs(ops[i].lives, m.channel)
             && (Distinct(ops[i].lives) ==> c.value.pair == live.pair))
  }

  /** The points are read from what the first a operations of a run left, the changes from what all of them did. */
  ghost predicate Reads(e: Env, db: Db<Pair>, ops: seq<Op<Pair>>, a: nat)
  {
    a <= |ops| && e.db == Run(db, ops[..a]) && e.later == Run(db, ops)
  }

  /** Any window read during a run. */
  lemma WindowTellsItsPolls(db: Db<Pair>, ops: seq<Op<Pair>>, a: nat, d: Doc, e: Env, clients: nat, retainDays: int,
        p: Row<int>) returns (i: int, live: Live<Pair>)
    requires Respond(d, e, clients, retainDays).Window? && Reads(e, db, ops, a) && LaterPolls(db, ops)
    requires p in Fitting(Respond(d, e, clients, retainDays).points)
    requires Key(Respond(d, e, clients, retainDays).channel, p.ts) !in db.samples
    ensures Tells(Respond(d, e, clients, retainDays), db, ops, p, i, live)
  {
    var m := Respond(d, e, clients, retainDays);
    PointsAreTheWindow(e.db.samples, m.channel, m.from, m.to, p);
    FittingIsAll(m.points);
    FittingAscends(m.points);
    i, live := TooltipTellsItsPoll(db, ops, a, m.channel, m.from, m.to, p);
  }

  const START := State(map[], {}, false, 0)

  /** One connection in a whole life of the relay, and the client at its other end, whose calls are seamless.  TCP
      delivers to each side a beginning of what the other side sent. */
  ghost predicate Session(l: Log, w: Wire, batches: seq<seq<Event>>, byes: int -> seq<Sent>, calls: seq<Call>,
                          arrived: Bytes)
  {
    && Writes(w) && AllOnTime(START, ServedEvents(START, batches, w), w)
    && l in Shutdown(Batches(START, batches, w), byes, w)
    && Seamless(Started(calls)) && (forall c :: c in calls ==> Framable(c.line))
    && l.received <= OnWire(calls) && arrived <= l.sent
  }

  lemma SessionInOrder(l: Log, w: Wire, batches: seq<seq<Event>>, byes: int -> seq<Sent>, calls: seq<Call>,
                       arrived: Bytes)
    requires Session(l, w, batches, byes, calls, arrived)
    ensures InOrder(l, w) && l.received <= Frame(Requests(Started(calls)))
    ensures forall j :: 0 <= j < |Started(calls)| ==> Framable(Started(calls)[j].line)
  {
    LifeInOrder(batches, byes, w);
    StartedWire(calls);
    WireExact(Started(calls));
    forall j | 0 <= j < |Started(calls)| ensures Framable(Started(calls)[j].line) {
      assert Started(calls)[j] in Started(calls);
    }
  }

  /** From the API to the screen.  A daemon writes a store by any run of polls and purges; a relay serves
      requests from it while the daemon runs, over a connection split in any way; a client draws what comes back.  If
      the k-th reply the client handles is a window, it answers the k-th request of which anything went out, and tells
      of the run up to its second read. */
  lemma FromPollToTooltip(db: Db<Pair>, ops: seq<Op<Pair>>, a: nat, l: Log, w: Wire, batches: seq<seq<Event>>,
        byes: int -> seq<Sent>, calls: seq<Call>, arrived: Bytes, n: nat, k: nat, p: Row<int>)
    returns (i: int, live: Live<Pair>)
    requires Session(l, w, batches, byes, calls, arrived)
    requires n <= |l.msgs| && Handled(arrived) == Texts(w, l.msgs[..n])
    requires k < |Replies(l.msgs[..n])| && Replies(l.msgs[..n])[k].Window?
    requires k < |l.handled| ==> Reads(l.handled[k].env, db, ops, a)
    requires LaterPolls(db, ops)
    requires p in Fitting(Replies(l.msgs[..n])[k].points) && Key(Replies(l.msgs[..n])[k].channel, p.ts) !in db.samples
    ensures k < |Started(calls)| && w.parse(Started(calls)[k].line).Request?
    ensures var m, d := Replies(l.msgs[..n])[k], w.parse(Started(calls)[k].line);
            && m.id == d.id && d.channelId == Some(m.channel)
            && Tells(m, db, ops, p, i, live)
  {
    SessionInOrder(l, w, batches, byes, calls, arrived);
    KthReply(l, w, Requests(Started(calls)), arrived, n, k);
    i, live := WindowTellsItsPolls(db, ops, a, w.parse(Started(calls)[k].line), l.handled[k].env,
                                   l.handled[k].clients, w.retainDays, p);
  }

  /** And when the store is the collector's own: the point is the number one of its passes polled, at the poll
      boundary of that pass's clock, and the text is what that pass polled; there is none exactly when that was
      forgotten. */
  lemma FromDaemonToTooltip(turns: seq<Turn>, period: int, retainDays: int, a: nat, l: Log, w: Wire,
        batches: seq<seq<Event>>, byes: int -> seq<Sent>, calls: seq<Call>, arrived: Bytes, n: nat, k: nat,
        p: Row<int>) returns (t: Turn, live: Live<Pair>)
    requires period >= 1 && Clock(turns) && Session(l, w, batches, byes, calls, arrived)
    requires n <= |l.msgs| && Handled(arrived) == Texts(w, l.msgs[..n])
    requires k < |Replies(l.msgs[..n])| && Replies(l.msgs[..n])[k].Window?
    requires k < |l.handled| ==>
               Reads(l.handled[k].env, Db(map[], map[], map[]), After(turns, period, retainDays).ops, a)
    requires p in Fitting(Replies(l.msgs[..n])[k].points)
    ensures var m := Replies(l.msgs[..n])[k];
            && t in turns && t.polled.Some? && FirstEntry(t.polled.value, m.channel) == Some(live)
            && p == Row(Floor(t.start, period), live.viewers)
            && var c := LastUpTo(m.info, p.ts);
               && (c.None? <==> Lost(Db(map[], map[], map[]), After(turns, period, retainDays).ops, m.channel, p.ts))
               && (c.Some? ==> c.value.pair in SeenPairs(t.polled.value, m.channel))
               && (c.Some? && Distinct(t.polled.value) ==> c.value.pair == live.pair)
  {
    var db: Db<Pair> := Db(map[], map[], map[]);
    var ops := After(turns, period, retainDays).ops;
    LoopPolls(db, turns, period, retainDays);
    var i;
    i, live := FromPollToTooltip(db, ops, a, l, w, batches, byes, calls, arrived, n, k, p);
    assert Alone(ops, i);
    LoopSources(turns, period, retainDays, ops[i]);
    t :| t in turns && t.polled == Some(ops[i].lives) && ops[i].ts == Floor(t.start, period);
  }

  lemma ReplyAnswers(l: Log, w: Wire, k: nat)
    requires InOrder(l, w) && k < |Replies(l.msgs)|
    ensures k < |l.handled|
    ensures Replies(l.msgs)[k]
         == Respond(w.parse(l.handled[k].line), l.handled[k].env, l.handled[k].clients, w.retainDays)
  {
  }

  lemma ListMakesSense(db: Db<Pair>, ops: seq<Op<Pair>>, from: int, d: Doc, e: Env, clients: nat, retainDays: int,
        r: ChannelAnswer)
    requires Respond(d, e, clients, retainDays).ChannelList? && r in Respond(d, e, clients, retainDays).rows
    requires Honest(e) && e.db == Run(db, ops) && Sound(db, from) && Nondecreasing(ops, from)
    ensures d.Request? && d.kind == "channels" && r.samples >= 1 && r.firstSeen <= r.lastSeen && r.current <= r.peak
  {
    ChannelsMakeSense(db, ops, from, e.now, e.rows, r);
  }

  /** The same for the channel list: if the k-th reply is one, read by SQLite from a store that a run with
      nondecreasing poll times left, every row in it makes sense. */
  lemma ChannelListMakesSense(db: Db<Pair>, ops: seq<Op<Pair>>, from: int, l: Log, w: Wire, k: nat, r: ChannelAnswer)
    requires InOrder(l, w) && k < |Replies(l.msgs)| && Replies(l.msgs)[k].ChannelList? && r in Replies(l.msgs)[k].rows
    requires k < |l.handled| ==> Honest(l.handled[k].env) && l.handled[k].env.db == Run(db, ops)
    requires Sound(db, from) && Nondecreasing(ops, from)
    ensures w.parse(l.handled[k].line).Request? && w.parse(l.handled[k].line).kind == "channels"
    ensures r.samples >= 1 && r.firstSeen <= r.lastSeen && r.current <= r.peak
  {
    ReplyAnswers(l, w, k);
    ListMakesSense(db, ops, from, w.parse(l.handled[k].line), l.handled[k].env, l.handled[k].clients, w.retainDays, r);
  }
}
