/** The messages of the relay, the answer to each request line, and what the two ends of a connection
    have seen of each other. */
module Protocol {
  import opened Aggregates
  import opened Lines
  import opened Queries
  import opened Tables

  const PROTO_V := 1
  const MAX_RANGE := 30 * DAY

  /** A parsed request line.  A member that is absent or of the wrong type is None; a type that is not a
      string reads as "". */
  datatype Doc =
    | NotAnObject
    | Request(kind: string, id: Option<string>, channelId: Option<string>, to: Option<int>, from: Option<int>)

  datatype Msg =
    | Ping
    | Bye
    | Hello(id: Option<string>, v: int, now: int, retainDays: int)
    | ChannelList(id: Option<string>, rows: seq<ChannelAnswer>)
    | Window(id: Option<string>, channel: string, from: int, to: int, points: seq<Row<int>>, info: seq<Row<Pair>>)
    | Stats(id: Option<string>, clients: nat, samples: nat, oldest: Option<int>, newest: Option<int>, channels: nat)
    | Error(id: Option<string>, code: string, message: string)

  /** What a request finds when it is handled: the clock, the database, and the rows SQLite gives for the
      channels query (it alone decides the order of ties).  A samples request runs two statements, and the collector
      may commit between them: the points are read from `db`, the changes from `later`. */
  datatype Env = Env(now: int, db: Db<Pair>, later: Db<Pair>, rows: seq<ChannelAnswer>)

  ghost predicate Honest(e: Env)
  {
    IsChannelsAnswer(e.db, e.now - WEEK, e.rows)
  }

  /** JSON itself: the writer and the parser are given; a written text is not empty and has no raw
      newline (section 7 of RFC 8259). */
  datatype Wire = Wire(encode: Msg -> Bytes, parse: Bytes -> Doc, retainDays: int)

  ghost predicate Writes(w: Wire)
  {
    forall m :: Framable(w.encode(m))
  }

  /** The window of a samples request: `to` defaults to now, `from` to a day before it; only positive
      values count as given; None if the window is rejected. */
  function WindowOf(d: Doc, now: int): (r: Option<(int, int)>)
    requires d.Request?
    ensures r.Some? ==> 0 <= r.value.1 - r.value.0 <= MAX_RANGE
    ensures r.Some? && d.to.Some? && d.to.value > 0 ==> r.value.1 == d.to.value
    ensures r.Some? && d.from.Some? && d.from.value > 0 ==> r.value.0 == d.from.value
    ensures d.to.None? && d.from.None? ==> r == Some((now - DAY, now))
  {
    var to := if d.to.Some? && d.to.value > 0 then d.to.value else now;
    var from := if d.from.Some? && d.from.value > 0 then d.from.value else to - DAY;
    if from > to || to - from > MAX_RANGE then None else Some((from, to))
  }

  /** The answer to one request: exactly one message, with the id of its request and of the request's
      type, or an error. */
  function Respond(d: Doc, e: Env, clients: nat, retainDays: int): (m: Msg)
    ensures IsReply(m)
    ensures m.id == if d.Request? then d.id else None
    ensures m.Error? && m.code == "bad_json" <==> d.NotAnObject?
    ensures d.Request? ==> (m.Hello? <==> d.kind == "hello")
    ensures d.Request? ==> (m.ChannelList? <==> d.kind == "channels")
    ensures d.Request? ==> (m.Stats? <==> d.kind == "stats")
    ensures d.Request? ==> (m.Error? && m.code == "bad_arg" <==> d.kind == "samples" && !m.Window?)
    ensures d.Request? ==> (m == Error(d.id, "unknown_type", "type=" + d.kind)
                            <==> d.kind !in {"hello", "channels", "samples", "stats"})
    ensures m.Hello? ==> m == Hello(d.id, PROTO_V, e.now, retainDays)
    ensures m.Window? <==> d.Request? && d.kind == "samples" && d.channelId.Some? && d.channelId.value != ""
                           && WindowOf(d, e.now).Some?
    ensures m.Window? ==> d.channelId == Some(m.channel) && WindowOf(d, e.now) == Some((m.from, m.to))
  {
    if d.NotAnObject? then Error(None, "bad_json", "JSON 객체가 아님")
    else if d.kind == "hello" then Hello(d.id, PROTO_V, e.now, retainDays)
    else if d.kind == "channels" then ChannelList(d.id, e.rows)
    else if d.kind == "samples" then
      if d.channelId.None? || d.channelId.value == "" then Error(d.id, "bad_arg", "channel_id 필요") else
      match WindowOf(d, e.now)
      case None => Error(d.id, "bad_arg", "구간은 0~30일")
      case Some((from, to)) =>
        Window(d.id, d.channelId.value, from, to,
               Points(e.db.samples, d.channelId.value, from, to), InfoAnswer(e.later.info, d.channelId.value, from, to))
    else if d.kind == "stats" then
      var times := TimesOf(e.db.samples.Keys);
      Stats(d.id, clients, |e.db.samples|, MinOf(times), MaxOf(times), |e.db.channels|)
    else Error(d.id, "unknown_type", "type=" + d.kind)
  }

  predicate IsReply(m: Msg) { !m.Ping? && !m.Bye? }

  method ReadWindow(d: Doc, now: int) returns (window: Option<(int, int)>)
    requires d.Request?
    ensures window == WindowOf(d, now)
  {
    var to := now;
    if d.to.Some? && d.to.value > 0 { to := d.to.value; }
    var from := to - DAY;
    if d.from.Some? && d.from.value > 0 { from := d.from.value; }
    window := if from > to || to - from > MAX_RANGE then None else Some((from, to));
  }

  method AnswerSamples(d: Doc, e: Env, ghost clients: nat, ghost retainDays: int) returns (m: Msg)
    requires d.Request? && d.kind == "samples"
    ensures m == Respond(d, e, clients, retainDays)
  {
    if d.channelId.None? || d.channelId.value == "" { return Error(d.id, "bad_arg", "channel_id 필요"); }
    var window := ReadWindow(d, e.now);
    if window.None? { return Error(d.id, "bad_arg", "구간은 0~30일"); }
    var (from, to) := window.value;
    var points, changes := Samples(e.db.samples, e.later.info, d.channelId.value, from, to);
    m := Window(d.id, d.channelId.value, from, to, points, changes);
  }

  /** The handler, querying the tables. */
  method Answer(d: Doc, e: Env, clients: nat, retainDays: int) returns (m: Msg)
    ensures m == Respond(d, e, clients, retainDays)
  {
    if d.NotAnObject? { return Error(None, "bad_json", "JSON 객체가 아님"); }
    if d.kind == "hello" {
      m := Hello(d.id, PROTO_V, e.now, retainDays);
    } else if d.kind == "channels" {
      m := ChannelList(d.id, e.rows);
    } else if d.kind == "samples" {
      m := AnswerSamples(d, e, clients, retainDays);
    } else if d.kind == "stats" {
      var n, oldest, newest, channels := Totals(e.db);
      m := Stats(d.id, clients, n, oldest, newest, channels);
    } else {
      m := Error(d.id, "unknown_type", "type=" + d.kind);
    }
  }

  /** The number of samples and channels, and the least and greatest times of the samples. */
  ghost predicate Counts(m: Msg, db: Db<Pair>, clients: nat)
    requires m.Stats?
  {
    && m.clients == clients && m.samples == |db.samples| && m.channels == |db.channels|
    && (m.oldest.None? <==> db.samples == map[]) && (m.newest.None? <==> db.samples == map[])
    && (forall k :: k in db.samples ==> m.oldest.value <= k.ts <= m.newest.value)
    && (m.oldest.Some? ==> exists k :: k in db.samples && k.ts == m.oldest.value)
    && (m.newest.Some? ==> exists k :: k in db.samples && k.ts == m.newest.value)
  }

  /** What the answers say.  A window holds exactly the channel's samples in it, in time order, and its changes
      tell, at every time in it, what the database tells when they are read.  A channel list holds, up to the
      order of ties, the rows that the channels query computes.  Statistics give the number of samples and the least
      and greatest of their times, which are those of some samples. */
  lemma AnswersAreComplete(d: Doc, e: Env, clients: nat, retainDays: int, p: Row<int>, at: int,
        rows: seq<ChannelAnswer>)
    requires Honest(e) && IsChannelsAnswer(e.db, e.now - WEEK, rows)
    ensures var m := Respond(d, e, clients, retainDays);
            && (m.Window? ==>
                  && Ascending(m.points)
                  && (p in m.points <==> m.from <= p.ts <= m.to && Key(m.channel, p.ts) in e.db.samples
                                         && e.db.samples[Key(m.channel, p.ts)] == p.pair)
                  && (m.from <= at <= m.to ==> LastUpTo(m.info, at) == InForce(e.later.info, m.channel, at)))
            && (m.ChannelList? ==> SameUpToTies(m.rows, rows))
            && (m.Stats? ==> Counts(m, e.db, clients))
  {
    var m := Respond(d, e, clients, retainDays);
    if m.Window? {
      PointsAreTheWindow(e.db.samples, m.channel, m.from, m.to, p);
      if m.from <= at <= m.to { WindowSeesWhatApplies(e.later.info, m.channel, m.from, m.to, at); }
    } else if m.ChannelList? {
      AnswersDifferInTies(e.db, e.now - WEEK, m.rows, rows);
    } else if m.Stats? {
      StatsCount(d, e, clients, retainDays);
    }
  }

  lemma StatsCount(d: Doc, e: Env, clients: nat, retainDays: int)
    requires Respond(d, e, clients, retainDays).Stats?
    ensures Counts(Respond(d, e, clients, retainDays), e.db, clients)
  {
    var keys := e.db.samples.Keys;
    assert forall k :: k in e.db.samples ==> k.ts in TimesOf(keys);
    if e.db.samples != map[] {
      var k :| k in e.db.samples;
      assert k.ts in TimesOf(keys);
    }
  }

  // ----- logs -----

  /** One handled line and what it found. */
  datatype Handling = Handling(line: Bytes, env: Env, clients: nat)

  /** Everything that happened on one connection, at the server. */
  datatype Log = Log(received: Bytes, handled: seq<Handling>, msgs: seq<Msg>, sent: Bytes)

  function Texts(w: Wire, msgs: seq<Msg>): seq<Bytes>
  {
    seq(|msgs|, i requires 0 <= i < |msgs| => w.encode(msgs[i]))
  }

  function LinesOf(hs: seq<Handling>): seq<Bytes>
  {
    seq(|hs|, i requires 0 <= i < |hs| => hs[i].line)
  }

  function Responses(w: Wire, hs: seq<Handling>): seq<Msg>
  {
    seq(|hs|, i requires 0 <= i < |hs| => Respond(w.parse(hs[i].line), hs[i].env, hs[i].clients, w.retainDays))
  }

  predicate SaysHello(d: Doc) { d.Request? && d.kind == "hello" }

  /** Some handled line says hello. */
  predicate SaidHello(w: Wire, hs: seq<Handling>)
  {
    exists i :: 0 <= i < |hs| && SaysHello(w.parse(hs[i].line))
  }

  /** The messages that are neither ping nor bye. */
  function Replies(msgs: seq<Msg>): seq<Msg>
  {
    if msgs == [] then [] else
    Replies(msgs[..|msgs| - 1]) + if IsReply(msgs[|msgs| - 1]) then [msgs[|msgs| - 1]] else []
  }

  function Pings(msgs: seq<Msg>): nat
  {
    if msgs == [] then 0 else Pings(msgs[..|msgs| - 1]) + if msgs[|msgs| - 1].Ping? then 1 else 0
  }

  /** A connection's log is in order: what was sent is a beginning of the framed messages, the replies
      answer the handled lines one for one, and those are the first lines of what was received. */
  ghost predicate InOrder(l: Log, w: Wire)
  {
    && l.sent <= Frame(Texts(w, l.msgs))
    && Replies(l.msgs) == Responses(w, l.handled)
    && LinesOf(l.handled) <= Handled(l.received)
  }

  lemma {:induction false} RepliesPrefix(msgs: seq<Msg>, n: nat)
    requires n <= |msgs|
    ensures Replies(msgs[..n]) <= Replies(msgs)
  {
    if n == |msgs| {
      assert msgs[..n] == msgs;
    } else {
      RepliesPrefix(msgs[..|msgs| - 1], n);
      assert msgs[..|msgs| - 1][..n] == msgs[..n];
    }
  }

  /** For every splitting of the two byte streams: what a client handles is, unsplit and in order, the
      first messages the server enqueued, and the k-th reply among them answers the client's k-th line.
      (TCP delivers to each side a beginning of what the other side sent.) */
  lemma EndToEnd(l: Log, w: Wire, requests: seq<Bytes>, arrived: Bytes) returns (n: nat)
    requires Writes(w) && InOrder(l, w)
    requires forall i :: 0 <= i < |requests| ==> Framable(requests[i])
    requires l.received <= Frame(requests) && arrived <= l.sent
    ensures n <= |l.msgs| && Handled(arrived) == Texts(w, l.msgs[..n])
    ensures var replies := Replies(l.msgs[..n]);
            && |replies| <= |l.handled| && |l.handled| <= |requests|
            && forall k :: 0 <= k < |replies| ==>
                 && l.handled[k].line == requests[k]
                 && replies[k] == Respond(w.parse(requests[k]), l.handled[k].env, l.handled[k].clients, w.retainDays)
  {
    PrefixOfFrames(Texts(w, l.msgs), arrived);
    n := |Handled(arrived)|;
    assert Texts(w, l.msgs[..n]) == Texts(w, l.msgs)[..n];
    RepliesPrefix(l.msgs, n);
    PrefixOfFrames(requests, l.received);
    assert LinesOf(l.handled) <= requests;
    forall k | 0 <= k < |Replies(l.msgs[..n])| ensures l.handled[k].line == requests[k] {
      assert LinesOf(l.handled)[k] == requests[k];
    }
  }
}
