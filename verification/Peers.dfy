/** One connection of the relay as a value: what each event does to it, and what it always satisfies. */
module Peers {
  import opened Lines
  import opened Protocol

  const MAX_LINE := 64 * 1024
  const MAX_OUT := 4 * 1024 * 1024
  const HELLO_TIMEOUT := 60
  const PING_INTERVAL := 30

  datatype Conn = Conn(fd: int, inb: Bytes, out: Bytes, openedAt: int, lastPing: int, hello: bool)

  /** A connection, whether its EPOLLOUT is armed, and its log.  The log is not part of the program: it
      records what the program did. */
  datatype Peer = Peer(conn: Conn, armed: bool, log: Log)

  datatype Outcome = Open(peer: Peer) | Closed(log: Log)

  /** Results of recv: some bytes (none: the other side closed), EAGAIN, an error. */
  datatype Recv = Data(chunk: Bytes) | RecvBlocked | RecvFailed

  /** Results of send: how many bytes were taken, EAGAIN, an error.  The kernel never takes more than it is
      given.  Both kinds of script read as EAGAIN once exhausted. */
  datatype Sent = Took(n: nat) | SendBlocked | SendFailed

  /** One readiness event with everything the calls made while serving it return; the k-th line handled
      finds envs(k). */
  datatype Io = Io(hup: bool, readable: bool, writable: bool, recvs: seq<Recv>, sends: seq<Sent>, envs: nat -> Env)

  function Enqueue(p: Peer, m: Msg, w: Wire): Peer
  {
    p.(conn := p.conn.(out := p.conn.out + w.encode(m) + [NL]), log := p.log.(msgs := p.log.msgs + [m]))
  }

  function HandleLine(p: Peer, line: Bytes, e: Env, clients: nat, w: Wire): Peer
  {
    var d := w.parse(line);
    var q := p.(conn := p.conn.(hello := p.conn.hello || SaysHello(d)),
                log := p.log.(handled := p.log.handled + [Handling(line, e, clients)]));
    Enqueue(q, Respond(d, e, clients, w.retainDays), w)
  }

  /** Draining the socket.  The limit is on the whole buffer, complete lines included, and whatever was
      read before a close or an error is dropped unhandled. */
  function Read(p: Peer, recvs: seq<Recv>): Outcome
    decreases |recvs|
  {
    if recvs == [] then Open(p) else
    match recvs[0]
    case RecvBlocked => Open(p)
    case RecvFailed => Closed(p.log)
    case Data(chunk) =>
      if chunk == [] then Closed(p.log) else
      var q := Take(p, chunk);
      if |q.conn.inb| > MAX_LINE then Closed(q.log) else Read(q, recvs[1..])
  }

  function Take(p: Peer, chunk: Bytes): Peer
  {
    p.(conn := p.conn.(inb := p.conn.inb + chunk), log := p.log.(received := p.log.received + chunk))
  }

  /** Handling every complete line of the buffer. */
  function Extract(p: Peer, envs: nat -> Env, k: nat, clients: nat, w: Wire): Peer
    decreases |p.conn.inb|
  {
    if First(p.conn.inb) == |p.conn.inb| then p else
    var q := TakeLine(p, envs, k, clients, w);
    Extract(q, envs, if First(p.conn.inb) == 0 then k else k + 1, clients, w)
  }

  /** The first line off the buffer; handled unless it is empty. */
  function TakeLine(p: Peer, envs: nat -> Env, k: nat, clients: nat, w: Wire): (q: Peer)
    requires First(p.conn.inb) < |p.conn.inb|
    ensures |q.conn.inb| < |p.conn.inb|
  {
    var n := First(p.conn.inb);
    var line, q := p.conn.inb[..n], p.(conn := p.conn.(inb := p.conn.inb[n + 1..]));
    if n == 0 then q else HandleLine(q, line, envs(k), clients, w)
  }

  /** Sending what the socket takes; also returns the unused results of send. */
  function Flush(p: Peer, sends: seq<Sent>): (Outcome, seq<Sent>)
    decreases |sends|
  {
    if p.conn.out == [] then (Open(p.(armed := false)), sends)
    else if sends == [] || sends[0].SendBlocked? then
      (if |p.conn.out| > MAX_OUT then Closed(p.log) else Open(p.(armed := true)),
       if sends == [] then [] else sends[1..])
    else if sends[0].SendFailed? || sends[0].n == 0 then (Closed(p.log), sends[1..])
    else Flush(Gone(p, sends[0].n), sends[1..])
  }

  function Gone(p: Peer, n: nat): Peer
  {
    var k := if n < |p.conn.out| then n else |p.conn.out|;
    p.(conn := p.conn.(out := p.conn.out[k..]), log := p.log.(sent := p.log.sent + p.conn.out[..k]))
  }

  function Served(p: Peer, io: Io, clients: nat, w: Wire): (Outcome, seq<Sent>)
  {
    if !io.readable then (Open(p), io.sends) else
    match Read(p, io.recvs)
    case Closed(l) => (Closed(l), io.sends)
    case Open(q) => Flush(Extract(q, io.envs, 0, clients, w), io.sends)
  }

  function OnReady(p: Peer, io: Io, clients: nat, w: Wire): Outcome
  {
    if io.hup then Closed(p.log) else
    var (o, sends) := Served(p, io, clients, w);
    if o.Open? && io.writable then Flush(o.peer, sends).0 else o
  }

  function OnTick(p: Peer, now: int, sends: seq<Sent>, w: Wire): Outcome
  {
    if !p.conn.hello && now - p.conn.openedAt > HELLO_TIMEOUT then Closed(p.log)
    else if now - p.conn.lastPing >= PING_INTERVAL then Flush(Pinged(p, now, w), sends).0
    else Open(p)
  }

  function Pinged(p: Peer, now: int, w: Wire): Peer
  {
    var q := Enqueue(p, Ping, w);
    q.(conn := q.conn.(lastPing := now))
  }

  function Fresh(fd: int, now: int): Peer
  {
    Peer(Conn(fd, [], [], now, now, false), false, Log([], [], [], []))
  }

  // ----- what always holds of a connection -----

  /** Bytes and messages are accounted for: sent plus buffered is exactly the framed messages; the replies
      answer the handled lines one for one; handled lines plus buffer are exactly what was received; hello is set
      exactly if some handled line said it. */
  ghost predicate Accounted(p: Peer, w: Wire)
  {
    && Answered(p, w)
    && LinesOf(p.log.handled) + Handled(p.conn.inb) == Handled(p.log.received)
    && Held(p.conn.inb) == Held(p.log.received)
  }

  /** The output side of it. */
  ghost predicate Answered(p: Peer, w: Wire)
  {
    && p.log.sent + p.conn.out == Frame(Texts(w, p.log.msgs))
    && Replies(p.log.msgs) == Responses(w, p.log.handled)
    && (p.conn.hello <==> SaidHello(w, p.log.handled))
  }

  /** At most one ping per 30 seconds of life; before the first one the last is when the connection was opened. */
  ghost predicate Timely(p: Peer, clock: int)
  {
    && p.conn.openedAt <= p.conn.lastPing <= clock
    && (Pings(p.log.msgs) == 0 ==> p.conn.lastPing == p.conn.openedAt)
    && PING_INTERVAL * Pings(p.log.msgs) <= p.conn.lastPing - p.conn.openedAt
  }

  /** Between events nothing is left to do. */
  ghost predicate Settled(p: Peer)
  {
    && (p.armed <==> p.conn.out != []) && |p.conn.out| <= MAX_OUT
    && NL !in p.conn.inb && |p.conn.inb| <= MAX_LINE
  }

  ghost predicate Good(p: Peer, fd: int, clock: int, w: Wire)
  {
    p.conn.fd == fd && Accounted(p, w) && Timely(p, clock) && Settled(p)
  }

  /** Said plainly: the handled lines are exactly the non-empty lines received so far, and the buffer is
      exactly the unfinished line, however the bytes were chunked. */
  lemma FramingIsExact(p: Peer, w: Wire)
    requires Accounted(p, w) && Settled(p)
    ensures LinesOf(p.log.handled) == Handled(p.log.received) && p.conn.inb == Held(p.log.received)
  {
    SplitPlain(p.conn.inb);
  }

  lemma AccountedIsInOrder(p: Peer, w: Wire)
    requires Accounted(p, w)
    ensures InOrder(p.log, w)
  {
  }

  lemma EnqueueKeeps(p: Peer, m: Msg, w: Wire)
    ensures Frame(Texts(w, p.log.msgs + [m])) == Frame(Texts(w, p.log.msgs)) + w.encode(m) + [NL]
    ensures Replies(p.log.msgs + [m]) == Replies(p.log.msgs) + if IsReply(m) then [m] else []
    ensures Pings(p.log.msgs + [m]) == Pings(p.log.msgs) + if m.Ping? then 1 else 0
  {
    var t := Texts(w, p.log.msgs + [m]);
    assert t[..|t| - 1] == Texts(w, p.log.msgs);
    assert (p.log.msgs + [m])[..|p.log.msgs + [m]| - 1] == p.log.msgs;
  }

  lemma EnqueueAccounted(p: Peer, m: Msg, w: Wire)
    requires Accounted(p, w) && !IsReply(m)
    ensures Accounted(Enqueue(p, m, w), w)
  {
    EnqueueKeeps(p, m, w);
    assert p.log.sent + (p.conn.out + w.encode(m) + [NL]) == p.log.sent + p.conn.out + w.encode(m) + [NL];
  }

  lemma HelloKept(w: Wire, hs: seq<Handling>, h: Handling)
    ensures SaidHello(w, hs + [h]) <==> SaidHello(w, hs) || SaysHello(w.parse(h.line))
  {
    if SaidHello(w, hs) {
      var i :| 0 <= i < |hs| && SaysHello(w.parse(hs[i].line));
      assert (hs + [h])[i] == hs[i];
    }
    if SaysHello(w.parse(h.line)) { assert (hs + [h])[|hs|] == h; }
  }

  /** Answering a line. */
  lemma AnswerAnswered(p: Peer, line: Bytes, e: Env, clients: nat, w: Wire)
    requires Answered(p, w)
    ensures var q := HandleLine(p, line, e, clients, w);
            && Answered(q, w) && LinesOf(q.log.handled) == LinesOf(p.log.handled) + [line]
            && Pings(q.log.msgs) == Pings(p.log.msgs)
  {
    var h, m := Handling(line, e, clients), Respond(w.parse(line), e, clients, w.retainDays);
    EnqueueKeeps(p, m, w);
    HelloKept(w, p.log.handled, h);
    assert LinesOf(p.log.handled + [h]) == LinesOf(p.log.handled) + [line];
    assert Responses(w, p.log.handled + [h]) == Responses(w, p.log.handled) + [m];
    assert p.log.sent + (p.conn.out + w.encode(m) + [NL]) == p.log.sent + p.conn.out + w.encode(m) + [NL];
  }

  /** Taking the first line off the buffer and answering it: the output side. */
  lemma LineAnswered(p: Peer, envs: nat -> Env, k: nat, clients: nat, w: Wire)
    requires Answered(p, w) && First(p.conn.inb) < |p.conn.inb|
    ensures var q := TakeLine(p, envs, k, clients, w);
            && Answered(q, w) && Pings(q.log.msgs) == Pings(p.log.msgs)
            && LinesOf(q.log.handled) == LinesOf(p.log.handled) + Shown(p.conn.inb[..First(p.conn.inb)])
  {
    var n := First(p.conn.inb);
    if n == 0 {
      assert LinesOf(p.log.handled) + [] == LinesOf(p.log.handled);
    } else {
      AnswerAnswered(p.(conn := p.conn.(inb := p.conn.inb[n + 1..])), p.conn.inb[..n], envs(k), clients, w);
    }
  }

  /** And the input side. */
  lemma LineAccounted(p: Peer, envs: nat -> Env, k: nat, clients: nat, w: Wire)
    requires Accounted(p, w) && First(p.conn.inb) < |p.conn.inb|
    ensures var q := TakeLine(p, envs, k, clients, w);
            && Accounted(q, w) && Pings(q.log.msgs) == Pings(p.log.msgs)
            && q.conn.fd == p.conn.fd && q.conn.openedAt == p.conn.openedAt && q.conn.lastPing == p.conn.lastPing
            && q.log.received == p.log.received && (p.conn.hello ==> q.conn.hello)
  {
    LineTaken(LinesOf(p.log.handled), p.conn.inb, First(p.conn.inb), Handled(p.log.received));
    LineAnswered(p, envs, k, clients, w);
  }

  lemma {:induction false} ExtractGood(p: Peer, envs: nat -> Env, k: nat, clients: nat, w: Wire)
    requires Accounted(p, w)
    ensures var q := Extract(p, envs, k, clients, w);
            && Accounted(q, w) && NL !in q.conn.inb && |q.conn.inb| <= |p.conn.inb|
            && q.conn.fd == p.conn.fd && q.conn.openedAt == p.conn.openedAt && q.conn.lastPing == p.conn.lastPing
            && q.log.received == p.log.received && Pings(q.log.msgs) == Pings(p.log.msgs)
            && (p.conn.hello ==> q.conn.hello)
    decreases |p.conn.inb|
  {
    var n := First(p.conn.inb);
    if n < |p.conn.inb| {
      LineAccounted(p, envs, k, clients, w);
      ExtractGood(TakeLine(p, envs, k, clients, w), envs, if n == 0 then k else k + 1, clients, w);
    } else {
      assert p.conn.inb[..n] == p.conn.inb;
    }
  }

  /** More bytes: what is to be handled grows at its end. */
  lemma MoreBytes(done: seq<Bytes>, inb: Bytes, received: Bytes, chunk: Bytes)
    requires done + Handled(inb) == Handled(received) && Held(inb) == Held(received)
    ensures done + Handled(inb + chunk) == Handled(received + chunk) && Held(inb + chunk) == Held(received + chunk)
  {
    Chunk(received, chunk);
    Chunk(inb, chunk);
    Assoc(done, Handled(inb), Handled(Held(inb) + chunk));
  }

  lemma TakeAccounted(p: Peer, chunk: Bytes, w: Wire)
    requires Accounted(p, w)
    ensures Accounted(Take(p, chunk), w)
  {
    MoreBytes(LinesOf(p.log.handled), p.conn.inb, p.log.received, chunk);
  }

  lemma {:induction false} ReadGood(p: Peer, recvs: seq<Recv>, w: Wire)
    requires Accounted(p, w) && |p.conn.inb| <= MAX_LINE
    ensures match Read(p, recvs)
            case Closed(l) => InOrder(l, w)
            case Open(q) =>
              && Accounted(q, w) && |q.conn.inb| <= MAX_LINE
              && q == p.(conn := p.conn.(inb := q.conn.inb), log := p.log.(received := q.log.received))
    decreases |recvs|
  {
    AccountedIsInOrder(p, w);
    if recvs != [] && recvs[0].Data? && recvs[0].chunk != [] {
      var q := Take(p, recvs[0].chunk);
      TakeAccounted(p, recvs[0].chunk, w);
      AccountedIsInOrder(q, w);
      if |q.conn.inb| <= MAX_LINE { ReadGood(q, recvs[1..], w); }
    }
  }

  /** The bytes of a drain, up to EAGAIN. */
  function Incoming(recvs: seq<Recv>): Bytes
  {
    if recvs == [] || !recvs[0].Data? || recvs[0].chunk == [] then [] else recvs[0].chunk + Incoming(recvs[1..])
  }

  /** The drain ends with EAGAIN, not with a close or an error. */
  predicate Calm(recvs: seq<Recv>)
  {
    recvs == [] || recvs[0].RecvBlocked? || (recvs[0].Data? && recvs[0].chunk != [] && Calm(recvs[1..]))
  }

  /** Exactly when a drain leaves the connection open: it ends calmly and buffer and new bytes together, complete
      lines included, are at most 64 KiB; then all of it is in the buffer. */
  lemma {:induction false} ReadOpens(p: Peer, recvs: seq<Recv>)
    requires |p.conn.inb| <= MAX_LINE
    ensures Read(p, recvs).Open? <==> Calm(recvs) && |p.conn.inb| + |Incoming(recvs)| <= MAX_LINE
    ensures Read(p, recvs).Open? ==> Read(p, recvs).peer == Take(p, Incoming(recvs))
    decreases |recvs|
  {
    if recvs != [] && recvs[0].Data? && recvs[0].chunk != [] {
      var q := Take(p, recvs[0].chunk);
      if |q.conn.inb| <= MAX_LINE { ReadOpens(q, recvs[1..]); }
      assert p.conn.inb + (recvs[0].chunk + Incoming(recvs[1..])) == q.conn.inb + Incoming(recvs[1..]);
      assert p.log.received + (recvs[0].chunk + Incoming(recvs[1..])) == q.log.received + Incoming(recvs[1..]);
    } else {
      assert p.conn.inb + [] == p.conn.inb && p.log.received + [] == p.log.received;
    }
  }

  /** The documented rule is about the unfinished line, the code about the whole buffer.  A calm drain follows the
      rule exactly when all the bytes fit, or the unfinished line alone does not. */
  lemma CalmAgainstTheRule(p: Peer, recvs: seq<Recv>)
    requires |p.conn.inb| <= MAX_LINE && Calm(recvs)
    ensures var all := p.conn.inb + Incoming(recvs);
            (Read(p, recvs).Closed? <==> |Held(all)| > MAX_LINE) <==> |all| <= MAX_LINE || |Held(all)| > MAX_LINE
  {
    ReadOpens(p, recvs);
    assert |Held(p.conn.inb + Incoming(recvs))| <= |p.conn.inb + Incoming(recvs)|;
  }

  /** A drain that breaks it: two complete lines of 32 KiB, nothing unfinished, and the connection is closed with
      both unhandled. */
  lemma CompleteLinesCount(p: Peer, line: Bytes)
    requires p.conn.inb == [] && p.log.handled == [] && |line| == MAX_LINE / 2 && Framable(line)
    ensures var s := Frame([line, line]);
            && Handled(s) == [line, line] && Held(s) == []
            && Read(p, [Data(s)]).Closed? && Read(p, [Data(s)]).log.handled == []
  {
    var s := Frame([line, line]);
    FrameRoundTrip([line, line]);
    assert [line, line][..1] == [line] && [line][..0] == [];
    assert |Frame([line])| == |line| + 1 && |s| == 2 * |line| + 2;
  }

  /** How many bytes the socket takes before it blocks. */
  function Taken(sends: seq<Sent>): nat
  {
    if sends == [] || !sends[0].Took? then 0 else sends[0].n + Taken(sends[1..])
  }

  /** A flush that leaves the connection open has sent all the socket took, or all there was. */
  lemma {:induction false} FlushSends(p: Peer, sends: seq<Sent>)
    requires Flush(p, sends).0.Open?
    ensures |Flush(p, sends).0.peer.conn.out| == if Taken(sends) < |p.conn.out| then |p.conn.out| - Taken(sends) else 0
    decreases |sends|
  {
    if p.conn.out != [] && sends != [] && sends[0].Took? && sends[0].n > 0 {
      FlushSends(Gone(p, sends[0].n), sends[1..]);
    }
  }

  lemma {:induction false} FlushGood(p: Peer, sends: seq<Sent>, w: Wire)
    requires Accounted(p, w)
    ensures match Flush(p, sends).0
            case Closed(l) => InOrder(l, w)
            case Open(q) =>
              && Accounted(q, w) && (q.armed <==> q.conn.out != []) && |q.conn.out| <= MAX_OUT
              && q == p.(conn := p.conn.(out := q.conn.out), armed := q.armed, log := p.log.(sent := q.log.sent))
    decreases |sends|
  {
    AccountedIsInOrder(p, w);
    if p.conn.out != [] && sends != [] && sends[0].Took? && sends[0].n > 0 {
      var k := if sends[0].n < |p.conn.out| then sends[0].n else |p.conn.out|;
      assert p.conn.out == p.conn.out[..k] + p.conn.out[k..];
      assert p.log.sent + p.conn.out[..k] + p.conn.out[k..] == p.log.sent + p.conn.out;
      FlushGood(Gone(p, sends[0].n), sends[1..], w);
    }
  }

  // ----- exactly what an event does -----

  function Handlings(lines: seq<Bytes>, envs: nat -> Env, k: nat, clients: nat): seq<Handling>
  {
    seq(|lines|, i requires 0 <= i < |lines| => Handling(lines[i], envs(k + i), clients))
  }

  /** q is p once some lines are answered, in order, one framed reply for each. */
  ghost predicate RepliesTo(q: Peer, p: Peer, hs: seq<Handling>, w: Wire)
  {
    && q == p.(conn := p.conn.(out := q.conn.out, hello := q.conn.hello),
               log := p.log.(handled := q.log.handled, msgs := q.log.msgs))
    && q.log.handled == p.log.handled + hs
    && q.log.msgs == p.log.msgs + Responses(w, hs)
    && q.conn.out == p.conn.out + Frame(Texts(w, Responses(w, hs)))
    && (q.conn.hello <==> p.conn.hello || SaidHello(w, hs))
  }

  lemma NothingReplied(p: Peer, w: Wire)
    ensures RepliesTo(p, p, [], w)
  {
    assert Responses(w, []) == [] && Texts(w, []) == [] && Frame([]) == [];
    assert p.conn.out + [] == p.conn.out && p.log.handled + [] == p.log.handled && p.log.msgs + [] == p.log.msgs;
  }

  lemma OneReplied(p: Peer, line: Bytes, e: Env, clients: nat, w: Wire)
    ensures RepliesTo(HandleLine(p, line, e, clients, w), p, [Handling(line, e, clients)], w)
  {
    var h := Handling(line, e, clients);
    var m := Respond(w.parse(line), e, clients, w.retainDays);
    assert Responses(w, [h]) == [m] && Texts(w, [m]) == [w.encode(m)];
    assert [w.encode(m)][..0] == [] && Frame([w.encode(m)]) == [] + w.encode(m) + [NL] == w.encode(m) + [NL];
    Assoc(p.conn.out, w.encode(m), [NL]);
    assert SaidHello(w, [h]) <==> SaysHello(w.parse(line)) by {
      if SaysHello(w.parse(line)) { assert [h][0] == h; }
    }
  }

  lemma RepliedMore(r: Peer, q: Peer, p: Peer, h: Handling, hs: seq<Handling>, w: Wire)
    requires RepliesTo(q, p, [h], w) && RepliesTo(r, q, hs, w)
    ensures RepliesTo(r, p, [h] + hs, w)
  {
    var a, b := Responses(w, [h]), Responses(w, hs);
    assert Responses(w, [h] + hs) == a + b;
    assert Texts(w, a + b) == Texts(w, a) + Texts(w, b);
    FrameConcat(Texts(w, a), Texts(w, b));
    HelloOfMore(w, h, hs);
    Assoc(p.conn.out, Frame(Texts(w, a)), Frame(Texts(w, b)));
    Assoc(p.log.handled, [h], hs);
    Assoc(p.log.msgs, a, b);
  }

  lemma HelloOfMore(w: Wire, h: Handling, hs: seq<Handling>)
    ensures SaidHello(w, [h] + hs) <==> SaidHello(w, [h]) || SaidHello(w, hs)
  {
    if SaidHello(w, hs) {
      var i :| 0 <= i < |hs| && SaysHello(w.parse(hs[i].line));
      assert ([h] + hs)[i + 1] == hs[i];
    }
    if SaidHello(w, [h]) { assert ([h] + hs)[0] == [h][0]; }
  }

  /** The buffer with its complete lines taken off. */
  function WithRest(p: Peer, inb: Bytes): Peer { p.(conn := p.conn.(inb := inb)) }

  /** Exactly what handling the buffer does: every complete non-empty line is answered, in order, and the unfinished
      line stays. */
  lemma {:induction false} ExtractExactly(p: Peer, envs: nat -> Env, k: nat, clients: nat, w: Wire)
    ensures RepliesTo(Extract(p, envs, k, clients, w), WithRest(p, Held(p.conn.inb)),
                      Handlings(Handled(p.conn.inb), envs, k, clients), w)
    decreases |p.conn.inb|
  {
    var s, n := p.conn.inb, First(p.conn.inb);
    if n == |s| {
      assert s[..n] == s;
      SplitPlain(s);
      NothingReplied(p, w);
      assert Handlings([], envs, k, clients) == [];
    } else {
      var rest := s[n + 1..];
      FirstLine(s, n);
      var q := TakeLine(p, envs, k, clients, w);
      if n == 0 {
        ExtractExactly(q, envs, k, clients, w);
        assert Shown(s[..n]) + Handled(rest) == Handled(rest);
      } else {
        ExtractExactly(q, envs, k + 1, clients, w);
        var hs := Handlings(Handled(rest), envs, k + 1, clients);
        OneReplied(WithRest(p, Held(s)), s[..n], envs(k), clients, w);
        RepliedMore(Extract(p, envs, k, clients, w), WithRest(q, Held(rest)), WithRest(p, Held(s)),
                    Handling(s[..n], envs(k), clients), hs, w);
        MoreHandlings(s[..n], Handled(rest), envs, k, clients);
      }
    }
  }

  lemma MoreHandlings(line: Bytes, lines: seq<Bytes>, envs: nat -> Env, k: nat, clients: nat)
    ensures Handlings([line] + lines, envs, k, clients)
         == [Handling(line, envs(k), clients)] + Handlings(lines, envs, k + 1, clients)
  {
  }

  /** What a flush that does not give up leaves unsent, and the peer after it. */
  function Unsent(out: Bytes, sends: seq<Sent>): Bytes
  {
    if Taken(sends) < |out| then out[Taken(sends)..] else []
  }

  /** The results of send that it does not use. */
  function Unused(out: Bytes, sends: seq<Sent>): seq<Sent>
    decreases |sends|
  {
    if out == [] || sends == [] then sends
    else if sends[0].Took? && sends[0].n > 0 then
      Unused(out[if sends[0].n < |out| then sends[0].n else |out|..], sends[1..])
    else sends[1..]
  }

  function Wrote(p: Peer, m: nat): Peer
    requires m <= |p.conn.out|
  {
    p.(conn := p.conn.(out := p.conn.out[m..]), armed := m < |p.conn.out|,
       log := p.log.(sent := p.log.sent + p.conn.out[..m]))
  }

  function Flushed(p: Peer, sends: seq<Sent>): (q: Peer)
    ensures q.conn.out == Unsent(p.conn.out, sends)
  {
    Wrote(p, if Taken(sends) < |p.conn.out| then Taken(sends) else |p.conn.out|)
  }

  lemma WroteMore(p: Peer, n: nat, m: nat)
    requires var k := if n < |p.conn.out| then n else |p.conn.out|; k <= m <= |p.conn.out|
    ensures var k := if n < |p.conn.out| then n else |p.conn.out|;
            Wrote(Gone(p, n), m - k) == Wrote(p, m)
  {
    var out, k := p.conn.out, if n < |p.conn.out| then n else |p.conn.out|;
    assert out[k..][m - k..] == out[m..];
    assert out[..k] + out[k..][..m - k] == out[..m];
    Assoc(p.log.sent, out[..k], out[k..][..m - k]);
  }

  lemma {:induction false} FlushUses(p: Peer, sends: seq<Sent>)
    ensures Flush(p, sends).1 == Unused(p.conn.out, sends)
    decreases |sends|
  {
    if p.conn.out != [] && sends != [] && sends[0].Took? && sends[0].n > 0 {
      FlushUses(Gone(p, sends[0].n), sends[1..]);
    }
  }

  /** Exactly what a flush does when it does not give up: it sends as much as the socket takes. */
  lemma {:induction false} FlushExactly(p: Peer, sends: seq<Sent>)
    ensures Flush(p, sends).0.Closed? <==> SendFails(p.conn.out, sends)
    ensures Flush(p, sends).0.Open? ==> Flush(p, sends).0.peer == Flushed(p, sends)
    decreases |sends|
  {
    FlushCloses(p, sends);
    if p.conn.out != [] && sends != [] && sends[0].Took? && sends[0].n > 0 {
      FlushExactly(Gone(p, sends[0].n), sends[1..]);
      var m := if Taken(sends) < |p.conn.out| then Taken(sends) else |p.conn.out|;
      WroteMore(p, sends[0].n, m);
    } else {
      assert p.log.sent + [] == p.log.sent;
    }
  }

  /** A drain that ends in EAGAIN with at most 64 KiB in the buffer. */
  predicate Drained(inb: Bytes, recvs: seq<Recv>)
  {
    Calm(recvs) && |inb| + |Incoming(recvs)| <= MAX_LINE
  }

  /** The peer once a drain is handled. */
  function AfterInput(p: Peer, io: Io, clients: nat, w: Wire): Peer
  {
    if io.readable then Extract(Take(p, Incoming(io.recvs)), io.envs, 0, clients, w) else p
  }

  /** That is: all that came in is received, every complete line of it answered in order, the rest kept. */
  lemma InputIsAnswered(p: Peer, io: Io, clients: nat, w: Wire)
    requires io.readable
    ensures var all := p.conn.inb + Incoming(io.recvs);
            var q := WithRest(p, Held(all)).(log := p.log.(received := p.log.received + Incoming(io.recvs)));
            RepliesTo(AfterInput(p, io, clients, w), q, Handlings(Handled(all), io.envs, 0, clients), w)
  {
    ExtractExactly(Take(p, Incoming(io.recvs)), io.envs, 0, clients, w);
  }

  /** Exactly what a readiness event does.  A hang-up closes.  Otherwise input is drained, every line of it answered
      and as much sent as the socket takes; then the same for output.  The connection is closed only if the drain
      fails or is too long, or a flush that was due gives up. */
  lemma ReadyExactly(p: Peer, io: Io, clients: nat, w: Wire)
    requires |p.conn.inb| <= MAX_LINE
    ensures var o, q := OnReady(p, io, clients, w), AfterInput(p, io, clients, w);
            var r, left := (if io.readable then Flushed(q, io.sends) else q),
                           (if io.readable then Unused(q.conn.out, io.sends) else io.sends);
            && (io.hup ==> o == Closed(p.log))
            && (o.Closed? <==>
                  || io.hup
                  || (io.readable && (!Drained(p.conn.inb, io.recvs) || SendFails(q.conn.out, io.sends)))
                  || (io.writable && SendFails(r.conn.out, left)))
            && (o.Open? ==> o.peer == if io.writable then Flushed(r, left) else r)
  {
    if !io.hup {
      if io.readable {
        ReadOpens(p, io.recvs);
        FlushExactly(AfterInput(p, io, clients, w), io.sends);
        FlushUses(AfterInput(p, io, clients, w), io.sends);
      }
      var (o, left) := Served(p, io, clients, w);
      if o.Open? { FlushExactly(o.peer, left); }
    }
  }

  /** Exactly what a tick does to a connection it does not drop: a due ping is enqueued and flushed, and only then
      does the time of the last ping move. */
  lemma TickExactly(p: Peer, now: int, sends: seq<Sent>, w: Wire)
    ensures var o, due := OnTick(p, now, sends, w), now - p.conn.lastPing >= PING_INTERVAL;
            o.Open? ==>
              && o.peer.log.msgs == p.log.msgs + (if due then [Ping] else [])
              && o.peer.conn.lastPing == (if due then now else p.conn.lastPing)
              && Pings(o.peer.log.msgs) == Pings(p.log.msgs) + (if due then 1 else 0)
              && (due ==> o.peer.conn.out == Unsent(p.conn.out + w.encode(Ping) + [NL], sends))
              && (!due ==> o.peer == p)
  {
    if now - p.conn.lastPing >= PING_INTERVAL {
      FlushExactly(Pinged(p, now, w), sends);
      EnqueueKeeps(p, Ping, w);
    }
  }

  ghost predicate Fine(o: Outcome, fd: int, clock: int, w: Wire)
  {
    match o
    case Open(p) => Good(p, fd, clock, w)
    case Closed(l) => InOrder(l, w)
  }

  /** A readiness event keeps a connection good, or closes it with its log in order. */
  lemma ReadyGood(p: Peer, fd: int, clock: int, io: Io, clients: nat, w: Wire)
    requires Good(p, fd, clock, w)
    ensures Fine(OnReady(p, io, clients, w), fd, clock, w)
  {
    AccountedIsInOrder(p, w);
    var (o, sends) := Served(p, io, clients, w);
    if io.readable {
      ReadGood(p, io.recvs, w);
      var r := Read(p, io.recvs);
      if r.Open? {
        ExtractGood(r.peer, io.envs, 0, clients, w);
        FlushGood(Extract(r.peer, io.envs, 0, clients, w), io.sends, w);
      }
    }
    if o.Open? { FlushGood(o.peer, sends, w); }
  }

  lemma PingedAccounted(p: Peer, clock: int, now: int, w: Wire)
    requires Accounted(p, w) && Timely(p, clock) && clock <= now && now - p.conn.lastPing >= PING_INTERVAL
    ensures Accounted(Pinged(p, now, w), w) && Timely(Pinged(p, now, w), now)
  {
    EnqueueAccounted(p, Ping, w);
    EnqueueKeeps(p, Ping, w);
  }

  /** A tick keeps a connection good or closes it; one that survives has said hello or is at most 60 s old,
      and was last pinged less than 30 s ago. */
  lemma TickGood(p: Peer, fd: int, clock: int, now: int, sends: seq<Sent>, w: Wire)
    requires Good(p, fd, clock, w) && clock <= now
    ensures Fine(OnTick(p, now, sends, w), fd, now, w)
    ensures match OnTick(p, now, sends, w)
            case Closed(l) => true
            case Open(q) =>
              (q.conn.hello || now - q.conn.openedAt <= HELLO_TIMEOUT) && now - q.conn.lastPing < PING_INTERVAL
  {
    AccountedIsInOrder(p, w);
    if now - p.conn.lastPing >= PING_INTERVAL {
      PingedAccounted(p, clock, now, w);
      FlushGood(Pinged(p, now, w), sends, w);
    }
  }

  /** Whether a flush gives up: some send fails, takes nothing, or blocks with too much left. */
  ghost predicate SendFails(out: Bytes, sends: seq<Sent>)
    decreases |sends|
  {
    out != [] &&
    if sends == [] || sends[0].SendBlocked? then |out| > MAX_OUT
    else
      || sends[0].SendFailed? || sends[0].n == 0
      || SendFails(out[if sends[0].n < |out| then sends[0].n else |out|..], sends[1..])
  }

  lemma {:induction false} FlushCloses(p: Peer, sends: seq<Sent>)
    ensures Flush(p, sends).0.Closed? <==> SendFails(p.conn.out, sends)
    decreases |sends|
  {
    if p.conn.out != [] && sends != [] && sends[0].Took? && sends[0].n > 0 {
      FlushCloses(Gone(p, sends[0].n), sends[1..]);
    }
  }

  /** A tick drops exactly the connections that never said hello and are too old, and those whose due ping
      cannot be sent; so one that said hello is dropped only by a failing send. */
  lemma TickDrops(p: Peer, now: int, sends: seq<Sent>, w: Wire)
    ensures OnTick(p, now, sends, w).Closed? <==>
              || (!p.conn.hello && now - p.conn.openedAt > HELLO_TIMEOUT)
              || (now - p.conn.lastPing >= PING_INTERVAL && SendFails(p.conn.out + w.encode(Ping) + [NL], sends))
  {
    FlushCloses(Pinged(p, now, w), sends);
  }

  lemma FreshGood(fd: int, now: int, w: Wire)
    ensures Good(Fresh(fd, now), fd, now, w)
  {
  }
}
