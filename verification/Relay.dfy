/** The relay: a single thread over one epoll set, as a class and as a state machine. */
module Relay {
  import opened Aggregates
  import opened Lines
  import opened Protocol
  import opened Peers

  /** `closed` collects the logs of closed connections, `clock` is the last clock reading: neither is part
      of the program. */
  datatype State = State(conns: map<int, Peer>, closed: set<Log>, stop: bool, clock: int)

  /** What epoll_wait may report, with all results of the calls made in response. */
  datatype Event =
    | Accept(now: int, fds: seq<int>)
    | Tick(now: int, sends: int -> seq<Sent>)
    | Ready(fd: int, io: Io)
    | Signal

  /** A new connection under a number; a connection still there under it would be destroyed. */
  function Admit(s: State, fd: int, now: int): State
  {
    s.(conns := s.conns[fd := Fresh(fd, now)], closed := s.closed + if fd in s.conns then {s.conns[fd].log} else {})
  }

  function AdmitAll(s: State, fds: seq<int>, now: int): State
  {
    if fds == [] then s else Admit(AdmitAll(s, fds[..|fds| - 1], now), fds[|fds| - 1], now)
  }

  function Settle(s: State, fd: int, o: Outcome): State
  {
    match o
    case Open(p) => s.(conns := s.conns[fd := p])
    case Closed(l) => s.(conns := s.conns - {fd}, closed := s.closed + {l})
  }

  function TickAll(s: State, now: int, sends: int -> seq<Sent>, w: Wire): State
  {
    s.(conns := map fd | fd in s.conns && OnTick(s.conns[fd], now, sends(fd), w).Open? ::
                  OnTick(s.conns[fd], now, sends(fd), w).peer,
       closed := s.closed + set fd | fd in s.conns && OnTick(s.conns[fd], now, sends(fd), w).Closed? ::
                   OnTick(s.conns[fd], now, sends(fd), w).log)
  }

  function Step(s: State, ev: Event, w: Wire): State
  {
    match ev
    case Accept(now, fds) => AdmitAll(s, fds, now).(clock := now)
    case Tick(now, sends) => TickAll(s, now, sends, w).(clock := now)
    case Ready(fd, io) => if fd in s.conns then Settle(s, fd, OnReady(s.conns[fd], io, |s.conns|, w)) else s
    case Signal => s.(stop := true)
  }

  function Steps(s: State, evs: seq<Event>, w: Wire): State
  {
    if evs == [] then s else Step(Steps(s, evs[..|evs| - 1], w), evs[|evs| - 1], w)
  }

  /** One epoll_wait after the other until told to stop; a batch is always served to its end. */
  function Batches(s: State, batches: seq<seq<Event>>, w: Wire): State
  {
    if batches == [] then s else
    var t := Batches(s, batches[..|batches| - 1], w);
    if t.stop then t else Steps(t, batches[|batches| - 1], w)
  }

  /** The log a connection ends with when the relay says bye. */
  function Farewell(p: Peer, sends: seq<Sent>, w: Wire): Log
  {
    match Flush(Enqueue(p, Bye, w), sends).0
    case Open(q) => q.log
    case Closed(l) => l
  }

  function Shutdown(s: State, sends: int -> seq<Sent>, w: Wire): set<Log>
  {
    s.closed + set fd | fd in s.conns :: Farewell(s.conns[fd], sends(fd), w)
  }

  // ----- the program -----

  class Server {
    const w: Wire
    var conns: map<int, Peer>
    var stop: bool
    ghost var closed: set<Log>
    ghost var clock: int

    ghost function Now(): State
      reads this
    {
      State(conns, closed, stop, clock)
    }

    constructor (w: Wire)
      ensures this.w == w && Now() == State(map[], {}, false, 0)
    {
      this.w, conns, stop, closed, clock := w, map[], false, {}, 0;
    }

    method Close(fd: int)
      requires fd in conns
      modifies this
      ensures Now() == Settle(old(Now()), fd, Closed(old(conns[fd].log)))
    {
      closed := closed + {conns[fd].log};
      conns := conns - {fd};
    }

    method AcceptAll(now: int, fds: seq<int>)
      modifies this
      ensures Now() == Step(old(Now()), Accept(now, fds), w)
    {
      for i := 0 to |fds|
        invariant Now() == AdmitAll(old(Now()), fds[..i], now)
      {
        assert fds[..i + 1][..i] == fds[..i];
        if fds[i] in conns { closed := closed + {conns[fds[i]].log}; }
        conns := conns[fds[i] := Peer(Conn(fds[i], [], [], now, now, false), false, Log([], [], [], []))];
      }
      assert fds[..|fds|] == fds;
      clock := now;
    }

    /** Sends what the socket takes; false if the connection must be closed. */
    method FlushOut(fd: int, sends: seq<Sent>) returns (ok: bool, left: seq<Sent>)
      requires fd in conns
      modifies this`conns
      ensures fd in conns && conns == old(conns)[fd := conns[fd]]
      ensures left == Flush(old(conns[fd]), sends).1
      ensures match Flush(old(conns[fd]), sends).0
              case Open(p) => ok && conns[fd] == p
              case Closed(l) => !ok && conns[fd].log == l
    {
      left := sends;
      while conns[fd].conn.out != []
        invariant fd in conns && conns == old(conns)[fd := conns[fd]]
        invariant Flush(conns[fd], left) == Flush(old(conns[fd]), sends)
        decreases |left|
      {
        var p := conns[fd];
        if left == [] || left[0].SendBlocked? {
          left := if left == [] then [] else left[1..];
          if |p.conn.out| > MAX_OUT { return false, left; }
          conns := conns[fd := p.(armed := true)];
          return true, left;
        }
        var r := left[0];
        left := left[1..];
        if r.SendFailed? || r.n == 0 { return false, left; }
        var k := if r.n < |p.conn.out| then r.n else |p.conn.out|;
        conns := conns[fd := p.(conn := p.conn.(out := p.conn.out[k..]),
                                log := p.log.(sent := p.log.sent + p.conn.out[..k]))];
      }
      conns := conns[fd := conns[fd].(armed := false)];
      ok := true;
    }

    /** Reads until the socket is drained; false if the connection must be closed. */
    method Drain(fd: int, recvs: seq<Recv>) returns (ok: bool)
      requires fd in conns
      modifies this`conns
      ensures fd in conns && conns == old(conns)[fd := conns[fd]]
      ensures match Read(old(conns[fd]), recvs)
              case Open(p) => ok && conns[fd] == p
              case Closed(l) => !ok && conns[fd].log == l
    {
      var left := recvs;
      while left != [] && !left[0].RecvBlocked?
        invariant fd in conns && conns == old(conns)[fd := conns[fd]]
        invariant Read(conns[fd], left) == Read(old(conns[fd]), recvs)
        decreases |left|
      {
        if left[0].RecvFailed? || left[0].chunk == [] { return false; }
        var p := conns[fd];
        conns := conns[fd := p.(conn := p.conn.(inb := p.conn.inb + left[0].chunk),
                                log := p.log.(received := p.log.received + left[0].chunk))];
        if |conns[fd].conn.inb| > MAX_LINE { return false; }
        left := left[1..];
      }
      ok := true;
    }

    /** Handles one request line: appends one answer to the output buffer. */
    method Handle(fd: int, line: Bytes, e: Env)
      requires fd in conns
      modifies this`conns
      ensures conns == old(conns)[fd := HandleLine(old(conns[fd]), line, e, |old(conns)|, w)]
    {
      var p, d := conns[fd], w.parse(line);
      p := p.(log := p.log.(handled := p.log.handled + [Handling(line, e, |conns|)]));
      if SaysHello(d) { p := p.(conn := p.conn.(hello := true)); }
      var m := Answer(d, e, |conns|, w.retainDays);
      p := p.(conn := p.conn.(out := p.conn.out + w.encode(m) + [NL]), log := p.log.(msgs := p.log.msgs + [m]));
      assert p == HandleLine(conns[fd], line, e, |conns|, w);
      conns := conns[fd := p];
    }

    method HandleLines(fd: int, envs: nat -> Env)
      requires fd in conns
      modifies this`conns
      ensures conns == old(conns)[fd := Extract(old(conns[fd]), envs, 0, |old(conns)|, w)]
    {
      var k: nat := 0;
      var n := Find(conns[fd].conn.inb);
      while n < |conns[fd].conn.inb|
        invariant fd in conns && conns == old(conns)[fd := conns[fd]]
        invariant n == First(conns[fd].conn.inb)
        invariant Extract(conns[fd], envs, k, |old(conns)|, w) == Extract(old(conns[fd]), envs, 0, |old(conns)|, w)
        decreases |conns[fd].conn.inb|
      {
        k := HandleFirst(fd, n, envs, k);
        n := Find(conns[fd].conn.inb);
      }
    }

    /** Takes the line ending at n off the buffer and handles it unless it is empty. */
    method HandleFirst(fd: int, n: nat, envs: nat -> Env, k: nat) returns (k': nat)
      requires fd in conns && n == First(conns[fd].conn.inb) && n < |conns[fd].conn.inb|
      modifies this`conns
      ensures conns == old(conns)[fd := TakeLine(old(conns[fd]), envs, k, |old(conns)|, w)]
      ensures k' == if n == 0 then k else k + 1
    {
      var p := conns[fd];
      var line := p.conn.inb[..n];
      conns := conns[fd := p.(conn := p.conn.(inb := p.conn.inb[n + 1..]))];
      k' := k;
      if line != [] {
        assert conns.Keys == old(conns).Keys;
        Handle(fd, line, envs(k));
        k' := k + 1;
      }
    }

    /** The EPOLLIN part: drain, handle, flush; false if the connection must be closed. */
    method OnReadable(fd: int, io: Io) returns (ok: bool, sends: seq<Sent>)
      requires fd in conns && io.readable
      modifies this`conns
      ensures fd in conns && conns == old(conns)[fd := conns[fd]]
      ensures match Served(old(conns[fd]), io, |old(conns)|, w)
              case (Open(p), left) => ok && conns[fd] == p && sends == left
              case (Closed(l), _) => !ok && conns[fd].log == l
    {
      sends := io.sends;
      ok := Drain(fd, io.recvs);
      if !ok { return; }
      assert conns.Keys == old(conns).Keys;
      HandleLines(fd, io.envs);
      ok, sends := FlushOut(fd, sends);
    }

    method OnConn(fd: int, io: Io)
      modifies this
      ensures Now() == Step(old(Now()), Ready(fd, io), w)
    {
      if fd !in conns { return; }
      if io.hup { Close(fd); return; }
      var sends, ok := io.sends, true;
      if io.readable {
        ok, sends := OnReadable(fd, io);
        if !ok { Close(fd); return; }
      }
      if io.writable {
        ok, sends := FlushOut(fd, sends);
        if !ok { Close(fd); return; }
      }
    }

    /** Pings whom it is due to; returns whom to drop. */
    method PingAll(now: int, sends: int -> seq<Sent>) returns (drop: set<int>)
      modifies this`conns
      ensures conns.Keys == old(conns).Keys && drop <= conns.Keys
      ensures forall fd :: fd in conns ==>
                match OnTick(old(conns)[fd], now, sends(fd), w)
                case Open(p) => fd !in drop && conns[fd] == p
                case Closed(l) => fd in drop && conns[fd].log == l
    {
      var left := conns.Keys;
      drop := {};
      while left != {}
        invariant left <= conns.Keys == old(conns).Keys && drop <= conns.Keys - left
        invariant forall fd :: fd in left ==> conns[fd] == old(conns)[fd]
        invariant forall fd :: fd in conns.Keys - left ==>
                    match OnTick(old(conns)[fd], now, sends(fd), w)
                    case Open(p) => fd !in drop && conns[fd] == p
                    case Closed(l) => fd in drop && conns[fd].log == l
        decreases left
      {
        Member(left);
        var fd :| fd in left;
        var p := conns[fd];
        if !p.conn.hello && now - p.conn.openedAt > HELLO_TIMEOUT {
          drop := drop + {fd};
        } else if now - p.conn.lastPing >= PING_INTERVAL {
          p := p.(conn := p.conn.(out := p.conn.out + w.encode(Ping) + [NL]),
                  log := p.log.(msgs := p.log.msgs + [Ping]));
          conns := conns[fd := p.(conn := p.conn.(lastPing := now))];
          var ok, _ := FlushOut(fd, sends(fd));
          if !ok { drop := drop + {fd}; }
        }
        left := left - {fd};
      }
    }

    method OnTimer(now: int, sends: int -> seq<Sent>)
      modifies this
      ensures Now() == Step(old(Now()), Tick(now, sends), w)
    {
      var drop := PingAll(now, sends);
      ghost var mid := conns;
      CloseAll(drop);
      Dropped(old(Now()), mid, drop, now, sends, w);
      clock := now;
    }

    method CloseAll(drop: set<int>)
      requires drop <= conns.Keys
      modifies this
      ensures Now() == old(Now()).(conns := old(conns) - drop,
                                   closed := old(closed) + set fd | fd in drop :: old(conns)[fd].log)
    {
      var left := drop;
      while left != {}
        invariant left <= drop
        invariant Now() == old(Now()).(conns := old(conns) - (drop - left),
                                       closed := old(closed) + set fd | fd in drop - left :: old(conns)[fd].log)
        decreases left
      {
        Member(left);
        var fd :| fd in left;
        assert drop - (left - {fd}) == (drop - left) + {fd};
        Close(fd);
        left := left - {fd};
      }
      assert drop - {} == drop;
    }

    method Serve(ev: Event)
      modifies this
      ensures Now() == Step(old(Now()), ev, w)
    {
      match ev
      case Accept(now, fds) => AcceptAll(now, fds);
      case Tick(now, sends) => OnTimer(now, sends);
      case Ready(fd, io) => OnConn(fd, io);
      case Signal => stop := true;
    }

    method ServeBatch(batch: seq<Event>)
      modifies this
      ensures Now() == Steps(old(Now()), batch, w)
    {
      for i := 0 to |batch|
        invariant Now() == Steps(old(Now()), batch[..i], w)
      {
        assert batch[..i + 1][..i] == batch[..i];
        Serve(batch[i]);
      }
      assert batch[..|batch|] == batch;
    }

    /** The whole run; at its end every connection is told bye. */
    method Run(batches: seq<seq<Event>>, sends: int -> seq<Sent>)
      modifies this
      ensures var s := Batches(old(Now()), batches, w);
              stop == s.stop && clock == s.clock && conns == map[] && closed == Shutdown(s, sends, w)
    {
      var i := 0;
      while i < |batches| && !stop
        invariant i <= |batches|
        invariant Now() == Batches(old(Now()), batches[..i], w)
      {
        assert batches[..i + 1][..i] == batches[..i];
        ServeBatch(batches[i]);
        i := i + 1;
      }
      StopsForGood(old(Now()), batches, i, w);
      SayBye(sends);
    }

    /** Enqueues bye for one connection and flushes it; that a flush may fail does not matter any more. */
    method ByeTo(fd: int, sends: seq<Sent>)
      requires fd in conns
      modifies this`conns
      ensures fd in conns && conns == old(conns)[fd := conns[fd]]
      ensures conns[fd].log == Farewell(old(conns)[fd], sends, w)
    {
      var p := conns[fd];
      conns := conns[fd := p.(conn := p.conn.(out := p.conn.out + w.encode(Bye) + [NL]),
                              log := p.log.(msgs := p.log.msgs + [Bye]))];
      var ok, _ := FlushOut(fd, sends);
    }

    method SayBye(sends: int -> seq<Sent>)
      modifies this
      ensures Now() == old(Now()).(conns := map[], closed := Shutdown(old(Now()), sends, w))
    {
      var left := conns.Keys;
      while left != {}
        invariant left <= conns.Keys == old(conns).Keys
        invariant Now() == old(Now()).(conns := conns)
        invariant forall fd :: fd in left ==> conns[fd] == old(conns)[fd]
        invariant forall fd :: fd in conns.Keys - left ==> conns[fd].log == Farewell(old(conns)[fd], sends(fd), w)
        decreases left
      {
        Member(left);
        var fd :| fd in left;
        ByeTo(fd, sends(fd));
        left := left - {fd};
      }
      CloseAll(conns.Keys);
    }
  }

  lemma Dropped(s: State, mid: map<int, Peer>, drop: set<int>, now: int, sends: int -> seq<Sent>, w: Wire)
    requires mid.Keys == s.conns.Keys && drop <= mid.Keys
    requires forall fd :: fd in mid ==>
               match OnTick(s.conns[fd], now, sends(fd), w)
               case Open(p) => fd !in drop && mid[fd] == p
               case Closed(l) => fd in drop && mid[fd].log == l
    ensures mid - drop == TickAll(s, now, sends, w).conns
    ensures s.closed + (set fd | fd in drop :: mid[fd].log) == TickAll(s, now, sends, w).closed
  {
    var left := TickAll(s, now, sends, w).conns;
    forall fd ensures fd in mid - drop <==> fd in left { }
    forall fd | fd in left ensures (mid - drop)[fd] == left[fd] { }
    assert (set fd | fd in drop :: mid[fd].log)
        == set fd | fd in s.conns && OnTick(s.conns[fd], now, sends(fd), w).Closed? ::
             OnTick(s.conns[fd], now, sends(fd), w).log;
  }

  lemma {:induction false} StopsForGood(s: State, batches: seq<seq<Event>>, i: nat, w: Wire)
    requires i <= |batches| && (i == |batches| || Batches(s, batches[..i], w).stop)
    ensures Batches(s, batches, w) == Batches(s, batches[..i], w)
  {
    if i == |batches| {
      assert batches[..i] == batches;
    } else {
      assert batches[..|batches| - 1][..i] == batches[..i];
      StopsForGood(s, batches[..|batches| - 1], i, w);
    }
  }

  // ----- exactly what an event does -----

  /** Accepting: every new descriptor has a fresh connection, opened and pinged now; other connections stay, and the
      log of one that is displaced is kept. */
  lemma {:induction false} AcceptExactly(s: State, fds: seq<int>, now: int, fd: int)
    ensures var t := AdmitAll(s, fds, now);
            && t.stop == s.stop && s.closed <= t.closed
            && (fd in t.conns <==> fd in s.conns || fd in fds)
            && (fd in fds ==>
                  && t.conns[fd].conn == Conn(fd, [], [], now, now, false) && !t.conns[fd].armed
                  && t.conns[fd].log == Log([], [], [], []))
            && (fd !in fds && fd in s.conns ==> t.conns[fd] == s.conns[fd])
            && (fd in fds && fd in s.conns ==> s.conns[fd].log in t.closed)
  {
    if fds != [] {
      AcceptExactly(s, fds[..|fds| - 1], now, fd);
      assert fds == fds[..|fds| - 1] + [fds[|fds| - 1]];
    }
  }

  /** Whether a readiness event ends its connection. */
  ghost predicate Ends(p: Peer, io: Io, clients: nat, w: Wire)
  {
    var q := AfterInput(p, io, clients, w);
    var r, left := (if io.readable then Flushed(q, io.sends) else q),
                   (if io.readable then Unused(q.conn.out, io.sends) else io.sends);
    || io.hup
    || (io.readable && (!Drained(p.conn.inb, io.recvs) || SendFails(q.conn.out, io.sends)))
    || (io.writable && SendFails(r.conn.out, left))
  }

  /** Readiness: only the event's connection changes ... */
  lemma OthersStay(s: State, fd: int, io: Io, w: Wire)
    requires fd in s.conns
    ensures var t := Step(s, Ready(fd, io), w);
            && t.stop == s.stop && t.clock == s.clock && s.closed <= t.closed
            && (fd in t.conns ==> OnReady(s.conns[fd], io, |s.conns|, w) == Open(t.conns[fd]))
            && (fd in t.conns <==> OnReady(s.conns[fd], io, |s.conns|, w).Open?)
            && forall g :: g != fd ==>
                 (g in t.conns <==> g in s.conns) && (g in s.conns ==> t.conns[g] == s.conns[g])
  {
  }

  /** ... and it stays exactly if nothing ends it. */
  lemma ReadyStep(s: State, fd: int, io: Io, w: Wire)
    requires Healthy(s, w) && fd in s.conns
    ensures fd in Step(s, Ready(fd, io), w).conns <==> !Ends(s.conns[fd], io, |s.conns|, w)
  {
    OthersStay(s, fd, io, w);
    assert |s.conns[fd].conn.inb| <= MAX_LINE;
    ReadyExactly(s.conns[fd], io, |s.conns|, w);
  }

  /** And then all that came in is received and each of its lines handled. */
  lemma ReadyReceives(p: Peer, io: Io, clients: nat, w: Wire)
    requires |p.conn.inb| <= MAX_LINE && OnReady(p, io, clients, w).Open?
    ensures var q, input := OnReady(p, io, clients, w).peer, if io.readable then Incoming(io.recvs) else [];
            && q.log.received == p.log.received + input
            && q.log.handled == p.log.handled
                                + (if io.readable then Handlings(Handled(p.conn.inb + input), io.envs, 0, clients)
                                   else [])
            && q.conn.openedAt == p.conn.openedAt && q.conn.lastPing == p.conn.lastPing
  {
    ReadyExactly(p, io, clients, w);
    if io.readable { InputIsAnswered(p, io, clients, w); } else { Nothing(p); }
  }

  lemma Nothing(p: Peer)
    ensures p.log.received + [] == p.log.received && p.log.handled + [] == p.log.handled
  {
  }

  /** A tick: exactly those go that never said hello and are too old, or whose due ping cannot be sent; of the others
      those that are due have one more ping, and the rest stay as they are. */
  lemma TickStep(s: State, now: int, sends: int -> seq<Sent>, w: Wire, fd: int)
    requires fd in s.conns
    ensures var p, t := s.conns[fd], Step(s, Tick(now, sends), w);
            var due := now - p.conn.lastPing >= PING_INTERVAL;
            && t.stop == s.stop && s.closed <= t.closed && t.conns.Keys <= s.conns.Keys
            && (fd !in t.conns <==>
                  || (!p.conn.hello && now - p.conn.openedAt > HELLO_TIMEOUT)
                  || (due && SendFails(p.conn.out + w.encode(Ping) + [NL], sends(fd))))
            && (fd in t.conns ==>
                  && t.conns[fd].log.msgs == p.log.msgs + (if due then [Ping] else [])
                  && t.conns[fd].conn.lastPing == (if due then now else p.conn.lastPing)
                  && (!due ==> t.conns[fd] == p))
  {
    TickDrops(s.conns[fd], now, sends(fd), w);
    TickExactly(s.conns[fd], now, sends(fd), w);
  }

  /** The relay is told to stop exactly by a signal. */
  lemma {:induction false} OnlySignalsStop(s: State, evs: seq<Event>, w: Wire)
    ensures Steps(s, evs, w).stop <==> s.stop || Signal in evs
  {
    if evs != [] {
      var pre, ev := evs[..|evs| - 1], evs[|evs| - 1];
      OnlySignalsStop(s, pre, w);
      assert evs == pre + [ev];
      if ev.Accept? {
        AcceptExactly(Steps(s, pre, w), ev.fds, ev.now, 0);
      }
    }
  }

  function Flat(batches: seq<seq<Event>>): seq<Event>
  {
    if batches == [] then [] else Flat(batches[..|batches| - 1]) + batches[|batches| - 1]
  }

  /** As long as no signal came, every event is served. */
  lemma {:induction false} AllServed(s: State, batches: seq<seq<Event>>, w: Wire)
    requires !s.stop && Signal !in Flat(batches)
    ensures ServedEvents(s, batches, w) == Flat(batches) && !Batches(s, batches, w).stop
  {
    if batches != [] {
      var pre := batches[..|batches| - 1];
      assert forall ev :: ev in Flat(pre) ==> ev in Flat(batches);
      AllServed(s, pre, w);
      BatchesAreSteps(s, batches, w);
      OnlySignalsStop(s, Flat(batches), w);
    }
  }

  /** With the first signal its batch is served to the end, and nothing after it. */
  lemma {:induction false} NoneServedAfterASignal(s: State, before: seq<seq<Event>>, batch: seq<Event>,
        after: seq<seq<Event>>, w: Wire)
    requires !s.stop && Signal !in Flat(before) && Signal in batch
    ensures ServedEvents(s, before + [batch] + after, w) == Flat(before) + batch
    ensures Batches(s, before + [batch] + after, w).stop
    decreases |after|
  {
    var all := before + [batch] + after;
    if after == [] {
      AllServed(s, before, w);
      assert all[..|all| - 1] == before && all[|all| - 1] == batch;
      OnlySignalsStop(Batches(s, before, w), batch, w);
    } else {
      NoneServedAfterASignal(s, before, batch, after[..|after| - 1], w);
      assert all[..|all| - 1] == before + [batch] + after[..|after| - 1];
      assert ServedEvents(s, all[..|all| - 1], w) + [] == ServedEvents(s, all[..|all| - 1], w);
    }
  }

  /** Every connection open at shutdown is told bye, as its last message, and nothing else of it changes. */
  lemma FarewellSaysBye(s: State, sends: int -> seq<Sent>, w: Wire, fd: int)
    requires fd in s.conns
    ensures var p, l := s.conns[fd], Farewell(s.conns[fd], sends(fd), w);
            && l in Shutdown(s, sends, w)
            && l.msgs == p.log.msgs + [Bye] && l.received == p.log.received && l.handled == p.log.handled
            && var out := p.conn.out + w.encode(Bye) + [NL];
               !SendFails(out, sends(fd)) ==> l.sent + Unsent(out, sends(fd)) == p.log.sent + out
  {
    var q := Enqueue(s.conns[fd], Bye, w);
    FlushExactly(q, sends(fd));
    FlushKeepsRest(q, sends(fd));
    var left := Unsent(q.conn.out, sends(fd));
    assert left == q.conn.out[|q.conn.out| - |left|..];
    assert q.conn.out[..|q.conn.out| - |left|] + left == q.conn.out;
    Assoc(q.log.sent, q.conn.out[..|q.conn.out| - |left|], left);
  }

  lemma {:induction false} FlushKeepsRest(p: Peer, sends: seq<Sent>)
    ensures match Flush(p, sends).0
            case Open(q) => q.log == p.log.(sent := q.log.sent)
            case Closed(l) => l == p.log.(sent := l.sent)
    decreases |sends|
  {
    if p.conn.out != [] && sends != [] && sends[0].Took? && sends[0].n > 0 {
      FlushKeepsRest(Gone(p, sends[0].n), sends[1..]);
    }
  }

  // ----- what holds between events, over every run -----

  ghost predicate Healthy(s: State, w: Wire)
  {
    && (forall fd :: fd in s.conns ==> Good(s.conns[fd], fd, s.clock, w))
    && (forall l :: l in s.closed ==> InOrder(l, w))
  }

  /** The clock does not run backwards. */
  predicate OnTime(s: State, ev: Event)
  {
    match ev
    case Accept(now, _) => s.clock <= now
    case Tick(now, _) => s.clock <= now
    case _ => true
  }

  ghost predicate AllOnTime(s: State, evs: seq<Event>, w: Wire)
  {
    forall i :: 0 <= i < |evs| ==> OnTime(Steps(s, evs[..i], w), evs[i])
  }

  lemma {:induction false} AdmitHealthy(s: State, fds: seq<int>, now: int, w: Wire)
    requires Healthy(s, w) && s.clock == now
    ensures Healthy(AdmitAll(s, fds, now), w) && AdmitAll(s, fds, now).clock == now
  {
    if fds != [] {
      AdmitHealthy(s, fds[..|fds| - 1], now, w);
      FreshGood(fds[|fds| - 1], now, w);
      var t := AdmitAll(s, fds[..|fds| - 1], now);
      if fds[|fds| - 1] in t.conns { AccountedIsInOrder(t.conns[fds[|fds| - 1]], w); }
    }
  }

  lemma {:induction false} AdmitIgnoresClock(s: State, fds: seq<int>, now: int, c: int)
    ensures AdmitAll(s.(clock := c), fds, now) == AdmitAll(s, fds, now).(clock := c)
  {
    if fds != [] { AdmitIgnoresClock(s, fds[..|fds| - 1], now, c); }
  }

  /** After a tick every surviving connection has said hello or is at most 60 s old, and was last pinged less
      than 30 s ago. */
  ghost predicate Attended(s: State)
  {
    forall fd :: fd in s.conns ==>
      && (s.conns[fd].conn.hello || s.clock - s.conns[fd].conn.openedAt <= HELLO_TIMEOUT)
      && s.clock - s.conns[fd].conn.lastPing < PING_INTERVAL
  }

  lemma TickHealthy(s: State, now: int, sends: int -> seq<Sent>, w: Wire)
    requires Healthy(s, w) && s.clock <= now
    ensures Healthy(Step(s, Tick(now, sends), w), w) && Attended(Step(s, Tick(now, sends), w))
  {
    forall fd | fd in s.conns
      ensures Fine(OnTick(s.conns[fd], now, sends(fd), w), fd, now, w)
      ensures match OnTick(s.conns[fd], now, sends(fd), w)
              case Closed(l) => true
              case Open(q) =>
                (q.conn.hello || now - q.conn.openedAt <= HELLO_TIMEOUT) && now - q.conn.lastPing < PING_INTERVAL
    {
      TickGood(s.conns[fd], fd, s.clock, now, sends(fd), w);
    }
  }

  /** Every event keeps everything. */
  lemma StepHealthy(s: State, ev: Event, w: Wire)
    requires Healthy(s, w) && OnTime(s, ev)
    ensures Healthy(Step(s, ev, w), w)
  {
    match ev
    case Accept(now, fds) =>
      AdmitHealthy(s.(clock := now), fds, now, w);
      AdmitIgnoresClock(s, fds, now, now);
    case Tick(now, sends) => TickHealthy(s, now, sends, w);
    case Ready(fd, io) => if fd in s.conns { ReadyGood(s.conns[fd], fd, s.clock, io, |s.conns|, w); }
    case Signal =>
  }

  /** Over every run, between events: each open connection is known under its own number; its EPOLLOUT is
      armed exactly when it has something to send, at most 4 MiB; bytes sent plus buffered are exactly its
      framed messages; its handled lines plus its buffer, at most 64 KiB without a newline, are exactly what
      it received; each reply answers its line; it was pinged at most once in 30 s.  Logs of closed
      connections are in order. */
  lemma {:induction false} RunHealthy(s: State, evs: seq<Event>, w: Wire)
    requires Healthy(s, w) && AllOnTime(s, evs, w)
    ensures Healthy(Steps(s, evs, w), w)
  {
    if evs != [] {
      var pre := evs[..|evs| - 1];
      AllOnTimePrefix(s, evs, w);
      RunHealthy(s, pre, w);
      assert OnTime(Steps(s, evs[..|evs| - 1], w), evs[|evs| - 1]);
      StepHealthy(Steps(s, pre, w), evs[|evs| - 1], w);
    }
  }

  /** Everything that came in on a descriptor since it was last accepted. */
  function Input(evs: seq<Event>, fd: int): Bytes
  {
    if evs == [] then [] else
    Brought(Input(evs[..|evs| - 1], fd), evs[|evs| - 1], fd)
  }

  lemma AllOnTimePrefix(s: State, evs: seq<Event>, w: Wire)
    requires evs != [] && AllOnTime(s, evs, w)
    ensures AllOnTime(s, evs[..|evs| - 1], w)
  {
    var pre := evs[..|evs| - 1];
    forall i | 0 <= i < |pre| ensures OnTime(Steps(s, pre[..i], w), pre[i]) {
      assert pre[..i] == evs[..i];
      assert OnTime(Steps(s, evs[..i], w), evs[i]);
    }
  }

  lemma {:induction false} InputIsReceived(s: State, evs: seq<Event>, w: Wire, fd: int)
    requires s.conns == map[] && Healthy(s, w) && AllOnTime(s, evs, w) && fd in Steps(s, evs, w).conns
    ensures Steps(s, evs, w).conns[fd].log.received == Input(evs, fd)
  {
    if evs != [] {
      var pre, ev := evs[..|evs| - 1], evs[|evs| - 1];
      AllOnTimePrefix(s, evs, w);
      var t := Steps(s, pre, w);
      RunHealthy(s, pre, w);
      EventReceives(t, ev, w, fd);
      if fd in t.conns { InputIsReceived(s, pre, w, fd); }
    }
  }

  /** What an event brings to a connection. */
  function Brought(was: Bytes, ev: Event, fd: int): Bytes
  {
    match ev
    case Accept(_, fds) => if fd in fds then [] else was
    case Ready(f, io) => if f == fd && io.readable then was + Incoming(io.recvs) else was
    case _ => was
  }

  lemma EventReceives(s: State, ev: Event, w: Wire, fd: int)
    requires Healthy(s, w) && fd in Step(s, ev, w).conns
    ensures fd in s.conns || (ev.Accept? && fd in ev.fds)
    ensures Step(s, ev, w).conns[fd].log.received
         == Brought(if fd in s.conns then s.conns[fd].log.received else [], ev, fd)
  {
    match ev
    case Accept(now, fds) => AcceptExactly(s, fds, now, fd);
    case Tick(now, sends) => TickReceives(s.conns[fd], now, sends(fd), w);
    case Ready(f, io) =>
      if f in s.conns {
        OthersStay(s, f, io, w);
        if f == fd { ReadyReceives(s.conns[fd], io, |s.conns|, w); }
        if f == fd && !io.readable { Nothing(s.conns[fd]); }
      }
    case Signal =>
  }

  lemma TickReceives(p: Peer, now: int, sends: seq<Sent>, w: Wire)
    ensures OnTick(p, now, sends, w).Open? ==> OnTick(p, now, sends, w).peer.log.received == p.log.received
  {
    FlushKeepsRest(Pinged(p, now, w), sends);
  }

  /** Over every run from no connections, for each connection that is open at its end: every complete non-empty line
      that came in on it since it was accepted is handled, in order, and has its answer among the messages. */
  lemma EveryLineIsAnswered(s: State, evs: seq<Event>, w: Wire, fd: int)
    requires s.conns == map[] && Healthy(s, w) && AllOnTime(s, evs, w) && fd in Steps(s, evs, w).conns
    ensures var l := Steps(s, evs, w).conns[fd].log;
            && LinesOf(l.handled) == Handled(Input(evs, fd))
            && Replies(l.msgs) == Responses(w, l.handled)
  {
    RunHealthy(s, evs, w);
    InputIsReceived(s, evs, w, fd);
    FramingIsExact(Steps(s, evs, w).conns[fd], w);
  }

  /** Shutting down leaves every log in order, bye included. */
  lemma ShutdownInOrder(s: State, sends: int -> seq<Sent>, w: Wire)
    requires Healthy(s, w)
    ensures forall l :: l in Shutdown(s, sends, w) ==> InOrder(l, w)
  {
    forall fd | fd in s.conns ensures InOrder(Farewell(s.conns[fd], sends(fd), w), w) {
      var p := Enqueue(s.conns[fd], Bye, w);
      EnqueueAccounted(s.conns[fd], Bye, w);
      FlushGood(p, sends(fd), w);
      var o := Flush(p, sends(fd)).0;
      if o.Open? { AccountedIsInOrder(o.peer, w); }
    }
  }

  /** The events a run serves: every batch up to and including the one with the stop signal. */
  function ServedEvents(s: State, batches: seq<seq<Event>>, w: Wire): seq<Event>
  {
    if batches == [] then [] else
    var pre := batches[..|batches| - 1];
    ServedEvents(s, pre, w) + if Batches(s, pre, w).stop then [] else batches[|batches| - 1]
  }

  lemma {:induction false} StepsConcat(s: State, a: seq<Event>, b: seq<Event>, w: Wire)
    ensures Steps(s, a + b, w) == Steps(Steps(s, a, w), b, w)
  {
    if b == [] {
      assert a + b == a;
    } else {
      StepsConcat(s, a, b[..|b| - 1], w);
      assert (a + b)[..|a + b| - 1] == a + b[..|b| - 1];
    }
  }

  lemma {:induction false} BatchesAreSteps(s: State, batches: seq<seq<Event>>, w: Wire)
    ensures Batches(s, batches, w) == Steps(s, ServedEvents(s, batches, w), w)
  {
    if batches != [] {
      var pre := batches[..|batches| - 1];
      BatchesAreSteps(s, pre, w);
      if Batches(s, pre, w).stop {
        assert ServedEvents(s, pre, w) + [] == ServedEvents(s, pre, w);
      } else {
        StepsConcat(s, ServedEvents(s, pre, w), batches[|batches| - 1], w);
      }
    }
  }

  /** A whole life of the relay, from no connections to the last bye: the log of every connection there ever
      was is in order, so what its client handles is a beginning of what was enqueued for it. */
  lemma LifeInOrder(batches: seq<seq<Event>>, sends: int -> seq<Sent>, w: Wire)
    requires var s := State(map[], {}, false, 0); AllOnTime(s, ServedEvents(s, batches, w), w)
    ensures forall l :: l in Shutdown(Batches(State(map[], {}, false, 0), batches, w), sends, w) ==> InOrder(l, w)
  {
    var s := State(map[], {}, false, 0);
    RunHealthy(s, ServedEvents(s, batches, w), w);
    BatchesAreSteps(s, batches, w);
    ShutdownInOrder(Batches(s, batches, w), sends, w);
  }
}
