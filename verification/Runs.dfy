/** Whole runs of the collector: any interleaving of polls and purges, against the full log of polls. */
module Runs {
  import opened Aggregates
  import opened Tables

  /** One committed change of the database.  A purge is two DELETE statements, each committed on its
      own, so a run may also stop or fail between them. */
  datatype Op<P> = Record(ts: int, lives: seq<Live<P>>) | DropSamples(cutoff: int) | DropInfo(cutoff: int)

  function Apply<P(==)>(db: Db<P>, op: Op<P>): Db<P>
  {
    match op
    case Record(ts, lives) => RecordAll(db, ts, lives)
    case DropSamples(c) => db.(samples := SamplesFrom(db.samples, c))
    case DropInfo(c) => db.(info := InfoFrom(db.info, c))
  }

  function Run<P(==)>(db: Db<P>, ops: seq<Op<P>>): Db<P>
  {
    if ops == [] then db else Apply(Run(db, ops[..|ops| - 1]), ops[|ops| - 1])
  }

  /** The store that the same run leaves if nothing is ever deleted. */
  function Full<P(==)>(db: Db<P>, ops: seq<Op<P>>): Db<P>
  {
    if ops == [] then db else
    var was, op := Full(db, ops[..|ops| - 1]), ops[|ops| - 1];
    if op.Record? then RecordAll(was, op.ts, op.lives) else was
  }

  ghost predicate CutoffsUpTo<P>(ops: seq<Op<P>>, c: int)
  {
    forall op :: op in ops && !op.Record? ==> op.cutoff <= c
  }

  // ----- one channel's rows -----

  ghost predicate SameAt<V>(t: map<Key, V>, u: map<Key, V>, k: Key)
  {
    (k in t <==> k in u) && (k in t ==> t[k] == u[k])
  }

  ghost predicate SameRows<V>(t: map<Key, V>, u: map<Key, V>, id: string)
  {
    forall at :: SameAt(t, u, Key(id, at))
  }

  lemma SameRowsSameAnswers<V>(t: map<Key, V>, u: map<Key, V>, id: string)
    requires SameRows(t, u, id)
    ensures Times(t, id) == Times(u, id)
    ensures Last(t, id) == Last(u, id) && History(t, id) == History(u, id)
    ensures forall at :: InForce(t, id, at) == InForce(u, id, at)
  {
    forall at ensures at in Times(t, id) <==> at in Times(u, id) { assert SameAt(t, u, Key(id, at)); }
    assert Times(t, id) == Times(u, id);
    forall at | at in Times(t, id) ensures t[Key(id, at)] == u[Key(id, at)] { assert SameAt(t, u, Key(id, at)); }
    RowsFrame(t, u, id, Times(t, id));
  }

  // ----- purge absorption -----

  /** What a purge at c can still tell apart. */
  ghost predicate Agree<P(!new)>(a: Db<P>, b: Db<P>, c: int)
  {
    && a.channels == b.channels
    && (forall k: Key :: k.ts >= c ==> SameAt(a.samples, b.samples, k))
    && (forall k: Key :: k.ts >= c ==> SameAt(a.info, b.info, k))
    && (forall id :: Last(a.info, id) == Last(b.info, id))
  }

  lemma AgreeInsert<V(!new)>(t: map<Key, V>, u: map<Key, V>, c: int, k: Key, v: V)
    requires forall x: Key :: x.ts >= c ==> SameAt(t, u, x)
    ensures forall x: Key :: x.ts >= c ==> SameAt(InsertOrIgnore(t, k, v), InsertOrIgnore(u, k, v), x)
  {
    forall x: Key | x.ts >= c ensures SameAt(InsertOrIgnore(t, k, v), InsertOrIgnore(u, k, v), x) {
      assert SameAt(t, u, x);
    }
  }

  lemma AgreeRecordOne<P(!new)>(a: Db<P>, b: Db<P>, c: int, ts: int, l: Live<P>)
    requires Agree(a, b, c)
    ensures Agree(RecordOne(a, ts, l), RecordOne(b, ts, l), c)
  {
    AgreeInsert(a.samples, b.samples, c, Key(l.id, ts), l.viewers);
    assert Unchanged(a.info, l.id, l.pair) == Unchanged(b.info, l.id, l.pair);
    if !Unchanged(a.info, l.id, l.pair) {
      AgreeInsert(a.info, b.info, c, Key(l.id, ts), l.pair);
      forall id ensures Last(RecordOne(a, ts, l).info, id) == Last(RecordOne(b, ts, l).info, id) {
        LastAfterInsert(a.info, Key(l.id, ts), l.pair, id);
        LastAfterInsert(b.info, Key(l.id, ts), l.pair, id);
      }
    }
  }

  lemma {:induction false} AgreeRecord<P(!new)>(a: Db<P>, b: Db<P>, c: int, ts: int, lives: seq<Live<P>>)
    requires Agree(a, b, c)
    ensures Agree(RecordAll(a, ts, lives), RecordAll(b, ts, lives), c)
  {
    if lives != [] {
      var pre, l := lives[..|lives| - 1], lives[|lives| - 1];
      AgreeRecord(a, b, c, ts, pre);
      AgreeRecordOne(RecordAll(a, ts, pre), RecordAll(b, ts, pre), c, ts, l);
    }
  }

  lemma AgreeDelete<P(!new)>(a: Db<P>, b: Db<P>, c: int, op: Op<P>)
    requires Agree(a, b, c) && !op.Record? && op.cutoff <= c
    ensures Agree(Apply(a, op), b, c)
  {
    forall id { LastAfterPurge(a.info, op.cutoff, id); }
  }

  lemma AgreePurged<P(!new)>(a: Db<P>, b: Db<P>, c: int)
    requires Agree(a, b, c)
    ensures Purge(a, c) == Purge(b, c)
  {
    forall k: Key ensures SameAt(InfoFrom(a.info, c), InfoFrom(b.info, c), k) {
      assert Last(a.info, k.id) == Last(b.info, k.id);
      assert k in a.info ==> k.ts in Times(a.info, k.id);
      assert k in b.info ==> k.ts in Times(b.info, k.id);
    }
    assert InfoFrom(a.info, c) == InfoFrom(b.info, c) by {
      forall k: Key | k in InfoFrom(a.info, c) || k in InfoFrom(b.info, c)
        ensures k in InfoFrom(a.info, c) && k in InfoFrom(b.info, c) && InfoFrom(a.info, c)[k] == InfoFrom(b.info, c)[k]
      { assert SameAt(InfoFrom(a.info, c), InfoFrom(b.info, c), k); }
    }
    assert SamplesFrom(a.samples, c) == SamplesFrom(b.samples, c) by {
      forall k: Key | k in SamplesFrom(a.samples, c) || k in SamplesFrom(b.samples, c)
        ensures k in SamplesFrom(a.samples, c) && k in SamplesFrom(b.samples, c) && a.samples[k] == b.samples[k]
      { assert SameAt(a.samples, b.samples, k); }
    }
  }

  lemma {:induction false} AgreeRun<P(!new)>(db: Db<P>, ops: seq<Op<P>>, c: int)
    requires CutoffsUpTo(ops, c)
    ensures Agree(Run(db, ops), Full(db, ops), c)
  {
    if ops != [] {
      var pre, op := ops[..|ops| - 1], ops[|ops| - 1];
      AgreeRun(db, pre, c);
      if op.Record? {
        AgreeRecord(Run(db, pre), Full(db, pre), c, op.ts, op.lives);
      } else {
        AgreeDelete(Run(db, pre), Full(db, pre), c, op);
      }
    }
  }

  /** A final purge at c hides whether any earlier purge with a cutoff up to c ever ran: for every
      starting database, every record time, repeated channels included. */
  lemma PurgeAbsorption<P(!new)>(db: Db<P>, ops: seq<Op<P>>, c: int)
    requires CutoffsUpTo(ops, c)
    ensures Purge(Run(db, ops), c) == Purge(Full(db, ops), c)
  {
    AgreeRun(db, ops, c);
    AgreePurged(Run(db, ops), Full(db, ops), c);
  }

  // ----- what a run forgets -----

  ghost predicate InfoBefore<P>(info: map<Key, P>, ts: int)
  {
    forall k :: k in info ==> k.ts < ts
  }

  /** No poll is earlier than a poll before it or than a row already there. */
  ghost predicate LaterPolls<P>(db: Db<P>, ops: seq<Op<P>>)
  {
    && (forall i, j :: 0 <= i < j < |ops| && ops[i].Record? && ops[j].Record? ==> ops[i].ts <= ops[j].ts)
    && (forall op :: op in ops && op.Record? ==> InfoBefore(db.info, op.ts + 1))
  }

  lemma {:induction false} PollNewKeys<P>(db: Db<P>, ts: int, lives: seq<Live<P>>)
    ensures forall k :: k in RecordAll(db, ts, lives).info ==> k in db.info || k.ts == ts
  {
    if lives != [] { PollNewKeys(db, ts, lives[..|lives| - 1]); }
  }

  lemma {:induction false} KeepsOldRows<P>(db: Db<P>, ts: int, lives: seq<Live<P>>)
    ensures forall k :: k in db.info ==>
              k in RecordAll(db, ts, lives).info && RecordAll(db, ts, lives).info[k] == db.info[k]
  {
    if lives != [] { KeepsOldRows(db, ts, lives[..|lives| - 1]); }
  }

  lemma {:induction false} FullBound<P>(db: Db<P>, ops: seq<Op<P>>, b: int)
    requires InfoBefore(db.info, b)
    requires forall op :: op in ops && op.Record? ==> op.ts < b
    ensures InfoBefore(Full(db, ops).info, b)
  {
    if ops != [] {
      var pre, op := ops[..|ops| - 1], ops[|ops| - 1];
      assert forall o :: o in pre ==> o in ops;
      assert op in ops;
      FullBound(db, pre, b);
      if op.Record? { PollNewKeys(Full(db, pre), op.ts, op.lives); }
    }
  }

  /** What is true of a run of later polls is true of its beginnings. */
  lemma LaterPrefix<P>(db: Db<P>, ops: seq<Op<P>>)
    requires LaterPolls(db, ops) && ops != []
    ensures LaterPolls(db, ops[..|ops| - 1])
    ensures ops[|ops| - 1].Record? ==> InfoBefore(Full(db, ops[..|ops| - 1]).info, ops[|ops| - 1].ts + 1)
  {
    var pre, op := ops[..|ops| - 1], ops[|ops| - 1];
    assert forall o :: o in pre ==> o in ops;
    assert op in ops;
    if op.Record? { FullBound(db, pre, op.ts + 1); }
  }

  /** Whether some deletion of the run found a row of the full history stale: older than its cutoff when a newer
      row of the channel was already there. */
  ghost predicate Forgotten<P(!new)>(db: Db<P>, ops: seq<Op<P>>, k: Key)
  {
    ops != [] &&
    var pre, op := ops[..|ops| - 1], ops[|ops| - 1];
    Forgotten(db, pre, k) || (op.DropInfo? && Stale(Full(db, pre).info, k, op.cutoff))
  }

  /** A forgotten row was older than some cutoff, and its channel has a newer row. */
  lemma {:induction false} ForgottenIsOld<P(!new)>(db: Db<P>, ops: seq<Op<P>>, k: Key)
    requires Forgotten(db, ops, k)
    ensures k in Full(db, ops).info && exists u :: u > k.ts && Key(k.id, u) in Full(db, ops).info
    ensures exists j :: 0 <= j < |ops| && ops[j].DropInfo? && k.ts < ops[j].cutoff
  {
    var pre, op := ops[..|ops| - 1], ops[|ops| - 1];
    var was := Full(db, pre).info;
    if Forgotten(db, pre, k) {
      ForgottenIsOld(db, pre, k);
      var j :| 0 <= j < |pre| && pre[j].DropInfo? && k.ts < pre[j].cutoff;
      assert ops[j].DropInfo?;
    } else {
      assert Key(k.id, MaxOf(Times(was, k.id)).value) in was;
    }
    if op.Record? {
      KeepsOldRows(Full(db, pre), op.ts, op.lives);
      var u :| u > k.ts && Key(k.id, u) in was;
      assert Key(k.id, u) in Full(db, ops).info;
    }
  }

  /** Older rows of the channel are forgotten with it. */
  lemma {:induction false} OlderAreForgotten<P(!new)>(db: Db<P>, ops: seq<Op<P>>, k: Key, u: int)
    requires LaterPolls(db, ops) && Forgotten(db, ops, k) && u <= k.ts && Key(k.id, u) in Full(db, ops).info
    ensures Forgotten(db, ops, Key(k.id, u))
  {
    var pre, op := ops[..|ops| - 1], ops[|ops| - 1];
    LaterPrefix(db, ops);
    if Forgotten(db, pre, k) {
      ForgottenIsOld(db, pre, k);
      if op.Record? { PollNewKeys(Full(db, pre), op.ts, op.lives); }
      OlderAreForgotten(db, pre, k, u);
    }
  }

  /** Two stores with the same newest rows, one of them with fewer old ones: a poll adds the same rows to both. */
  lemma {:induction false} PollAlike<P(!new)>(a: Db<P>, b: Db<P>, ts: int, lives: seq<Live<P>>)
    requires InfoBefore(b.info, ts + 1)
    requires forall id :: Last(a.info, id) == Last(b.info, id)
    requires forall k :: k in a.info ==> k in b.info && a.info[k] == b.info[k]
    ensures var a', b' := RecordAll(a, ts, lives).info, RecordAll(b, ts, lives).info;
            && InfoBefore(b', ts + 1)
            && (forall id :: Last(a', id) == Last(b', id))
            && (forall k :: k in a' <==> k in a.info || (k in b' && k !in b.info))
            && (forall k :: k in a' ==> k in b' && a'[k] == b'[k])
  {
    if lives != [] {
      var pre, l := lives[..|lives| - 1], lives[|lives| - 1];
      PollAlike(a, b, ts, pre);
      KeepsOldRows(b, ts, pre);
      NoteAlike(RecordAll(a, ts, pre).info, RecordAll(b, ts, pre).info, l.id, ts, l.pair);
    }
  }

  lemma NoteAlike<P(!new)>(a: map<Key, P>, b: map<Key, P>, id: string, ts: int, pair: P)
    requires InfoBefore(b, ts + 1)
    requires forall c :: Last(a, c) == Last(b, c)
    requires forall k :: k in a ==> k in b && a[k] == b[k]
    ensures var a', b' := NoteInfo(a, id, ts, pair), NoteInfo(b, id, ts, pair);
            && (forall c :: Last(a', c) == Last(b', c))
            && (forall k :: k in a' <==> k in a || (k in b' && k !in b))
            && (forall k :: k in a' ==> k in b' && a'[k] == b'[k])
  {
    assert Last(a, id) == Last(b, id);
    if Key(id, ts) in b {
      assert ts in Times(b, id);
      assert Last(b, id).value.ts in Times(b, id) && Last(b, id).value.ts == ts;
      assert ts in Times(a, id);
    }
    if !Unchanged(a, id, pair) {
      forall c ensures Last(NoteInfo(a, id, ts, pair), c) == Last(NoteInfo(b, id, ts, pair), c) {
        assert Last(a, c) == Last(b, c);
        LastAfterInsert(a, Key(id, ts), pair, c);
        LastAfterInsert(b, Key(id, ts), pair, c);
      }
    }
  }

  /** The rows of any run: those of the full history that no deletion found stale.  The newest always stays. */
  lemma {:induction false} RunRows<P(!new)>(db: Db<P>, ops: seq<Op<P>>)
    requires LaterPolls(db, ops)
    ensures forall id :: Last(Run(db, ops).info, id) == Last(Full(db, ops).info, id)
    ensures forall k :: k in Run(db, ops).info <==> k in Full(db, ops).info && !Forgotten(db, ops, k)
    ensures forall k :: k in Run(db, ops).info ==> Run(db, ops).info[k] == Full(db, ops).info[k]
  {
    if ops != [] {
      var pre, op := ops[..|ops| - 1], ops[|ops| - 1];
      LaterPrefix(db, ops);
      RunRows(db, pre);
      var a, b := Run(db, pre), Full(db, pre);
      match op
      case Record(ts, lives) =>
        PollAlike(a, b, ts, lives);
        KeepsOldRows(b, ts, lives);
        forall k | Forgotten(db, pre, k) ensures k in b.info { ForgottenIsOld(db, pre, k); }
      case DropInfo(c) =>
        forall id ensures Last(InfoFrom(a.info, c), id) == Last(b.info, id) { LastAfterPurge(a.info, c, id); }
        forall k | k in a.info ensures Stale(a.info, k, c) <==> Stale(b.info, k, c) {
          assert k.ts in Times(a.info, k.id) && k.ts in Times(b.info, k.id);
          assert Last(a.info, k.id) == Last(b.info, k.id);
        }
      case DropSamples(_) =>
    }
  }

  /** Whether the row that the full history has in force at a time is forgotten. */
  ghost predicate Lost<P(!new)>(db: Db<P>, ops: seq<Op<P>>, id: string, at: int)
  {
    var r := InForce(Full(db, ops).info, id, at);
    r.Some? && Forgotten(db, ops, Key(id, r.value.ts))
  }

  /** Exactly what a run forgets, at every time: the row of the full history is still in force, or none is, and
      none if that row was forgotten.  Never from a channel's newest row on. */
  lemma ForgetsExactly<P(!new)>(db: Db<P>, ops: seq<Op<P>>, id: string, at: int)
    requires LaterPolls(db, ops)
    ensures InForce(Run(db, ops).info, id, at)
         == if Lost(db, ops, id, at) then None else InForce(Full(db, ops).info, id, at)
    ensures (forall u :: Key(id, u) in Run(db, ops).info ==> u <= at) ==> !Lost(db, ops, id, at)
  {
    var part, full := Run(db, ops).info, Full(db, ops).info;
    var r := InForce(full, id, at);
    RunRows(db, ops);
    if Lost(db, ops, id, at) {
      forall u | u <= at ensures Key(id, u) !in part {
        if Key(id, u) in full { OlderAreForgotten(db, ops, Key(id, r.value.ts), u); }
      }
      var m := Last(full, id);
      assert r.value.ts in Times(full, id) && m == Last(part, id);
      assert m.value.ts in Times(part, id) && Key(id, m.value.ts) in part;
    } else if r.Some? {
      assert Key(id, r.value.ts) in part;
    }
  }

  /** In closed form right after a purge that dominates all earlier ones, whatever the record times. */
  lemma ForgetsAfterPurge<P(!new)>(db: Db<P>, ops: seq<Op<P>>, c: int, id: string, at: int)
    requires CutoffsUpTo(ops, c)
    ensures var full := Full(db, ops).info;
            var r, r' := InForce(full, id, at), InForce(Purge(Run(db, ops), c).info, id, at);
            (r' == r || r' == None) && (r' == r <==> r.None? || r.value.ts >= c || r == Last(full, id))
  {
    PurgeAbsorption(db, ops, c);
    PurgedAsOf(Full(db, ops).info, c, id, at);
  }

  // ----- the full log of polls -----

  /** Everything a poll says about a channel. */
  function SeenPairs<P>(lives: seq<Live<P>>, id: string): set<P>
  {
    set l | l in lives && l.id == id :: l.pair
  }

  /** Everything the log says about a channel at one time, a row there at the start included. */
  function SaidAt<P>(db: Db<P>, ops: seq<Op<P>>, id: string, ts: int): set<P>
  {
    if ops == [] then (if Key(id, ts) in db.info then {db.info[Key(id, ts)]} else {}) else
    var op := ops[|ops| - 1];
    SaidAt(db, ops[..|ops| - 1], id, ts) + if op.Record? && op.ts == ts then SeenPairs(op.lives, id) else {}
  }

  /** The last time, not after `at`, at which the log says something about a channel: that of the last poll that
      saw it, or of the row in force at the start. */
  function LastSaid<P(==)>(db: Db<P>, ops: seq<Op<P>>, id: string, at: int): Option<int>
  {
    if ops == [] then InForceTs(db.info, id, at) else
    var op := ops[|ops| - 1];
    if op.Record? && op.ts <= at && SeenPairs(op.lives, id) != {} then Some(op.ts)
    else LastSaid(db, ops[..|ops| - 1], id, at)
  }

  lemma NoteEffect<P>(info: map<Key, P>, id: string, ts: int, pair: P, at: int)
    requires forall u :: u in Times(info, id) ==> u <= ts
    ensures var a, a' := AsOf(info, id, at), AsOf(NoteInfo(info, id, ts, pair), id, at);
            if at < ts then a' == a else a' == Some(pair) || (Key(id, ts) in info && a' == Some(info[Key(id, ts)]))
  {
    var info' := NoteInfo(info, id, ts, pair);
    var r, r' := InForce(info, id, at), InForce(info', id, at);
    if Unchanged(info, id, pair) && ts <= at {
      var m := Last(info, id).value.ts;
      assert m in Times(info, id) && Key(id, m) in info;
      assert r.Some? && r.value.ts in Times(info, id);
    }
    if r'.Some? && ts <= at && Key(id, ts) in info' { assert r'.value.ts in Times(info', id); }
  }

  lemma NoteElsewhere<P>(info: map<Key, P>, id: string, ts: int, pair: P, other: string)
    requires id != other
    ensures SameRows(info, NoteInfo(info, id, ts, pair), other)
    ensures forall at :: AsOf(info, other, at) == AsOf(NoteInfo(info, id, ts, pair), other, at)
    ensures History(info, other) == History(NoteInfo(info, id, ts, pair), other)
  {
    assert SameRows(info, NoteInfo(info, id, ts, pair), other);
    SameRowsSameAnswers(info, NoteInfo(info, id, ts, pair), other);
  }

  lemma SeenMore<P>(lives: seq<Live<P>>, id: string)
    requires lives != []
    ensures var pre, l := lives[..|lives| - 1], lives[|lives| - 1];
            SeenPairs(lives, id) == SeenPairs(pre, id) + if l.id == id then {l.pair} else {}
  {
    var pre, l := lives[..|lives| - 1], lives[|lives| - 1];
    assert lives == pre + [l];
    assert forall o :: o in lives ==> o in pre || o == l;
  }

  /** A poll answers for itself with one of its own entries, or with the row that was already there at its time; for
      earlier times it changes nothing. */
  lemma {:induction false} PollEffect<P>(db: Db<P>, ts: int, lives: seq<Live<P>>, id: string, at: int)
    requires InfoBefore(db.info, ts + 1)
    ensures var info', s := RecordAll(db, ts, lives).info, SeenPairs(lives, id);
            var a, a', k := AsOf(db.info, id, at), AsOf(info', id, at), Key(id, ts);
            && (if at < ts || s == {} then a' == a
                else a'.Some? && (a'.value in s || (k in db.info && a'.value == db.info[k])))
            && (k in info' ==> (k in db.info && info'[k] == db.info[k]) || info'[k] in s)
  {
    if lives != [] {
      var pre, l := lives[..|lives| - 1], lives[|lives| - 1];
      PollEffect(db, ts, pre, id, at);
      PollNewKeys(db, ts, pre);
      SeenMore(lives, id);
      var was := RecordAll(db, ts, pre).info;
      if l.id == id {
        NoteEffect(was, id, ts, l.pair, at);
      } else {
        NoteElsewhere(was, l.id, ts, l.pair, id);
      }
    }
  }

  /** Every row of the full history was said at its time. */
  lemma {:induction false} RowWasSaid<P>(db: Db<P>, ops: seq<Op<P>>, k: Key)
    requires LaterPolls(db, ops) && k in Full(db, ops).info
    ensures Full(db, ops).info[k] in SaidAt(db, ops, k.id, k.ts)
  {
    if ops != [] {
      var pre, op := ops[..|ops| - 1], ops[|ops| - 1];
      LaterPrefix(db, ops);
      var was := Full(db, pre);
      if op.Record? {
        PollNewKeys(was, op.ts, op.lives);
        KeepsOldRows(was, op.ts, op.lives);
        if k.ts == op.ts { PollEffect(was, op.ts, op.lives, k.id, k.ts); }
      }
      if k in was.info { RowWasSaid(db, pre, k); }
    }
  }

  /** The full history answers whenever the log can, with something said at the last time it says anything. */
  lemma {:induction false} FullAnswers<P>(db: Db<P>, ops: seq<Op<P>>, id: string, at: int)
    requires LaterPolls(db, ops)
    ensures var a, t := AsOf(Full(db, ops).info, id, at), LastSaid(db, ops, id, at);
            (a.None? <==> t.None?) && (a.Some? ==> a.value in SaidAt(db, ops, id, t.value))
  {
    if ops != [] {
      var pre, op := ops[..|ops| - 1], ops[|ops| - 1];
      LaterPrefix(db, ops);
      FullAnswers(db, pre, id, at);
      if op.Record? {
        PollEffect(Full(db, pre), op.ts, op.lives, id, at);
        if Key(id, op.ts) in Full(db, pre).info { RowWasSaid(db, pre, Key(id, op.ts)); }
      }
    }
  }

  /** The compressed, purged table against the full log, over every run, even if polls name channels repeatedly or
      fall on one time: the table answers with something said at the last time the log says anything of the
      channel.  It answers exactly when the log can and the row was not forgotten. */
  lemma AnswersSomeEntry<P(!new)>(db: Db<P>, ops: seq<Op<P>>, id: string, at: int)
    requires LaterPolls(db, ops)
    ensures var a, t := AsOf(Run(db, ops).info, id, at), LastSaid(db, ops, id, at);
            && (a.None? <==> t.None? || Lost(db, ops, id, at))
            && (a.Some? ==> a.value in SaidAt(db, ops, id, t.value))
            && ((forall u :: Key(id, u) in Run(db, ops).info ==> u <= at) ==> (a.None? <==> t.None?))
  {
    ForgetsExactly(db, ops, id, at);
    FullAnswers(db, ops, id, at);
  }

  /** No other poll of the run has the same time. */
  ghost predicate Alone<P>(ops: seq<Op<P>>, i: int)
  {
    && 0 <= i < |ops| && ops[i].Record?
    && forall j :: 0 <= j < |ops| && ops[j].Record? && ops[j].ts == ops[i].ts ==> j == i
  }

  lemma {:induction false} SaidAtPoll<P>(db: Db<P>, ops: seq<Op<P>>, i: int, id: string)
    requires 0 <= i < |ops| && ops[i].Record?
    ensures SeenPairs(ops[i].lives, id) <= SaidAt(db, ops, id, ops[i].ts)
    ensures Alone(ops, i) && Key(id, ops[i].ts) !in db.info ==>
              SaidAt(db, ops, id, ops[i].ts) == SeenPairs(ops[i].lives, id)
  {
    var pre, ts := ops[..|ops| - 1], ops[i].ts;
    if i < |pre| {
      assert Alone(ops, i) ==> Alone(pre, i);
      SaidAtPoll(db, pre, i, id);
    } else if Alone(ops, i) && Key(id, ts) !in db.info {
      assert forall op :: op in pre && op.Record? ==> op.ts != ts;
      NothingSaid(db, pre, id, ts);
    }
  }

  lemma {:induction false} NothingSaid<P>(db: Db<P>, ops: seq<Op<P>>, id: string, ts: int)
    requires Key(id, ts) !in db.info && forall op :: op in ops && op.Record? ==> op.ts != ts
    ensures SaidAt(db, ops, id, ts) == {}
  {
    if ops != [] {
      assert ops[|ops| - 1] in ops;
      assert forall o :: o in ops[..|ops| - 1] ==> o in ops;
      NothingSaid(db, ops[..|ops| - 1], id, ts);
    }
  }

  /** At a polled (channel, time) the table has something said then, unless that was forgotten; something that very
      poll said, if it was the only one at its time. */
  lemma {:induction false} PolledEntry<P(!new)>(db: Db<P>, ops: seq<Op<P>>, i: int, id: string)
    requires LaterPolls(db, ops) && 0 <= i < |ops| && ops[i].Record? && SeenPairs(ops[i].lives, id) != {}
    ensures var a := AsOf(Run(db, ops).info, id, ops[i].ts);
            && (a.None? <==> Lost(db, ops, id, ops[i].ts))
            && (a.Some? ==> a.value in SaidAt(db, ops, id, ops[i].ts))
            && (a.Some? && Alone(ops, i) && Key(id, ops[i].ts) !in db.info ==> a.value in SeenPairs(ops[i].lives, id))
  {
    LastSaidAtPoll(db, ops, i, id);
    SaidAtPoll(db, ops, i, id);
    AnswersSomeEntry(db, ops, id, ops[i].ts);
  }

  lemma {:induction false} LastSaidAtPoll<P>(db: Db<P>, ops: seq<Op<P>>, i: int, id: string)
    requires LaterPolls(db, ops) && 0 <= i < |ops| && ops[i].Record? && SeenPairs(ops[i].lives, id) != {}
    ensures LastSaid(db, ops, id, ops[i].ts) == Some(ops[i].ts)
  {
    if i < |ops| - 1 {
      LaterPrefix(db, ops);
      LastSaidAtPoll(db, ops[..|ops| - 1], i, id);
    }
  }

  // ----- polls that name each channel once -----

  predicate Distinct<P>(lives: seq<Live<P>>)
  {
    forall i, j :: 0 <= i < j < |lives| ==> lives[i].id != lives[j].id
  }

  /** Polls at strictly increasing times, all later than the rows already there, no poll naming a
      channel twice. */
  ghost predicate Polls<P>(db: Db<P>, ops: seq<Op<P>>)
  {
    && StrictlyIncreasing(ops)
    && (forall op :: op in ops && op.Record? ==> Distinct(op.lives) && InfoBefore(db.info, op.ts))
  }

  ghost predicate StrictlyIncreasing<P>(ops: seq<Op<P>>)
  {
    forall i, j :: 0 <= i < j < |ops| && ops[i].Record? && ops[j].Record? ==> ops[i].ts < ops[j].ts
  }

  /** What a poll says about a channel. */
  function Seen<P>(lives: seq<Live<P>>, id: string): (r: Option<P>)
    ensures r.None? <==> SeenPairs(lives, id) == {}
    ensures r.Some? ==> r.value in SeenPairs(lives, id)
    ensures Distinct(lives) && r.Some? ==> SeenPairs(lives, id) == {r.value}
  {
    if lives == [] then None else
    var pre, l := lives[..|lives| - 1], lives[|lives| - 1];
    SeenMore(lives, id);
    assert l.id == id && Distinct(lives) ==> forall o :: o in pre ==> o.id != id;
    if l.id == id then Some(l.pair) else Seen(pre, id)
  }

  /** The answer of the full log: what the last poll at or before `at` that saw the channel observed;
      before any such poll, what the database said at the start. */
  function Truth<P>(db: Db<P>, ops: seq<Op<P>>, id: string, at: int): Option<P>
  {
    if ops == [] then AsOf(db.info, id, at) else
    var op := ops[|ops| - 1];
    if op.Record? && op.ts <= at && Seen(op.lives, id).Some? then Seen(op.lives, id)
    else Truth(db, ops[..|ops| - 1], id, at)
  }

  lemma PollsPrefix<P>(db: Db<P>, ops: seq<Op<P>>)
    requires Polls(db, ops) && ops != []
    ensures Polls(db, ops[..|ops| - 1])
    ensures ops[|ops| - 1].Record? ==> forall op :: op in ops[..|ops| - 1] && op.Record? ==> op.ts < ops[|ops| - 1].ts
  {
    assert forall o :: o in ops[..|ops| - 1] ==> o in ops;
  }

  /** Then the log says one thing at a time. */
  lemma {:induction false} TruthIsSaid<P>(db: Db<P>, ops: seq<Op<P>>, id: string, at: int)
    requires Polls(db, ops)
    ensures var t, v := LastSaid(db, ops, id, at), Truth(db, ops, id, at);
            && (t.None? <==> v.None?)
            && (t.Some? ==> SaidAt(db, ops, id, t.value) == {v.value})
            && forall b :: t.Some? && InfoBefore(db.info, b) && (forall op :: op in ops && op.Record? ==> op.ts < b)
                           ==> t.value < b
  {
    if ops != [] {
      var pre, op := ops[..|ops| - 1], ops[|ops| - 1];
      PollsPrefix(db, ops);
      assert forall o :: o in pre ==> o in ops;
      assert op in ops;
      TruthIsSaid(db, pre, id, at);
      if op.Record? { NothingSaid(db, pre, id, op.ts); }
    }
  }

  /** The table against the log of such polls: at any time whatever it says what the log says, or nothing, and
      nothing exactly when that was forgotten. */
  lemma AnswersTheLog<P(!new)>(db: Db<P>, ops: seq<Op<P>>, id: string, at: int)
    requires Polls(db, ops)
    ensures AsOf(Run(db, ops).info, id, at) == if Lost(db, ops, id, at) then None else Truth(db, ops, id, at)
    ensures (forall u :: Key(id, u) in Run(db, ops).info ==> u <= at) ==>
              AsOf(Run(db, ops).info, id, at) == Truth(db, ops, id, at)
  {
    TruthIsSaid(db, ops, id, at);
    AnswersSomeEntry(db, ops, id, at);
    ForgetsExactly(db, ops, id, at);
  }

  /** The same at a polled (channel, time): the pair that poll observed, unless it was forgotten. */
  lemma PolledPair<P(!new)>(db: Db<P>, ops: seq<Op<P>>, i: int, id: string)
    requires Polls(db, ops) && 0 <= i < |ops| && ops[i].Record? && Seen(ops[i].lives, id).Some?
    ensures Truth(db, ops, id, ops[i].ts) == Seen(ops[i].lives, id)
    ensures AsOf(Run(db, ops).info, id, ops[i].ts)
         == if Lost(db, ops, id, ops[i].ts) then None else Seen(ops[i].lives, id)
  {
    assert ops[i] in ops;
    LastSaidAtPoll(db, ops, i, id);
    SaidAtPoll(db, ops, i, id);
    TruthIsSaid(db, ops, id, ops[i].ts);
    AnswersTheLog(db, ops, id, ops[i].ts);
  }

  // ----- minimal history -----

  /** The entries of a poll that name a channel. */
  function Of<P>(lives: seq<Live<P>>, id: string): (r: seq<Live<P>>)
    ensures forall l :: l in r ==> l in lives && l.id == id
    ensures forall l :: l in lives && l.id == id ==> l in r
  {
    if lives == [] then [] else
    Of(lives[..|lives| - 1], id) + if lives[|lives| - 1].id == id then [lives[|lives| - 1]] else []
  }

  lemma SameNote<P>(a: map<Key, P>, b: map<Key, P>, id: string, ts: int, pair: P)
    requires SameRows(a, b, id)
    ensures SameRows(NoteInfo(a, id, ts, pair), NoteInfo(b, id, ts, pair), id)
  {
    SameRowsSameAnswers(a, b, id);
    forall at ensures SameAt(NoteInfo(a, id, ts, pair), NoteInfo(b, id, ts, pair), Key(id, at)) {
      assert SameAt(a, b, Key(id, at)) && SameAt(a, b, Key(id, ts));
    }
  }

  lemma SameThrough<V>(a: map<Key, V>, b: map<Key, V>, c: map<Key, V>, id: string)
    requires SameRows(b, a, id) && SameRows(b, c, id)
    ensures SameRows(a, c, id)
  {
    forall at ensures SameAt(a, c, Key(id, at)) {
      assert SameAt(b, a, Key(id, at)) && SameAt(b, c, Key(id, at));
    }
  }

  /** A poll touches a channel's rows as if it held that channel's entries alone. */
  lemma {:induction false} PollRows<P>(db: Db<P>, ts: int, lives: seq<Live<P>>, id: string)
    ensures SameRows(RecordAll(db, ts, lives).info, RecordAll(db, ts, Of(lives, id)).info, id)
  {
    if lives != [] {
      var pre, l := lives[..|lives| - 1], lives[|lives| - 1];
      PollRows(db, ts, pre, id);
      var a, b := RecordAll(db, ts, pre).info, RecordAll(db, ts, Of(pre, id)).info;
      if l.id == id {
        SameNote(a, b, id, ts, l.pair);
        assert Of(lives, id)[..|Of(lives, id)| - 1] == Of(pre, id);
      } else {
        NoteElsewhere(a, l.id, ts, l.pair, id);
        SameThrough(RecordAll(db, ts, lives).info, a, b, id);
        assert Of(lives, id) == Of(pre, id);
      }
    }
  }

  /** Everything a poll observed of a channel, in order. */
  function Observed<P>(ts: int, lives: seq<Live<P>>, id: string): seq<Row<P>>
  {
    if lives == [] then [] else
    var l := lives[|lives| - 1];
    Observed(ts, lives[..|lives| - 1], id) + if l.id == id then [Row(ts, l.pair)] else []
  }

  /** Everything the log observed of a channel, in order. */
  function Observations<P>(ops: seq<Op<P>>, id: string): seq<Row<P>>
  {
    if ops == [] then [] else
    var op := ops[|ops| - 1];
    Observations(ops[..|ops| - 1], id) + if op.Record? then Observed(op.ts, op.lives, id) else []
  }

  /** One more observation: it is kept if it says something new at a new time. */
  function Noted<P(==)>(h: seq<Row<P>>, o: Row<P>): seq<Row<P>>
  {
    if h != [] && (h[|h| - 1].pair == o.pair || h[|h| - 1].ts >= o.ts) then h else h + [o]
  }

  /** Run-length compression, continuing a history h: of each run of equal pairs the first is kept, and of several
      changes at one time the first. */
  function Compress<P(==)>(h: seq<Row<P>>, obs: seq<Row<P>>): seq<Row<P>>
  {
    if obs == [] then h else Noted(Compress(h, obs[..|obs| - 1]), obs[|obs| - 1])
  }

  lemma {:induction false} CompressConcat<P>(h: seq<Row<P>>, a: seq<Row<P>>, b: seq<Row<P>>)
    ensures Compress(h, a + b) == Compress(Compress(h, a), b)
  {
    if b == [] {
      assert a + b == a;
    } else {
      CompressConcat(h, a, b[..|b| - 1]);
      assert (a + b)[..|a + b| - 1] == a + b[..|b| - 1];
    }
  }

  lemma HistoryNewest<V>(t: map<Key, V>, id: string)
    ensures var h := History(t, id);
            Last(t, id) == if h == [] then None else Some(h[|h| - 1])
  {
  }

  lemma {:induction false} RowsFrame<V>(t: map<Key, V>, t': map<Key, V>, id: string, s: set<int>)
    requires forall u :: u in s ==> Key(id, u) in t && Key(id, u) in t' && t[Key(id, u)] == t'[Key(id, u)]
    ensures RowsAt(t, id, s) == RowsAt(t', id, s)
  {
    if s != {} { RowsFrame(t, t', id, s - {MaxOf(s).value}); }
  }

  lemma HistoryAppend<V>(t: map<Key, V>, id: string, ts: int, v: V)
    requires forall u :: u in Times(t, id) ==> u < ts
    ensures History(t[Key(id, ts) := v], id) == History(t, id) + [Row(ts, v)]
  {
    var t', s := t[Key(id, ts) := v], Times(t, id);
    assert Times(t', id) == s + {ts} && MaxOf(s + {ts}).value == ts && (s + {ts}) - {ts} == s;
    RowsFrame(t, t', id, s);
  }

  lemma NoteHistory<P>(info: map<Key, P>, id: string, ts: int, pair: P)
    requires InfoBefore(info, ts + 1)
    ensures History(NoteInfo(info, id, ts, pair), id) == Noted(History(info, id), Row(ts, pair))
  {
    var r := Last(info, id);
    HistoryNewest(info, id);
    if Key(id, ts) in info {
      assert ts in Times(info, id) && r.value.ts == ts;
    } else if !Unchanged(info, id, pair) {
      HistoryAppend(info, id, ts, pair);
    } else {
      assert r.value.ts in Times(info, id);
    }
  }

  lemma {:induction false} PollHistory<P>(db: Db<P>, ts: int, lives: seq<Live<P>>, id: string)
    requires InfoBefore(db.info, ts + 1)
    ensures History(RecordAll(db, ts, lives).info, id) == Compress(History(db.info, id), Observed(ts, lives, id))
  {
    if lives != [] {
      var pre, l := lives[..|lives| - 1], lives[|lives| - 1];
      PollHistory(db, ts, pre, id);
      PollNewKeys(db, ts, pre);
      var was, o := RecordAll(db, ts, pre).info, Observed(ts, lives, id);
      if l.id == id {
        NoteHistory(was, id, ts, l.pair);
        assert o[..|o| - 1] == Observed(ts, pre, id);
      } else {
        assert o == Observed(ts, pre, id);
        NoteElsewhere(was, l.id, ts, l.pair, id);
      }
    }
  }

  /** Never purged, a channel's rows are exactly the compression of everything observed of it. */
  lemma {:induction false} HistoryIsCompressed<P>(db: Db<P>, ops: seq<Op<P>>, id: string)
    requires LaterPolls(db, ops)
    ensures History(Full(db, ops).info, id) == Compress(History(db.info, id), Observations(ops, id))
  {
    if ops != [] {
      var pre, op := ops[..|ops| - 1], ops[|ops| - 1];
      LaterPrefix(db, ops);
      HistoryIsCompressed(db, pre, id);
      if op.Record? {
        PollHistory(Full(db, pre), op.ts, op.lives, id);
        CompressConcat(History(db.info, id), Observations(pre, id), Observed(op.ts, op.lives, id));
      } else {
        assert Observations(ops, id) == Observations(pre, id);
      }
    }
  }


  /** An upward closed part of the times is listed by a suffix. */
  lemma {:induction false} UpperPart<V>(t: map<Key, V>, id: string, s: set<int>, keep: set<int>) returns (j: nat)
    requires forall u :: u in s ==> Key(id, u) in t
    requires keep <= s
    requires forall x, y :: x in keep && y in s && x <= y ==> y in keep
    ensures j <= |RowsAt(t, id, s)| && RowsAt(t, id, keep) == RowsAt(t, id, s)[j..]
    decreases s
  {
    if keep == {} {
      j := |RowsAt(t, id, s)|;
    } else {
      var m := MaxOf(s).value;
      assert MaxOf(keep).value == m;
      j := UpperPart(t, id, s - {m}, keep - {m});
    }
  }

  /** A purge removes only a prefix of a channel's history. */
  lemma PurgedHistory<P>(info: map<Key, P>, cutoff: int, id: string) returns (j: nat)
    ensures j <= |History(info, id)|
    ensures History(InfoFrom(info, cutoff), id) == History(info, id)[j..]
  {
    var info' := InfoFrom(info, cutoff);
    j := UpperPart(info, id, Times(info, id), Times(info', id));
    RowsFrame(info, info', id, Times(info', id));
  }

  /** So what any run leaves of a channel's history is a last part of the compression of what was observed. */
  lemma RunHistory<P(!new)>(db: Db<P>, ops: seq<Op<P>>, id: string) returns (j: nat)
    requires LaterPolls(db, ops)
    ensures var h := Compress(History(db.info, id), Observations(ops, id));
            && j <= |h| && History(Run(db, ops).info, id) == h[j..]
            && forall i :: 0 <= i < |h| ==> (i < j <==> Forgotten(db, ops, Key(id, h[i].ts)))
  {
    var part, full := Run(db, ops).info, Full(db, ops).info;
    RunRows(db, ops);
    HistoryIsCompressed(db, ops, id);
    forall x, y | x in Times(part, id) && y in Times(full, id) && x <= y ensures y in Times(part, id) {
      if Forgotten(db, ops, Key(id, y)) { OlderAreForgotten(db, ops, Key(id, y), x); }
    }
    j := UpperPart(full, id, Times(full, id), Times(part, id));
    RowsFrame(full, part, id, Times(part, id));
    var h := History(full, id);
    RowsAtFacts(full, id, Times(full, id));
    RowsAtFacts(part, id, Times(part, id));
    forall i | 0 <= i < |h| ensures i < j <==> Forgotten(db, ops, Key(id, h[i].ts)) {
      if i >= j { assert h[j..][i - j] == h[i]; }
    }
  }

  /** No two consecutive rows of a channel say the same. */
  ghost predicate Alternating<P>(h: seq<Row<P>>)
  {
    forall i :: 0 <= i < |h| - 1 ==> h[i].pair != h[i + 1].pair
  }

  ghost predicate Minimal<P>(info: map<Key, P>)
  {
    forall id :: Alternating(History(info, id))
  }

  ghost predicate Nondecreasing<P>(ops: seq<Op<P>>, from: int)
  {
    && (forall i, j :: 0 <= i < j < |ops| && ops[i].Record? && ops[j].Record? ==> ops[i].ts <= ops[j].ts)
    && (forall op :: op in ops && op.Record? ==> from <= op.ts)
  }

  /** The time of the last poll. */
  function Latest<P>(ops: seq<Op<P>>, from: int): int
  {
    if ops == [] then from
    else if ops[|ops| - 1].Record? then ops[|ops| - 1].ts else Latest(ops[..|ops| - 1], from)
  }

  lemma {:induction false} LatestIs<P>(ops: seq<Op<P>>, from: int)
    ensures Latest(ops, from) == from || exists i :: 0 <= i < |ops| && ops[i].Record? && ops[i].ts == Latest(ops, from)
  {
    if ops != [] && !ops[|ops| - 1].Record? { LatestIs(ops[..|ops| - 1], from); }
  }

  lemma {:induction false} LatestBound<P>(ops: seq<Op<P>>, from: int)
    requires Nondecreasing(ops, from)
    ensures from <= Latest(ops, from)
    ensures forall op :: op in ops && op.Record? ==> op.ts <= Latest(ops, from)
  {
    if ops != [] {
      var pre := ops[..|ops| - 1];
      assert forall o :: o in pre ==> o in ops;
      LatestBound(pre, from);
      assert forall o :: o in ops ==> o in pre || o == ops[|ops| - 1];
      assert ops[|ops| - 1] in ops;
    }
  }

  lemma MinimalNote<P>(info: map<Key, P>, id: string, ts: int, pair: P)
    requires Minimal(info) && InfoBefore(info, ts + 1)
    ensures Minimal(NoteInfo(info, id, ts, pair))
  {
    var now := NoteInfo(info, id, ts, pair);
    if now != info {
      forall other ensures Alternating(History(now, other)) {
        assert Alternating(History(info, other));
        if other == id {
          NoteHistory(info, id, ts, pair);
        } else {
          NoteElsewhere(info, id, ts, pair, other);
        }
      }
    }
  }

  lemma {:induction false} MinimalPoll<P>(db: Db<P>, ts: int, lives: seq<Live<P>>)
    requires Minimal(db.info) && InfoBefore(db.info, ts + 1)
    ensures Minimal(RecordAll(db, ts, lives).info) && InfoBefore(RecordAll(db, ts, lives).info, ts + 1)
  {
    if lives != [] {
      var l := lives[|lives| - 1];
      MinimalPoll(db, ts, lives[..|lives| - 1]);
      MinimalNote(RecordAll(db, ts, lives[..|lives| - 1]).info, l.id, ts, l.pair);
    }
  }

  /** With nondecreasing record times the history stays minimal through any purges. */
  lemma {:induction false} StaysMinimal<P>(db: Db<P>, ops: seq<Op<P>>, from: int)
    requires Nondecreasing(ops, from) && Minimal(db.info) && InfoBefore(db.info, from + 1)
    ensures Minimal(Run(db, ops).info) && InfoBefore(Run(db, ops).info, Latest(ops, from) + 1)
  {
    if ops != [] {
      var pre, op := ops[..|ops| - 1], ops[|ops| - 1];
      assert forall o :: o in pre ==> o in ops;
      StaysMinimal(db, pre, from);
      LatestBound(ops, from);
      LatestIs(pre, from);
      assert op in ops;
      var was := Run(db, pre);
      match op
      case Record(ts, lives) => MinimalPoll(was, ts, lives);
      case DropSamples(_) =>
      case DropInfo(c) =>
        forall id ensures Alternating(History(InfoFrom(was.info, c), id)) {
          assert Alternating(History(was.info, id));
          var j := PurgedHistory(was.info, c, id);
        }
    }
  }

  // ----- samples -----

  /** The first entry of a poll that names a channel. */
  function FirstEntry<P>(lives: seq<Live<P>>, id: string): (r: Option<Live<P>>)
    ensures r.None? <==> forall l :: l in lives ==> l.id != id
    ensures r.Some? ==> r.value in lives && r.value.id == id
    ensures Distinct(lives) ==> forall l :: l in lives && l.id == id ==> r == Some(l)
  {
    if lives == [] then None
    else if lives[0].id == id then Some(lives[0])
    else FirstEntry(lives[1..], id)
  }

  lemma {:induction false} FirstOfMore<P>(lives: seq<Live<P>>, l: Live<P>, id: string)
    ensures var r := FirstEntry(lives, id);
            FirstEntry(lives + [l], id) == if r.Some? then r else if l.id == id then Some(l) else None
  {
    if lives == [] {
      assert ([] + [l])[1..] == [];
    } else {
      assert (lives + [l])[1..] == lives[1..] + [l];
      FirstOfMore(lives[1..], l, id);
    }
  }

  /** What a poll does to a sample: it stays, or becomes the number of the first entry that names the channel. */
  lemma {:induction false} PollSamples<P>(db: Db<P>, ts: int, lives: seq<Live<P>>, k: Key)
    ensures var t, r := RecordAll(db, ts, lives).samples, FirstEntry(lives, k.id);
            && (k in t <==> k in db.samples || (k.ts == ts && r.Some?))
            && (k in t ==> t[k] == if k in db.samples then db.samples[k] else r.value.viewers)
  {
    if lives != [] {
      var pre, l := lives[..|lives| - 1], lives[|lives| - 1];
      assert lives == pre + [l];
      FirstOfMore(pre, l, k.id);
      PollSamples(db, ts, pre, k);
    }
  }

  /** Nothing after i deletes the samples of a time. */
  ghost predicate Spares<P>(ops: seq<Op<P>>, i: int, ts: int)
  {
    forall j :: 0 <= j < |ops| && i < j && ops[j].DropSamples? ==> ops[j].cutoff <= ts
  }

  lemma SparesMore<P>(ops: seq<Op<P>>, i: int, ts: int)
    requires ops != [] && i < |ops| - 1
    ensures var pre, op := ops[..|ops| - 1], ops[|ops| - 1];
            Spares(ops, i, ts) <==> Spares(pre, i, ts) && (op.DropSamples? ==> op.cutoff <= ts)
  {
    var pre := ops[..|ops| - 1];
    assert forall j :: 0 <= j < |pre| ==> ops[j] == pre[j];
  }

  /** A poll at k's time names k's channel. */
  ghost predicate Sights<P>(ops: seq<Op<P>>, i: int, k: Key)
  {
    0 <= i < |ops| && ops[i].Record? && ops[i].ts == k.ts && FirstEntry(ops[i].lives, k.id).Some?
  }

  /** Which samples a run leaves, whatever the record times: those seen by a poll, or there at the start, with no
      deletion after it that covers their time. */
  lemma {:induction false} SampleLives<P>(db: Db<P>, ops: seq<Op<P>>, k: Key)
    ensures k in Run(db, ops).samples <==>
              (k in db.samples && Spares(ops, -1, k.ts)) || exists i :: Sights(ops, i, k) && Spares(ops, i, k.ts)
  {
    if ops != [] {
      var pre, op := ops[..|ops| - 1], ops[|ops| - 1];
      SampleLives(db, pre, k);
      if op.Record? { PollSamples(Run(db, pre), op.ts, op.lives, k); }
      forall i | -1 <= i < |pre|
        ensures Spares(ops, i, k.ts) <==> Spares(pre, i, k.ts) && (op.DropSamples? ==> op.cutoff <= k.ts)
      {
        SparesMore(ops, i, k.ts);
      }
      forall i | 0 <= i < |pre| ensures Sights(ops, i, k) <==> Sights(pre, i, k) { }
      assert Spares(ops, |pre|, k.ts);
    }
  }

  /** Every sample was there at the start or is some poll's number: that of the first entry naming its channel, in
      a poll that found its place free. */
  lemma {:induction false} SampleHasPoll<P>(db: Db<P>, ops: seq<Op<P>>, k: Key) returns (i: int, l: Live<P>)
    requires k in Run(db, ops).samples && k !in db.samples
    ensures 0 <= i < |ops| && ops[i].Record? && ops[i].ts == k.ts && FirstEntry(ops[i].lives, k.id) == Some(l)
    ensures k !in Run(db, ops[..i]).samples && Spares(ops, i, k.ts)
    ensures l.viewers == Run(db, ops).samples[k]
  {
    var pre, op := ops[..|ops| - 1], ops[|ops| - 1];
    if op.Record? { PollSamples(Run(db, pre), op.ts, op.lives, k); }
    if k in Run(db, pre).samples {
      i, l := SampleHasPoll(db, pre, k);
      assert pre[..i] == ops[..i];
      SparesMore(ops, i, k.ts);
    } else {
      i, l := |ops| - 1, FirstEntry(op.lives, k.id).value;
    }
  }

  /** The sample of a poll that is alone at its time, with no sample there before: it is stored exactly as long as
      no later deletion covers it, and reads back as the number of the poll's first entry for the channel. */
  lemma SampleOfPoll<P>(db: Db<P>, ops: seq<Op<P>>, i: int, id: string)
    requires Alone(ops, i) && FirstEntry(ops[i].lives, id).Some? && Key(id, ops[i].ts) !in db.samples
    ensures var k := Key(id, ops[i].ts);
            && (k in Run(db, ops).samples <==> Spares(ops, i, ops[i].ts))
            && (k in Run(db, ops).samples ==> Run(db, ops).samples[k] == FirstEntry(ops[i].lives, id).value.viewers)
  {
    var k := Key(id, ops[i].ts);
    SampleLives(db, ops, k);
    assert Sights(ops, i, k);
    if k in Run(db, ops).samples { var j, l := SampleHasPoll(db, ops, k); }
  }


  // ----- the channels table against the samples -----

  /** Every sample belongs to a listed channel and is not newer than its last sighting; the last
      sighting itself is a sample, unless the channel has no sample left at all. */
  ghost predicate Sound<P>(db: Db<P>, hi: int)
  {
    && (forall k :: k in db.samples ==> k.id in db.channels && k.ts <= db.channels[k.id].lastSeen)
    && (forall id :: id in db.channels ==>
          && db.channels[id].firstSeen <= db.channels[id].lastSeen <= hi
          && (Key(id, db.channels[id].lastSeen) in db.samples || forall k :: k in db.samples ==> k.id != id))
  }

  lemma SoundOne<P>(db: Db<P>, ts: int, l: Live<P>)
    requires Sound(db, ts)
    ensures Sound(RecordOne(db, ts, l), ts)
  {
    var db' := RecordOne(db, ts, l);
    assert db'.channels[l.id].lastSeen == ts && Key(l.id, ts) in db'.samples;
    assert forall id :: id in db'.channels && id != l.id ==> id in db.channels && db'.channels[id] == db.channels[id];
    assert forall k :: k in db'.samples ==> k in db.samples || k == Key(l.id, ts);
  }

  lemma {:induction false} SoundPoll<P>(db: Db<P>, ts: int, lives: seq<Live<P>>)
    requires Sound(db, ts)
    ensures Sound(RecordAll(db, ts, lives), ts)
  {
    if lives != [] {
      SoundPoll(db, ts, lives[..|lives| - 1]);
      SoundOne(RecordAll(db, ts, lives[..|lives| - 1]), ts, lives[|lives| - 1]);
    }
  }

  /** Nondecreasing record times are enough, whatever is purged and when. */
  lemma {:induction false} SoundRun<P>(db: Db<P>, ops: seq<Op<P>>, from: int)
    requires Sound(db, from) && Nondecreasing(ops, from)
    ensures Sound(Run(db, ops), Latest(ops, from))
  {
    if ops != [] {
      var pre, op := ops[..|ops| - 1], ops[|ops| - 1];
      assert forall o :: o in pre ==> o in ops;
      assert op in ops;
      SoundRun(db, pre, from);
      if op.Record? {
        LatestIs(pre, from);
        SoundPoll(Run(db, pre), op.ts, op.lives);
      }
    }
  }

  // ----- the channels table against the log -----

  datatype Sighting = Sighting(ts: int, name: string)

  function SightingsIn<P>(ts: int, lives: seq<Live<P>>, id: string): seq<Sighting>
  {
    if lives == [] then [] else
    var l := lives[|lives| - 1];
    SightingsIn(ts, lives[..|lives| - 1], id) + if l.id == id then [Sighting(ts, l.name)] else []
  }

  /** Every entry of every poll that names the channel. */
  function Sightings<P>(ops: seq<Op<P>>, id: string): seq<Sighting>
  {
    if ops == [] then [] else
    var op := ops[|ops| - 1];
    Sightings(ops[..|ops| - 1], id) + if op.Record? then SightingsIn(op.ts, op.lives, id) else []
  }

  /** A channels row against a channel's sightings: first time, last time, last name. */
  ghost predicate Listed(channels: map<string, ChannelRow>, id: string, s: seq<Sighting>)
  {
    if s == [] then id !in channels
    else id in channels && channels[id] == ChannelRow(s[|s| - 1].name, s[0].ts, s[|s| - 1].ts)
  }

  lemma {:induction false} PollLists<P>(db: Db<P>, ts: int, lives: seq<Live<P>>, id: string, s: seq<Sighting>)
    requires Listed(db.channels, id, s)
    ensures Listed(RecordAll(db, ts, lives).channels, id, s + SightingsIn(ts, lives, id))
  {
    if lives == [] {
      assert s + [] == s;
    } else {
      var pre, l := lives[..|lives| - 1], lives[|lives| - 1];
      PollLists(db, ts, pre, id, s);
      var t := s + SightingsIn(ts, pre, id);
      assert s + SightingsIn(ts, lives, id) == if l.id == id then t + [Sighting(ts, l.name)] else t;
    }
  }

  /** A channel's row holds the time of its first sighting in the whole log, and the time and name of its
      last, whatever was purged; a channel never seen has none. */
  lemma {:induction false} ChannelsTellTheLog<P>(db: Db<P>, ops: seq<Op<P>>, id: string)
    requires id !in db.channels
    ensures Listed(Run(db, ops).channels, id, Sightings(ops, id))
  {
    if ops != [] {
      var pre, op := ops[..|ops| - 1], ops[|ops| - 1];
      ChannelsTellTheLog(db, pre, id);
      if op.Record? { PollLists(Run(db, pre), op.ts, op.lives, id, Sightings(pre, id)); }
      else { assert Sightings(ops, id) == Sightings(pre, id); }
    }
  }
}
