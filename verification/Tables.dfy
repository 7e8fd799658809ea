/** The three tables of monitor.db and the meaning of the statements run on them.

    `viewer_samples` and `stream_info` are maps from their primary key (channel_id, ts); `channels`
    is a map from channel_id.  The type parameter P is what a `stream_info` row says about a stream:
    a pair of strings in the C++ collector, a pair of optional strings in the Python one. */
module Tables {
  import opened Aggregates

  // Times are in seconds.
  const DAY := 86400
  const WEEK := 7 * DAY

  datatype Key = Key(id: string, ts: int)
  datatype ChannelRow = ChannelRow(name: string, firstSeen: int, lastSeen: int)
  datatype Pair = Pair(category: string, title: string)
  datatype Row<P> = Row(ts: int, pair: P)

  /** One entry of a poll. */
  datatype Live<P> = Live(id: string, name: string, viewers: int, pair: P)

  datatype Db<P> = Db(samples: map<Key, int>, channels: map<string, ChannelRow>, info: map<Key, P>)

  /** The times of one channel's rows, in either keyed table. */
  function Times<V>(t: map<Key, V>, id: string): (s: set<int>)
    ensures forall u :: u in s <==> Key(id, u) in t
  {
    set k | k in t && k.id == id :: k.ts
  }

  function RowAt<V>(t: map<Key, V>, id: string, at: Option<int>): Option<Row<V>>
    requires at.Some? ==> Key(id, at.value) in t
  {
    if at.None? then None else Some(Row(at.value, t[Key(id, at.value)]))
  }

  /** SELECT ... WHERE channel_id=? ORDER BY ts DESC LIMIT 1 */
  function Last<V>(t: map<Key, V>, id: string): Option<Row<V>>
  {
    RowAt(t, id, MaxOf(Times(t, id)))
  }

  /** SELECT MAX(ts) ... WHERE channel_id=? AND ts<=? */
  function InForceTs<V>(t: map<Key, V>, id: string, at: int): (m: Option<int>)
    ensures m.None? ==> forall u :: u <= at ==> Key(id, u) !in t
    ensures m.Some? ==> m.value <= at && Key(id, m.value) in t
    ensures m.Some? ==> forall u :: u <= at && Key(id, u) in t ==> u <= m.value
  {
    var s := set u | u in Times(t, id) && u <= at;
    assert forall u :: u in s <==> u <= at && Key(id, u) in t;
    MaxOf(s)
  }

  /** The row that applies at a time: the one with the largest ts not after it. */
  function InForce<V>(t: map<Key, V>, id: string, at: int): (r: Option<Row<V>>)
    ensures r.None? <==> forall u :: u <= at ==> Key(id, u) !in t
    ensures r.Some? ==> r.value.ts <= at && Key(id, r.value.ts) in t && t[Key(id, r.value.ts)] == r.value.pair
    ensures r.Some? ==> forall u :: u <= at && Key(id, u) in t ==> u <= r.value.ts
  {
    RowAt(t, id, InForceTs(t, id, at))
  }

  /** "What was the title at `at`?", asked of the table. */
  function AsOf<V>(t: map<Key, V>, id: string, at: int): Option<V>
  {
    var r := InForce(t, id, at);
    if r.None? then None else Some(r.value.pair)
  }

  // ----- ORDER BY ts -----

  /** The rows of one channel at the given times, in time order. */
  function RowsAt<V>(t: map<Key, V>, id: string, s: set<int>): seq<Row<V>>
    requires forall u :: u in s ==> Key(id, u) in t
  {
    if s == {} then [] else
    var m := MaxOf(s).value;
    RowsAt(t, id, s - {m}) + [Row(m, t[Key(id, m)])]
  }

  /** All of one channel's rows. */
  function History<V>(t: map<Key, V>, id: string): seq<Row<V>>
  {
    RowsAt(t, id, Times(t, id))
  }

  ghost predicate Ascending<V>(rows: seq<Row<V>>)
  {
    forall i, j :: 0 <= i < j < |rows| ==> rows[i].ts < rows[j].ts
  }

  lemma {:induction false} RowsAtFacts<V>(t: map<Key, V>, id: string, s: set<int>)
    requires forall u :: u in s ==> Key(id, u) in t
    ensures Ascending(RowsAt(t, id, s))
    ensures forall i :: 0 <= i < |RowsAt(t, id, s)| ==>
              RowsAt(t, id, s)[i].ts in s && RowsAt(t, id, s)[i].pair == t[Key(id, RowsAt(t, id, s)[i].ts)]
    ensures forall u :: u in s ==> Row(u, t[Key(id, u)]) in RowsAt(t, id, s)
  {
    if s != {} {
      var m := MaxOf(s).value;
      RowsAtFacts(t, id, s - {m});
    }
  }

  // ----- the collector's statements -----

  function InsertOrIgnore<V>(t: map<Key, V>, k: Key, v: V): map<Key, V>
  {
    if k in t then t else t[k := v]
  }

  /** INSERT ... ON CONFLICT(channel_id) DO UPDATE SET channel_name, last_seen_ts */
  function Upsert(c: map<string, ChannelRow>, id: string, name: string, ts: int): map<string, ChannelRow>
  {
    if id in c then c[id := ChannelRow(name, c[id].firstSeen, ts)] else c[id := ChannelRow(name, ts, ts)]
  }

  predicate Unchanged<P(==)>(info: map<Key, P>, id: string, pair: P)
  {
    var r := Last(info, id);
    r.Some? && r.value.pair == pair
  }

  function NoteInfo<P(==)>(info: map<Key, P>, id: string, ts: int, pair: P): map<Key, P>
  {
    if Unchanged(info, id, pair) then info else InsertOrIgnore(info, Key(id, ts), pair)
  }

  function RecordOne<P(==)>(db: Db<P>, ts: int, l: Live<P>): Db<P>
  {
    Db(InsertOrIgnore(db.samples, Key(l.id, ts), l.viewers),
       Upsert(db.channels, l.id, l.name, ts),
       NoteInfo(db.info, l.id, ts, l.pair))
  }

  /** A whole poll, entry by entry. */
  function RecordAll<P(==)>(db: Db<P>, ts: int, lives: seq<Live<P>>): Db<P>
  {
    if lives == [] then db else
    RecordOne(RecordAll(db, ts, lives[..|lives| - 1]), ts, lives[|lives| - 1])
  }

  /** DELETE FROM viewer_samples WHERE ts < cutoff */
  function SamplesFrom(samples: map<Key, int>, cutoff: int): map<Key, int>
  {
    map k | k in samples && k.ts >= cutoff :: samples[k]
  }

  /** The condition of the DELETE on stream_info: old, and not the channel's newest row. */
  predicate Stale<P>(info: map<Key, P>, k: Key, cutoff: int)
  {
    k in info && k.ts < cutoff && k.ts < MaxOf(Times(info, k.id)).value
  }

  function InfoFrom<P>(info: map<Key, P>, cutoff: int): map<Key, P>
  {
    map k | k in info && !Stale(info, k, cutoff) :: info[k]
  }

  function Purge<P>(db: Db<P>, cutoff: int): Db<P>
  {
    Db(SamplesFrom(db.samples, cutoff), db.channels, InfoFrom(db.info, cutoff))
  }

  // ----- how the statements move the newest row and the row in force -----

  /** Inserting changes a channel's newest row only by becoming it. */
  lemma LastAfterInsert<V>(t: map<Key, V>, k: Key, v: V, id: string)
    ensures var a, b := Last(t, id), Last(InsertOrIgnore(t, k, v), id);
            b == if id == k.id && (a.None? || a.value.ts < k.ts) then Some(Row(k.ts, v)) else a
  {
    var t' := InsertOrIgnore(t, k, v);
    assert forall u :: u in Times(t', id) <==> u in Times(t, id) || (id == k.id && u == k.ts);
    if id != k.id {
      assert Times(t', id) == Times(t, id);
    }
  }

  /** Purging never moves a channel's newest row: the only row `record` compares with. */
  lemma LastAfterPurge<P>(info: map<Key, P>, cutoff: int, id: string)
    ensures Last(InfoFrom(info, cutoff), id) == Last(info, id)
  {
    var m := MaxOf(Times(info, id));
    if m.Some? {
      assert !Stale(info, Key(id, m.value), cutoff);
      assert m.value in Times(InfoFrom(info, cutoff), id);
    } else {
      assert Times(InfoFrom(info, cutoff), id) == {};
    }
  }

  /** The exact law of purging for a reader: the answer at any time is unchanged, or gone, and it is
      unchanged exactly when no row was in force, or it was young enough, or it was the newest one.
      In particular the answer at a time after the cutoff can be lost. */
  lemma PurgedAsOf<P>(info: map<Key, P>, cutoff: int, id: string, at: int)
    ensures var r, r' := InForce(info, id, at), InForce(InfoFrom(info, cutoff), id, at);
            && (r' == r || r' == None)
            && (r' == r <==> r.None? || r.value.ts >= cutoff || Last(info, id) == r)
  {
    var r, r' := InForce(info, id, at), InForce(InfoFrom(info, cutoff), id, at);
    if r.Some? {
      var k := Key(id, r.value.ts);
      assert r.value.ts in Times(info, id);
      if Stale(info, k, cutoff) {
        forall u | u <= at ensures Key(id, u) !in InfoFrom(info, cutoff) {
          if Key(id, u) in info { assert Stale(info, Key(id, u), cutoff); }
        }
      } else {
        assert k in InfoFrom(info, cutoff);
      }
    }
  }

  /** A concrete loss: rows at 0 and 10, cutoff 5. At time 7, after the cutoff, the answer is gone. */
  lemma PurgeCanForgetAfterTheCutoff()
    ensures var info := map[Key("c", 0) := Pair("a", "x"), Key("c", 10) := Pair("b", "y")];
            AsOf(info, "c", 7) == Some(Pair("a", "x")) && AsOf(InfoFrom(info, 5), "c", 7) == None
  {
    var info := map[Key("c", 0) := Pair("a", "x"), Key("c", 10) := Pair("b", "y")];
    var r := InForce(info, "c", 7);
    assert Key("c", 0) in info && r.Some? && r.value.ts == 0;
    assert Key("c", 10) in info && Last(info, "c").value.ts == 10 by { assert 10 in Times(info, "c"); }
    PurgedAsOf(info, 5, "c", 7);
  }
}
