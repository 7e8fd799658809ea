/** The collector's store in its two editions: C++ (entry by entry) and Python (table by table). */
module Stores {
  import opened Aggregates
  import opened Tables
  import opened Runs

  /** How many entries of a poll found the channel's newest row saying something else.  An entry is
      counted even if its insert is then ignored. */
  function Changes<P(==)>(db: Db<P>, ts: int, lives: seq<Live<P>>): nat
  {
    if lives == [] then 0 else
    var pre, l := lives[..|lives| - 1], lives[|lives| - 1];
    Changes(db, ts, pre) + if Unchanged(RecordAll(db, ts, pre).info, l.id, l.pair) then 0 else 1
  }

  /** Some entry, when its turn comes, says something new at a (channel, ts) already taken: its insert is ignored. */
  predicate Clashes<P(==)>(db: Db<P>, ts: int, lives: seq<Live<P>>)
  {
    if lives == [] then false else
    var pre, l := lives[..|lives| - 1], lives[|lives| - 1];
    var info := RecordAll(db, ts, pre).info;
    Clashes(db, ts, pre) || (!Unchanged(info, l.id, l.pair) && Key(l.id, ts) in info)
  }

  /** The returned count is never less than the rows added, and for every store, time and list of entries it is
      exactly that if and only if no entry clashes. */
  lemma {:induction false} ChangesCountRows<P>(db: Db<P>, ts: int, lives: seq<Live<P>>)
    ensures |RecordAll(db, ts, lives).info| <= |db.info| + Changes(db, ts, lives)
    ensures |RecordAll(db, ts, lives).info| == |db.info| + Changes(db, ts, lives) <==> !Clashes(db, ts, lives)
  {
    if lives != [] { ChangesCountRows(db, ts, lives[..|lives| - 1]); }
  }

  /** When its turn comes, the last entry of such a poll finds its channel's rows as they were before the poll. */
  lemma Untouched<P>(db: Db<P>, ts: int, lives: seq<Live<P>>)
    requires lives != [] && Distinct(lives)
    ensures var l, info := lives[|lives| - 1], RecordAll(db, ts, lives[..|lives| - 1]).info;
            && Last(info, l.id) == Last(db.info, l.id)
            && (Key(l.id, ts) in info <==> Key(l.id, ts) in db.info)
  {
    var pre, l := lives[..|lives| - 1], lives[|lives| - 1];
    assert Of(pre, l.id) == [] by {
      if Of(pre, l.id) != [] { assert Of(pre, l.id)[0] in Of(pre, l.id); }
    }
    PollRows(db, ts, pre, l.id);
    SameRowsSameAnswers(RecordAll(db, ts, pre).info, db.info, l.id);
    assert SameAt(RecordAll(db, ts, pre).info, db.info, Key(l.id, ts));
  }

  /** For a poll that names each channel once the condition can be read off the store before the poll. */
  lemma {:induction false} DistinctClashes<P>(db: Db<P>, ts: int, lives: seq<Live<P>>)
    requires Distinct(lives)
    ensures Clashes(db, ts, lives) <==>
              exists l :: l in lives && !Unchanged(db.info, l.id, l.pair) && Key(l.id, ts) in db.info
  {
    if lives != [] {
      var pre, l := lives[..|lives| - 1], lives[|lives| - 1];
      DistinctClashes(db, ts, pre);
      Untouched(db, ts, lives);
      assert l in lives && forall o :: o in lives ==> o in pre || o == l;
    }
  }

  /** So the count is right for such a poll when it is later than every row. */
  lemma LaterPollCounts<P>(db: Db<P>, ts: int, lives: seq<Live<P>>)
    requires InfoBefore(db.info, ts) && Distinct(lives)
    ensures |RecordAll(db, ts, lives).info| == |db.info| + Changes(db, ts, lives)
  {
    ChangesCountRows(db, ts, lives);
    DistinctClashes(db, ts, lives);
  }

  /** A second entry at the same time is counted though its row is ignored. */
  lemma IgnoredChangeIsCounted()
    ensures var db: Db<Pair> := Db(map[], map[], map[Key("c", 60) := Pair("a", "x")]);
            var lives := [Live("c", "n", 1, Pair("a", "y"))];
            Clashes(db, 60, lives) && Changes(db, 60, lives) == 1 && RecordAll(db, 60, lives).info == db.info
  {
    var db: Db<Pair> := Db(map[], map[], map[Key("c", 60) := Pair("a", "x")]);
    var l := Live("c", "n", 1, Pair("a", "y"));
    assert [l][..0] == [] && 60 in Times(db.info, "c") && Times(db.info, "c") == {60};
    assert RecordAll(db, 60, [l]) == RecordOne(db, 60, l);
  }

  class Store {
    var samples: map<Key, int>
    var channels: map<string, ChannelRow>
    var info: map<Key, Pair>

    function Contents(): Db<Pair>
      reads this
    {
      Db(samples, channels, info)
    }

    /** One transaction: all three tables, one entry after the other. */
    method Record(ts: int, lives: seq<Live<Pair>>) returns (changed: nat)
      modifies this
      ensures Contents() == RecordAll(old(Contents()), ts, lives)
      ensures changed == Changes(old(Contents()), ts, lives)
    {
      changed := 0;
      for i := 0 to |lives|
        invariant Contents() == RecordAll(old(Contents()), ts, lives[..i])
        invariant changed == Changes(old(Contents()), ts, lives[..i])
      {
        var l := lives[i];
        assert lives[..i + 1][..i] == lives[..i];
        if Key(l.id, ts) !in samples {
          samples := samples[Key(l.id, ts) := l.viewers];
        }
        if l.id in channels {
          channels := channels[l.id := channels[l.id].(name := l.name, lastSeen := ts)];
        } else {
          channels := channels[l.id := ChannelRow(l.name, ts, ts)];
        }
        var last := Last(info, l.id);
        var same := last.Some? && last.value.pair.category == l.pair.category && last.value.pair.title == l.pair.title;
        if !same {
          if Key(l.id, ts) !in info {
            info := info[Key(l.id, ts) := l.pair];
          }
          changed := changed + 1;
        }
      }
      assert lives[..|lives|] == lives;
    }

    /** Two deletions; returns how many rows each removed. */
    method Purge(now: int, retainDays: int) returns (n: nat, m: nat)
      modifies this
      ensures Contents() == Tables.Purge(old(Contents()), now - retainDays * 86400)
      ensures n == |old(samples)| - |samples| && m == |old(info)| - |info|
    {
      var cutoff := now - retainDays * 86400;
      n := DeleteSamples(cutoff);
      m := DeleteInfo(cutoff);
    }

    method DeleteSamples(cutoff: int) returns (n: nat)
      modifies this`samples
      ensures samples == SamplesFrom(old(samples), cutoff)
      ensures n == |old(samples)| - |samples|
    {
      var left := samples.Keys;
      n := 0;
      while left != {}
        invariant left <= samples.Keys <= old(samples).Keys
        invariant forall k :: k in samples ==> samples[k] == old(samples)[k]
        invariant forall k :: k in old(samples) && k !in left ==> (k in samples <==> k.ts >= cutoff)
        invariant n == |old(samples)| - |samples|
        decreases left
      {
        var k :| k in left;
        if k.ts < cutoff {
          Smaller(samples, k);
          samples := samples - {k};
          n := n + 1;
        }
        left := left - {k};
      }
    }

    /** Row by row in any order, the subquery MAX(ts) evaluated on the table as it is by then. */
    method DeleteInfo(cutoff: int) returns (m: nat)
      modifies this`info
      ensures info == InfoFrom(old(info), cutoff)
      ensures m == |old(info)| - |info|
    {
      var left := info.Keys;
      m := 0;
      while left != {}
        invariant left <= info.Keys <= old(info).Keys
        invariant forall k :: k in info ==> info[k] == old(info)[k]
        invariant forall k :: k in old(info) && k !in left ==> (k in info <==> !Stale(old(info), k, cutoff))
        invariant forall id :: MaxOf(Times(info, id)) == MaxOf(Times(old(info), id))
        invariant m == |old(info)| - |info|
        decreases left
      {
        var k :| k in left;
        if k.ts < cutoff && k.ts < MaxOf(Times(info, k.id)).value {
          Smaller(info, k);
          MaxStays(info, k);
          info := info - {k};
          m := m + 1;
        }
        left := left - {k};
      }
    }
  }

  lemma Smaller<V>(t: map<Key, V>, k: Key)
    requires k in t
    ensures |t - {k}| == |t| - 1
  {
    assert (t - {k}).Keys == t.Keys - {k};
  }

  /** Deleting a row that is not its channel's newest moves no channel's newest row. */
  lemma MaxStays<V>(t: map<Key, V>, k: Key)
    requires k in t && k.ts < MaxOf(Times(t, k.id)).value
    ensures forall id :: MaxOf(Times(t - {k}, id)) == MaxOf(Times(t, id))
  {
    forall id ensures MaxOf(Times(t - {k}, id)) == MaxOf(Times(t, id)) {
      assert forall u :: u in Times(t - {k}, id) <==> u in Times(t, id) && Key(id, u) != k;
      if id != k.id { assert Times(t - {k}, id) == Times(t, id); }
    }
  }

  // ----- the Python edition -----

  /** None stands for a JSON key that is absent (SQL NULL). */
  datatype PyPair = PyPair(category: Option<string>, title: Option<string>)

  function BatchSamples<P>(t: map<Key, int>, ts: int, lives: seq<Live<P>>): map<Key, int>
  {
    if lives == [] then t else
    var l := lives[|lives| - 1];
    InsertOrIgnore(BatchSamples(t, ts, lives[..|lives| - 1]), Key(l.id, ts), l.viewers)
  }

  function BatchChannels<P>(t: map<string, ChannelRow>, ts: int, lives: seq<Live<P>>): map<string, ChannelRow>
  {
    if lives == [] then t else
    var l := lives[|lives| - 1];
    Upsert(BatchChannels(t, ts, lives[..|lives| - 1]), l.id, l.name, ts)
  }

  function BatchInfo<P(==)>(t: map<Key, P>, ts: int, lives: seq<Live<P>>): map<Key, P>
  {
    if lives == [] then t else
    var l := lives[|lives| - 1];
    NoteInfo(BatchInfo(t, ts, lives[..|lives| - 1]), l.id, ts, l.pair)
  }

  /** Table by table leaves what entry by entry leaves. */
  lemma {:induction false} BatchedIsInterleaved<P>(db: Db<P>, ts: int, lives: seq<Live<P>>)
    ensures Db(BatchSamples(db.samples, ts, lives), BatchChannels(db.channels, ts, lives),
               BatchInfo(db.info, ts, lives))
         == RecordAll(db, ts, lives)
  {
    if lives != [] { BatchedIsInterleaved(db, ts, lives[..|lives| - 1]); }
  }

  class PyStore {
    var samples: map<Key, int>
    var channels: map<string, ChannelRow>
    var info: map<Key, PyPair>

    function Contents(): Db<PyPair>
      reads this
    {
      Db(samples, channels, info)
    }

    method Record(ts: int, lives: seq<Live<PyPair>>) returns (recorded: nat)
      modifies this
      ensures Contents() == RecordAll(old(Contents()), ts, lives)
      ensures recorded == |lives|
    {
      InsertSamples(ts, lives);
      UpsertChannels(ts, lives);
      NoteAll(ts, lives);
      BatchedIsInterleaved(old(Contents()), ts, lives);
      recorded := |lives|;
    }

    method InsertSamples(ts: int, lives: seq<Live<PyPair>>)
      modifies this`samples
      ensures samples == BatchSamples(old(samples), ts, lives)
    {
      for i := 0 to |lives|
        invariant samples == BatchSamples(old(samples), ts, lives[..i])
      {
        assert lives[..i + 1][..i] == lives[..i];
        if Key(lives[i].id, ts) !in samples {
          samples := samples[Key(lives[i].id, ts) := lives[i].viewers];
        }
      }
      assert lives[..|lives|] == lives;
    }

    method UpsertChannels(ts: int, lives: seq<Live<PyPair>>)
      modifies this`channels
      ensures channels == BatchChannels(old(channels), ts, lives)
    {
      for i := 0 to |lives|
        invariant channels == BatchChannels(old(channels), ts, lives[..i])
      {
        var l := lives[i];
        assert lives[..i + 1][..i] == lives[..i];
        if l.id in channels {
          channels := channels[l.id := channels[l.id].(name := l.name, lastSeen := ts)];
        } else {
          channels := channels[l.id := ChannelRow(l.name, ts, ts)];
        }
      }
      assert lives[..|lives|] == lives;
    }

    method NoteAll(ts: int, lives: seq<Live<PyPair>>)
      modifies this`info
      ensures info == BatchInfo(old(info), ts, lives)
    {
      for i := 0 to |lives|
        invariant info == BatchInfo(old(info), ts, lives[..i])
      {
        var l := lives[i];
        assert lives[..i + 1][..i] == lives[..i];
        var last := Last(info, l.id);
        if last.None? || last.value.pair != l.pair {
          if Key(l.id, ts) !in info {
            info := info[Key(l.id, ts) := l.pair];
          }
        }
      }
      assert lives[..|lives|] == lives;
    }
  }

  // ----- both editions agree -----

  /** C++ reads an absent key as the empty string. */
  function OrEmpty(s: Option<string>): string { if s.None? then "" else s.value }

  function Flat(p: PyPair): Pair { Pair(OrEmpty(p.category), OrEmpty(p.title)) }

  function FlatLive(l: Live<PyPair>): Live<Pair> { Live(l.id, l.name, l.viewers, Flat(l.pair)) }

  function FlatLives(lives: seq<Live<PyPair>>): seq<Live<Pair>>
  {
    if lives == [] then [] else FlatLives(lives[..|lives| - 1]) + [FlatLive(lives[|lives| - 1])]
  }

  function FlatInfo(info: map<Key, PyPair>): map<Key, Pair> { map k | k in info :: Flat(info[k]) }

  function FlatDb(db: Db<PyPair>): Db<Pair> { Db(db.samples, db.channels, FlatInfo(db.info)) }

  /** Neither string is present and empty. */
  predicate Plain(p: PyPair) { p.category != Some("") && p.title != Some("") }

  lemma FlatLast(info: map<Key, PyPair>, id: string)
    ensures var a, b := Last(info, id), Last(FlatInfo(info), id);
            b == if a.None? then None else Some(Row(a.value.ts, Flat(a.value.pair)))
  {
    assert Times(FlatInfo(info), id) == Times(info, id);
  }

  predicate AllPlain(info: map<Key, PyPair>) { forall k :: k in info ==> Plain(info[k]) }

  /** The entry differs from the channel's newest row only in absent versus empty, and its (channel, ts)
      is free: Python writes a row, C++ sees no change. */
  predicate Confusable(info: map<Key, PyPair>, id: string, ts: int, p: PyPair)
  {
    var last := Last(info, id);
    last.Some? && last.value.pair != p && Flat(last.value.pair) == Flat(p) && Key(id, ts) !in info
  }

  /** Some entry of the poll is confusable when its turn comes. */
  predicate Confused(db: Db<PyPair>, ts: int, lives: seq<Live<PyPair>>)
  {
    if lives == [] then false else
    var pre, l := lives[..|lives| - 1], lives[|lives| - 1];
    Confused(db, ts, pre) || Confusable(RecordAll(db, ts, pre).info, l.id, ts, l.pair)
  }

  lemma EditionsNoteAlike(info: map<Key, PyPair>, id: string, ts: int, p: PyPair)
    ensures FlatInfo(NoteInfo(info, id, ts, p)) == NoteInfo(FlatInfo(info), id, ts, Flat(p)) <==>
                  !Confusable(info, id, ts, p)
  {
    FlatLast(info, id);
    if Confusable(info, id, ts, p) {
      assert Key(id, ts) in FlatInfo(NoteInfo(info, id, ts, p))
             && Key(id, ts) !in NoteInfo(FlatInfo(info), id, ts, Flat(p));
    }
  }

  /** What the tables look like once the editions have parted over (id, ts). */
  ghost predicate Parted(py: map<Key, PyPair>, cpp: map<Key, Pair>, id: string, ts: int)
  {
    var k := Key(id, ts);
    && k in py
    && (k in cpp ==> cpp[k] != Flat(py[k]))
    && (k !in cpp ==> Last(cpp, id).Some? && Last(cpp, id).value.pair == Flat(py[k]))
  }

  lemma PartedStays(py: map<Key, PyPair>, cpp: map<Key, Pair>, id: string, ts: int, l: Live<PyPair>)
    requires Parted(py, cpp, id, ts)
    ensures Parted(NoteInfo(py, l.id, ts, l.pair), NoteInfo(cpp, l.id, ts, Flat(l.pair)), id, ts)
  {
    LastAfterInsert(cpp, Key(l.id, ts), Flat(l.pair), id);
  }

  lemma {:induction false} ConfusedParts(db: Db<PyPair>, ts: int, lives: seq<Live<PyPair>>) returns (id: string)
    ensures var py, cpp := RecordAll(db, ts, lives), RecordAll(FlatDb(db), ts, FlatLives(lives));
            if Confused(db, ts, lives) then Parted(py.info, cpp.info, id, ts) else FlatDb(py) == cpp
  {
    id := "";
    if lives != [] {
      var pre, l := lives[..|lives| - 1], lives[|lives| - 1];
      id := ConfusedParts(db, ts, pre);
      var py, cpp := RecordAll(db, ts, pre), RecordAll(FlatDb(db), ts, FlatLives(pre));
      assert FlatLives(lives)[..|FlatLives(lives)| - 1] == FlatLives(pre);
      assert RecordAll(FlatDb(db), ts, FlatLives(lives)) == RecordOne(cpp, ts, FlatLive(l));
      if Confused(db, ts, pre) {
        PartedStays(py.info, cpp.info, id, ts, l);
      } else {
        EditionsNoteAlike(py.info, l.id, ts, l.pair);
        if Confusable(py.info, l.id, ts, l.pair) {
          id := l.id;
          FlatLast(py.info, id);
        }
      }
    }
  }

  /** For every store and every list of entries, repeated channels included, both editions leave the
      same three tables exactly when no entry is confusable when its turn comes. */
  lemma EditionsAgree(db: Db<PyPair>, ts: int, lives: seq<Live<PyPair>>)
    ensures FlatDb(RecordAll(db, ts, lives)) == RecordAll(FlatDb(db), ts, FlatLives(lives)) <==>
                  !Confused(db, ts, lives)
  {
    var id := ConfusedParts(db, ts, lives);
    if Confused(db, ts, lives) {
      var py := RecordAll(db, ts, lives);
      assert FlatInfo(py.info)[Key(id, ts)] == Flat(py.info[Key(id, ts)]);
    }
  }

  /** For a poll that names each channel once the condition can be read off the store before the poll. */
  lemma {:induction false} DistinctConfused(db: Db<PyPair>, ts: int, lives: seq<Live<PyPair>>)
    requires Distinct(lives)
    ensures Confused(db, ts, lives) <==> exists l :: l in lives && Confusable(db.info, l.id, ts, l.pair)
  {
    if lives != [] {
      var pre, l := lives[..|lives| - 1], lives[|lives| - 1];
      DistinctConfused(db, ts, pre);
      Untouched(db, ts, lives);
      assert l in lives && forall o :: o in lives ==> o in pre || o == l;
    }
  }

  /** In particular whenever no string in store or poll is present and empty. */
  lemma {:induction false} PlainIsNotConfused(db: Db<PyPair>, ts: int, lives: seq<Live<PyPair>>)
    requires AllPlain(db.info)
    requires forall l :: l in lives ==> Plain(l.pair)
    ensures !Confused(db, ts, lives) && AllPlain(RecordAll(db, ts, lives).info)
  {
    if lives != [] {
      var pre, l := lives[..|lives| - 1], lives[|lives| - 1];
      PlainIsNotConfused(db, ts, pre);
      assert l in lives;
      var info := RecordAll(db, ts, pre).info;
      var last := Last(info, l.id);
      assert last.Some? ==> last.value.ts in Times(info, l.id) && Plain(last.value.pair);
      assert RecordAll(db, ts, lives).info == NoteInfo(info, l.id, ts, l.pair);
      assert !Confusable(info, l.id, ts, l.pair);
    }
  }

  /** They can differ: a store says title absent, a poll says title present and empty. */
  lemma EditionsCanDiffer()
    ensures Confused(Db(map[], map[], map[Key("c", 0) := PyPair(None, None)]), 60,
                     [Live("c", "n", 1, PyPair(None, Some("")))])
  {
    var db := Db(map[], map[], map[Key("c", 0) := PyPair(None, None)]);
    var l := Live("c", "n", 1, PyPair(None, Some("")));
    assert [l][..0] == [] && 0 in Times(db.info, "c") && Key("c", 0) in db.info;
  }
}
