/** Collecting the top channels page by page. */
module Fetch {
  import opened Tables

  const PAGE := 20

  /** What one request gives: a page (entries that are not objects appear with an empty id) with the
      cursor of the next one, or an exception. */
  datatype Reply = Page(entries: seq<Live<Pair>>, next: string) | Failed

  /** A pager may answer differently at every request: it is given the number of requests before. */
  type Pager = (nat, int, string) -> Reply

  datatype Outcome = Fetched(lives: seq<Live<Pair>>, requests: nat) | Threw(requests: nat)

  /** Entries with a channel id. */
  function Named(entries: seq<Live<Pair>>): seq<Live<Pair>>
  {
    if entries == [] then [] else
    Named(entries[..|entries| - 1]) + if entries[|entries| - 1].id != "" then [entries[|entries| - 1]] else []
  }

  /** The size asked for when `have` of `topN` entries are there. */
  function Size(topN: int, have: nat): int
  {
    if topN - have < PAGE then topN - have else PAGE
  }

  /** The rest of the loop, from the state before a request. */
  function Rest(pager: Pager, topN: int, n: nat, lives: seq<Live<Pair>>, next: string): Outcome
    decreases topN - |lives|
  {
    if |lives| >= topN then Fetched(lives, n) else
    match pager(n, Size(topN, |lives|), next)
    case Failed => Threw(n + 1)
    case Page(entries, next') =>
      var got := Named(entries);
      if got == [] || next' == "" then Fetched(lives + got, n + 1) else Rest(pager, topN, n + 1, lives + got, next')
  }

  /** The loop, then the cut to topN.  Cutting to a negative size throws. */
  function Top(pager: Pager, topN: int): Outcome
  {
    var o := Rest(pager, topN, 0, [], "");
    if o.Fetched? && |o.lives| > topN then
      if topN < 0 then Threw(o.requests) else Fetched(o.lives[..topN], o.requests)
    else o
  }

  method FetchTopLives(pager: Pager, topN: int) returns (o: Outcome)
    ensures o == Top(pager, topN)
  {
    var lives, next, n := [], "", 0;
    while |lives| < topN
      invariant Rest(pager, topN, n, lives, next) == Rest(pager, topN, 0, [], "")
      decreases topN - |lives|
    {
      var reply := pager(n, Size(topN, |lives|), next);
      if reply.Failed? { return Threw(n + 1); }
      ghost var before := lives;
      var got := 0;
      for i := 0 to |reply.entries|
        invariant lives == before + Named(reply.entries[..i])
        invariant got == |Named(reply.entries[..i])|
      {
        assert reply.entries[..i + 1][..i] == reply.entries[..i];
        if reply.entries[i].id != "" {
          lives := lives + [reply.entries[i]];
          got := got + 1;
        }
      }
      assert reply.entries[..|reply.entries|] == reply.entries;
      next, n := reply.next, n + 1;
      if got == 0 || next == "" {
        assert Fetched(lives, n) == Rest(pager, topN, 0, [], "");
        break;
      }
    }
    if |lives| > topN {
      if topN < 0 { return Threw(n); }
      lives := lives[..topN];
    }
    return Fetched(lives, n);
  }

  /** The named entries of the first n pages, each requested with its predecessor's cursor. */
  function Pages(pager: Pager, topN: int, n: nat): (seq<Live<Pair>>, string)
  {
    if n == 0 then ([], "") else
    var (lives, next) := Pages(pager, topN, n - 1);
    match pager(n - 1, Size(topN, |lives|), next)
    case Failed => (lives, next)
    case Page(entries, next') => (lives + Named(entries), next')
  }

  /** Collecting keeps exactly the entries with an id, in order: page by page, entry by entry. */
  lemma {:induction false} NamedIs(a: seq<Live<Pair>>, b: seq<Live<Pair>>, e: Live<Pair>)
    ensures Named(a + b) == Named(a) + Named(b)
    ensures Named([]) == [] && Named([e]) == if e.id == "" then [] else [e]
  {
    assert [e][..0] == [];
    if b == [] {
      assert a + b == a;
    } else {
      NamedIs(a, b[..|b| - 1], e);
      assert (a + b)[..|a + b| - 1] == a + b[..|b| - 1];
    }
  }

  /** The reply to request k, when the k before it were pages. */
  function ReplyTo(pager: Pager, topN: int, k: nat): Reply
  {
    var (lives, next) := Pages(pager, topN, k);
    pager(k, Size(topN, |lives|), next)
  }

  /** A page that asks for another one: some entry has an id, and there is a cursor. */
  predicate GoesOn(r: Reply)
  {
    r.Page? && r.next != "" && Named(r.entries) != []
  }

  /** How the loop ends, from the state before request n. */
  lemma {:induction false} RestStops(pager: Pager, topN: int, n: nat)
    requires n <= |Pages(pager, topN, n).0|
    ensures var (lives, next) := Pages(pager, topN, n);
            var o := Rest(pager, topN, n, lives, next);
            && o.requests >= n
            && (o.Threw? <==> o.requests > n && ReplyTo(pager, topN, o.requests - 1).Failed?)
            && (|Pages(pager, topN, o.requests).0| < topN ==>
                  o.requests > n && !GoesOn(ReplyTo(pager, topN, o.requests - 1)))
    decreases topN - |Pages(pager, topN, n).0|
  {
    var (lives, next) := Pages(pager, topN, n);
    if |lives| < topN && GoesOn(ReplyTo(pager, topN, n)) { RestStops(pager, topN, n + 1); }
  }

  /** How it goes on. */
  lemma {:induction false} RestGoesOn(pager: Pager, topN: int, n: nat, k: nat)
    requires n <= |Pages(pager, topN, n).0|
    ensures var (lives, next) := Pages(pager, topN, n);
            var o := Rest(pager, topN, n, lives, next);
            && (n <= k < o.requests ==> |Pages(pager, topN, k).0| < topN)
            && (n <= k < o.requests - 1 ==> GoesOn(ReplyTo(pager, topN, k)))
    decreases topN - |Pages(pager, topN, n).0|
  {
    var (lives, next) := Pages(pager, topN, n);
    if |lives| < topN && GoesOn(ReplyTo(pager, topN, n)) { RestGoesOn(pager, topN, n + 1, k); }
  }

  /** Exactly what the loop does, for every pager and every topN that is not negative.  It asks again as long as
      entries are missing and pages go on; it throws exactly if the last request failed, so a poll is never recorded
      in part; and what it returns is the named entries of all the pages, cut to topN. */
  lemma TopExactly(pager: Pager, topN: nat)
    ensures var o := Top(pager, topN);
            && (forall k :: 0 <= k < o.requests ==> |Pages(pager, topN, k).0| < topN)
            && (forall k :: 0 <= k < o.requests - 1 ==> GoesOn(ReplyTo(pager, topN, k)))
            && (o.Threw? <==> o.requests > 0 && ReplyTo(pager, topN, o.requests - 1).Failed?)
            && (o.Fetched? ==>
                  var all := Pages(pager, topN, o.requests).0;
                  && o.lives == all[..if |all| < topN then |all| else topN]
                  && (|all| < topN ==> o.requests > 0 && !GoesOn(ReplyTo(pager, topN, o.requests - 1))))
  {
    RestStops(pager, topN, 0);
    RestIsPages(pager, topN, 0);
    forall k: nat { RestGoesOn(pager, topN, 0, k); }
  }

  /** No request asks for more than 20 entries, nor for more than are missing: a pager that keeps to the size never
      sends an entry that is cut off. */
  lemma {:induction false} NothingIsCut(pager: Pager, topN: nat, n: nat)
    requires forall k: nat, size: int, next: string ::
               pager(k, size, next).Page? ==> |pager(k, size, next).entries| <= size || size < 0
    requires forall k :: 0 <= k < n ==> |Pages(pager, topN, k).0| < topN
    ensures |Pages(pager, topN, n).0| <= topN && |Pages(pager, topN, n).0| <= 20 * n
  {
    if n > 0 {
      NothingIsCut(pager, topN, n - 1);
      var r := ReplyTo(pager, topN, n - 1);
      if r.Page? { NamedLength(r.entries); }
    }
  }

  lemma {:induction false} NamedLength(entries: seq<Live<Pair>>)
    ensures |Named(entries)| <= |entries|
  {
    if entries != [] { NamedLength(entries[..|entries| - 1]); }
  }

  lemma {:induction false} RestIsPages(pager: Pager, topN: int, n: nat)
    requires n <= |Pages(pager, topN, n).0|
    ensures var (lives, next) := Pages(pager, topN, n);
            var o := Rest(pager, topN, n, lives, next);
            && o.requests <= (if n <= topN then topN else n)
            && (o.Fetched? ==> o.lives == Pages(pager, topN, o.requests).0)
    decreases topN - |Pages(pager, topN, n).0|
  {
    var (lives, next) := Pages(pager, topN, n);
    if |lives| < topN {
      var r := pager(n, Size(topN, |lives|), next);
      if r.Page? && Named(r.entries) != [] && r.next != "" { RestIsPages(pager, topN, n + 1); }
    }
  }

  /** For every pager and every topN that is not negative: at most topN requests, and on success at most
      topN entries, a prefix of the named entries of the pages asked for. */
  lemma TopIsAPrefix(pager: Pager, topN: int)
    requires topN >= 0
    ensures var o := Top(pager, topN);
            && o.requests <= topN
            && (o.Fetched? ==> |o.lives| <= topN && o.lives <= Pages(pager, topN, o.requests).0)
  {
    RestIsPages(pager, topN, 0);
  }

  /** A negative topN always throws, without a request. */
  lemma NegativeTopThrows(pager: Pager, topN: int)
    ensures topN < 0 <==> Top(pager, topN) == Threw(0)
  {
    if topN > 0 { assert Size(topN, 0) >= 1; RequestsGrow(pager, topN, 0, [], ""); }
  }

  lemma {:induction false} RequestsGrow(pager: Pager, topN: int, n: nat, lives: seq<Live<Pair>>, next: string)
    ensures Rest(pager, topN, n, lives, next).requests >= if |lives| < topN then n + 1 else n
    decreases topN - |lives|
  {
    if |lives| < topN {
      var r := pager(n, Size(topN, |lives|), next);
      if r.Page? && Named(r.entries) != [] && r.next != "" {
        RequestsGrow(pager, topN, n + 1, lives + Named(r.entries), r.next);
      }
    }
  }

  function At(cursor: nat -> string, off: nat): string
  {
    if off == 0 then "" else cursor(off)
  }

  /** A pager over a fixed list: the cursor stands for an offset, no cursor for 0 and for the end. */
  ghost predicate Offsets(pager: Pager, list: seq<Live<Pair>>, cursor: nat -> string)
  {
    && (forall off :: 0 < off < |list| ==> cursor(off) != "")
    && forall n: nat, size: nat, off: nat ::
         0 < size && (off < |list| || off == 0) ==>
           var end := End(list, off, size);
           pager(n, size, At(cursor, off)) == Page(list[off..end], if end < |list| then cursor(end) else "")
  }

  lemma {:induction false} AllNamed(entries: seq<Live<Pair>>)
    requires forall i :: 0 <= i < |entries| ==> entries[i].id != ""
    ensures Named(entries) == entries
  {
    if entries != [] { AllNamed(entries[..|entries| - 1]); }
  }

  function End(list: seq<Live<Pair>>, off: nat, size: nat): nat
  {
    if off + size < |list| then off + size else |list|
  }

  lemma OffsetPage(pager: Pager, list: seq<Live<Pair>>, cursor: nat -> string, n: nat, size: nat, off: nat)
    requires Offsets(pager, list, cursor) && forall i :: 0 <= i < |list| ==> list[i].id != ""
    requires 0 < size && (off < |list| || off == 0)
    ensures var end := End(list, off, size);
            && off <= end && list[..off] + list[off..end] == list[..end]
            && pager(n, size, At(cursor, off)) == Page(list[off..end], if end < |list| then At(cursor, end) else "")
            && Named(list[off..end]) == list[off..end]
            && (end < |list| ==> off < end && At(cursor, end) != "")
  {
    AllNamed(list[off..End(list, off, size)]);
  }

  lemma {:induction false} RestOfOffsets(pager: Pager, topN: nat, list: seq<Live<Pair>>, cursor: nat -> string,
        n: nat, off: nat)
    requires Offsets(pager, list, cursor) && forall i :: 0 <= i < |list| ==> list[i].id != ""
    requires off <= topN && (off < |list| || off == 0)
    ensures var o := Rest(pager, topN, n, list[..off], At(cursor, off));
            var m := if topN < |list| then topN else |list|;
            && o.Fetched? && o.lives == list[..m]
            && (o.requests == n + 1 || 20 * (o.requests - n) < m - off + 20)
    decreases topN - off
  {
    if off < topN {
      var size := Size(topN, off);
      OffsetPage(pager, list, cursor, n, size, off);
      if End(list, off, size) < |list| { RestOfOffsets(pager, topN, list, cursor, n + 1, End(list, off, size)); }
    }
  }

  /** Over a fixed list of named entries the answer is exactly its first topN, in as few requests of 20 as hold
      them. */
  lemma OffsetPagerGivesTheTop(pager: Pager, topN: nat, list: seq<Live<Pair>>, cursor: nat -> string)
    requires Offsets(pager, list, cursor) && forall i :: 0 <= i < |list| ==> list[i].id != ""
    ensures var o := Top(pager, topN);
            var m := if topN < |list| then topN else |list|;
            && o.Fetched? && o.lives == list[..m]
            && (o.requests == 1 || 20 * o.requests < m + 20)
  {
    assert list[..0] == [];
    RestOfOffsets(pager, topN, list, cursor, 0, 0);
  }
}
