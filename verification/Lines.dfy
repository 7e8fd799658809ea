/** Newline framing: the lines of a byte stream and what is left over. */
module Lines {

  newtype Byte = x: int | 0 <= x < 256

  type Bytes = seq<Byte>

  const NL: Byte := 10

  /** The complete lines of a stream and the bytes after the last newline. */
  function Split(s: Bytes): (r: (seq<Bytes>, Bytes))
    ensures NL !in r.1
    ensures |r.1| <= |s|
  {
    if s == [] then ([], []) else
    var (lines, rest) := Split(s[..|s| - 1]);
    if s[|s| - 1] == NL then (lines + [rest], []) else (lines, rest + [s[|s| - 1]])
  }

  function NonEmpty(lines: seq<Bytes>): seq<Bytes>
  {
    if lines == [] then [] else
    NonEmpty(lines[..|lines| - 1]) + if lines[|lines| - 1] == [] then [] else [lines[|lines| - 1]]
  }

  /** What a reader of the stream handles, and what it still holds. */
  function Handled(s: Bytes): seq<Bytes> { NonEmpty(Split(s).0) }
  function Held(s: Bytes): Bytes { Split(s).1 }

  /** Every message followed by a newline. */
  function Frame(msgs: seq<Bytes>): Bytes
  {
    if msgs == [] then [] else Frame(msgs[..|msgs| - 1]) + msgs[|msgs| - 1] + [NL]
  }

  predicate Framable(m: Bytes) { m != [] && NL !in m }

  lemma {:induction false} NonEmptyConcat(a: seq<Bytes>, b: seq<Bytes>)
    ensures NonEmpty(a + b) == NonEmpty(a) + NonEmpty(b)
  {
    if b == [] {
      assert a + b == a;
    } else {
      NonEmptyConcat(a, b[..|b| - 1]);
      assert (a + b)[..|a + b| - 1] == a + b[..|b| - 1];
    }
  }

  lemma {:induction false} SplitPlain(s: Bytes)
    requires NL !in s
    ensures Split(s) == ([], s)
  {
    if s != [] {
      SplitPlain(s[..|s| - 1]);
      assert s == s[..|s| - 1] + [s[|s| - 1]];
    }
  }

  lemma {:induction false} SplitConcat(a: Bytes, b: Bytes)
    ensures Split(a + b) == (Split(a).0 + Split(Split(a).1 + b).0, Split(Split(a).1 + b).1)
  {
    if b == [] {
      assert a + b == a && Split(a).1 + b == Split(a).1;
      SplitPlain(Split(a).1);
      assert Split(a).0 + [] == Split(a).0;
    } else {
      var b' := b[..|b| - 1];
      SplitConcat(a, b');
      assert (a + b)[..|a + b| - 1] == a + b';
      var t := Split(Split(a).1 + b');
      assert (Split(a).1 + b)[..|Split(a).1 + b| - 1] == Split(a).1 + b';
      assert (Split(a).0 + t.0) + [t.1] == Split(a).0 + (t.0 + [t.1]);
    }
  }

  /** Chunking does not matter: what is held after a chunk and the next chunk carry on as the stream. */
  lemma Chunk(a: Bytes, b: Bytes)
    ensures Handled(a + b) == Handled(a) + Handled(Held(a) + b)
    ensures Held(a + b) == Held(Held(a) + b)
  {
    SplitConcat(a, b);
    NonEmptyConcat(Split(a).0, Split(Held(a) + b).0);
  }

  lemma OneLine(line: Bytes)
    requires NL !in line
    ensures Split(line + [NL]) == ([line], [])
  {
    SplitPlain(line);
    assert (line + [NL])[..|line + [NL]| - 1] == line && (line + [NL])[|line + [NL]| - 1] == NL;
    assert Split(line).0 + [line] == [line];
  }

  /** What handling one line amounts to: empty ones are dropped. */
  function Shown(line: Bytes): seq<Bytes> { if line == [] then [] else [line] }

  lemma NonEmptyOne(line: Bytes)
    ensures NonEmpty([line]) == Shown(line)
  {
    assert [line][..|[line]| - 1] == [] && NonEmpty([]) == [];
  }

  /** Taking the first line off a buffer. */
  lemma FirstLine(s: Bytes, p: nat)
    requires p < |s| && s[p] == NL && NL !in s[..p]
    ensures Handled(s) == Shown(s[..p]) + Handled(s[p + 1..])
    ensures Held(s) == Held(s[p + 1..])
  {
    var line, rest := s[..p], s[p + 1..];
    OneLine(line);
    NonEmptyOne(line);
    var head := line + [NL];
    Chunk(head, rest);
    assert Held(head) + rest == rest;
    assert s == head + rest;
  }

  lemma {:induction false} FrameConcat(a: seq<Bytes>, b: seq<Bytes>)
    ensures Frame(a + b) == Frame(a) + Frame(b)
  {
    if b == [] {
      assert a + b == a;
    } else {
      FrameConcat(a, b[..|b| - 1]);
      assert (a + b)[..|a + b| - 1] == a + b[..|b| - 1];
    }
  }

  lemma OneFrame(m: Bytes)
    requires Framable(m)
    ensures Handled(m + [NL]) == [m] && Held(m + [NL]) == []
  {
    assert (m + [NL])[..|m|] == m && (m + [NL])[|m| + 1..] == [];
    FirstLine(m + [NL], |m|);
  }

  lemma OneMore(s: Bytes, m: Bytes)
    requires Framable(m) && Held(s) == []
    ensures Handled(s + m + [NL]) == Handled(s) + [m] && Held(s + m + [NL]) == []
  {
    OneFrame(m);
    assert s + m + [NL] == s + (m + [NL]);
    Chunk(s, m + [NL]);
    assert [] + (m + [NL]) == m + [NL];
  }

  /** Reading back a whole framed stream gives the messages. */
  lemma {:induction false} FrameRoundTrip(msgs: seq<Bytes>)
    requires forall i :: 0 <= i < |msgs| ==> Framable(msgs[i])
    ensures Handled(Frame(msgs)) == msgs && Held(Frame(msgs)) == []
  {
    if msgs != [] {
      FrameRoundTrip(msgs[..|msgs| - 1]);
      OneMore(Frame(msgs[..|msgs| - 1]), msgs[|msgs| - 1]);
    }
  }

  lemma PrefixHandled(s: Bytes, t: Bytes)
    requires s <= t
    ensures Handled(s) <= Handled(t)
  {
    Chunk(s, t[|s|..]);
    assert s + t[|s|..] == t;
  }

  /** Reading any part of a framed stream gives its first messages, unsplit and in order. */
  lemma PrefixOfFrames(msgs: seq<Bytes>, s: Bytes)
    requires forall i :: 0 <= i < |msgs| ==> Framable(msgs[i])
    requires s <= Frame(msgs)
    ensures Handled(s) <= msgs
  {
    FrameRoundTrip(msgs);
    PrefixHandled(s, Frame(msgs));
  }

  /** The position of the first newline, or the length. */
  function First(s: Bytes): (p: nat)
    ensures p <= |s| && NL !in s[..p]
    ensures p < |s| ==> s[p] == NL
  {
    if s == [] || s[0] == NL then 0 else
    var p := First(s[1..]);
    assert s[..1 + p] == [s[0]] + s[1..][..p];
    1 + p
  }

  lemma Assoc<T>(a: seq<T>, b: seq<T>, c: seq<T>)
    ensures a + (b + c) == a + b + c
  {
  }

  /** Taking the first line off a buffer takes it off what is still to be handled. */
  lemma LineTaken(done: seq<Bytes>, inb: Bytes, n: nat, total: seq<Bytes>)
    requires n < |inb| && inb[n] == NL && NL !in inb[..n]
    requires done + Handled(inb) == total
    ensures done + Shown(inb[..n]) + Handled(inb[n + 1..]) == total
    ensures Held(inb[n + 1..]) == Held(inb)
  {
    FirstLine(inb, n);
    Assoc(done, Shown(inb[..n]), Handled(inb[n + 1..]));
  }

  method Find(s: Bytes) returns (p: nat)
    ensures p == First(s)
  {
    p := 0;
    while p < |s| && s[p] != NL
      invariant p <= |s| && First(s) == p + First(s[p..])
    {
      assert s[p..][1..] == s[p + 1..];
      p := p + 1;
    }
  }
}
