/** What pollers of the cached log get: the cache is the tail of an unbounded log. */
module LogPolling {
  import BinaryFile
  import opened Bytes
  import opened MemoryCachedLog
  import opened Wrappers

  // ---------------------------------------------------------------------
  // The buffer holds the end of the stream, wrapped
  // ---------------------------------------------------------------------

  /** `buf` holds the end of `stream`, the spindle being `sp` bytes into a lap that began at `lap`. */
  ghost predicate RingAt(max: nat, stream: seq<Byte>, buf: seq<Byte>, sp: nat, lap: nat) {
    && sp <= max && sp <= |buf| && |stream| == lap + sp
    && (if lap == 0 then |buf| == sp else |buf| == max <= lap)
    && forall i :: 0 <= i < |buf| ==> buf[i] == stream[if i < sp then lap + i else lap - max + i]
  }

  /** `buf'` is `buf` with `s` written at the spindle, wrapped at `max`. */
  ghost predicate Wrapped(max: nat, buf: seq<Byte>, sp: nat, s: seq<Byte>, buf': seq<Byte>) {
    var over := sp + |s| - max;
    && sp <= |buf| <= max && |s| < max
    && |buf'| == (if over > 0 then max else if |buf| < sp + |s| then sp + |s| else |buf|)
    && forall i :: 0 <= i < |buf'| ==>
         buf'[i] == if i < over then s[max - sp + i] else if sp <= i < sp + |s| then s[i - sp] else buf[i]
  }

  /** A write byte by byte. */
  lemma WrittenAt(buf: seq<Byte>, sp: nat, s: seq<Byte>)
    requires sp <= |buf|
    ensures
      var buf' := BinaryFile.WriteAt(buf, sp, s);
      && |buf'| == (if |buf| < sp + |s| then sp + |s| else |buf|)
      && forall i :: 0 <= i < |buf'| ==> buf'[i] == if sp <= i < sp + |s| then s[i - sp] else buf[i]
  {
  }

  lemma EntryIsWrapped(max: nat, buf: seq<Byte>, sp: nat, s: seq<Byte>)
    requires sp <= |buf| <= max && |s| < max
    ensures Wrapped(max, buf, sp, s, WriteEntry(max, buf, sp, s))
  {
    var n := max - sp;
    if sp + |s| > max {
      assert Slice(s, 0, n) == s[..n] && Slice(s, n, |s|) == s[n..];
      WrittenAt(buf, sp, s[..n]);
      WrittenAt(BinaryFile.WriteAt(buf, sp, s[..n]), 0, s[n..]);
    } else {
      assert Slice(s, 0, n) == s;
      WrittenAt(buf, sp, s);
    }
  }

  lemma RingGoesOn(max: nat, stream: seq<Byte>, buf: seq<Byte>, s: seq<Byte>, sp: nat, lap: nat, buf': seq<Byte>)
    requires RingAt(max, stream, buf, sp, lap) && Wrapped(max, buf, sp, s, buf') && sp + |s| <= max
    ensures RingAt(max, stream + s, buf', sp + |s|, lap)
  {
  }

  lemma RingWraps(max: nat, stream: seq<Byte>, buf: seq<Byte>, s: seq<Byte>, sp: nat, lap: nat, buf': seq<Byte>)
    requires RingAt(max, stream, buf, sp, lap) && Wrapped(max, buf, sp, s, buf') && sp + |s| > max
    ensures RingAt(max, stream + s, buf', sp + |s| - max, lap + max)
  {
  }

  ghost predicate RingOf(max: nat, es: seq<Entry>, lap: nat) {
    RingAt(max, Flat(es), BufferOf(max, es), SpindleAt(max, |Flat(es)|), lap)
  }

  /** Whatever has been written, the buffer is the end of the stream, wrapped at the spindle. */
  lemma {:induction false} BufferIsRing(max: nat, es: seq<Entry>) returns (lap: nat)
    requires Accepted(max, es)
    ensures RingOf(max, es, lap)
  {
    if es == [] {
      lap := 0;
    } else {
      AcceptedInit(max, es);
      lap := BufferIsRing(max, es[..|es| - 1]);
      lap := RingLast(max, es, lap);
    }
  }

  /** From all entries but the last to all of them. */
  lemma RingLast(max: nat, es: seq<Entry>, lap: nat) returns (lap': nat)
    requires es != [] && |es[|es| - 1]| + 1 < max
    requires RingOf(max, es[..|es| - 1], lap)
    ensures RingOf(max, es, lap')
  {
    var init, s := es[..|es| - 1], es[|es| - 1];
    assert es == init + [s];
    AppendedParts(max, init, s);
    lap' := RingStep(max, Flat(init), BufferOf(max, init), SpindleAt(max, |Flat(init)|), lap, [NEWLINE] + s,
                     BufferOf(max, es), SpindleAt(max, |Flat(es)|));
  }

  /** Another `s` goes on with the lap or begins the next one. */
  lemma RingStep(max: nat, stream: seq<Byte>, buf: seq<Byte>, sp: nat, lap: nat, s: seq<Byte>,
                 buf': seq<Byte>, sp': nat)
      returns (lap': nat)
    requires RingAt(max, stream, buf, sp, lap) && Wrapped(max, buf, sp, s, buf')
    requires sp' == if sp + |s| > max then sp + |s| - max else sp + |s|
    ensures RingAt(max, stream + s, buf', sp', lap')
  {
    if sp + |s| > max {
      RingWraps(max, stream, buf, s, sp, lap, buf');
      lap' := lap + max;
    } else {
      RingGoesOn(max, stream, buf, s, sp, lap, buf');
      lap' := lap;
    }
  }

  lemma AcceptedInit(max: nat, es: seq<Entry>)
    requires Accepted(max, es) && es != []
    ensures Accepted(max, es[..|es| - 1]) && |es[|es| - 1]| + 1 < max && Plain(es[|es| - 1])
  {
  }

  /** The stream, the buffer and the spindle after one more entry. */
  lemma AppendedParts(max: nat, es: seq<Entry>, s: Entry)
    requires |s| + 1 < max && SpindleAt(max, |Flat(es)|) <= |BufferOf(max, es)| <= max
    ensures Flat(es + [s]) == Flat(es) + ([NEWLINE] + s)
    ensures Wrapped(max, BufferOf(max, es), SpindleAt(max, |Flat(es)|), [NEWLINE] + s, BufferOf(max, es + [s]))
    ensures
      var sp, n := SpindleAt(max, |Flat(es)|), 1 + |s|;
      SpindleAt(max, |Flat(es + [s])|) == if sp + n > max then sp + n - max else sp + n
  {
    NextSpindle(max, es, s);
    BufferAppend(max, es, s);
    EntryIsWrapped(max, BufferOf(max, es), SpindleAt(max, |Flat(es)|), [NEWLINE] + s);
    FlatAppend(es, s);
  }

  // ---------------------------------------------------------------------
  // Reading
  // ---------------------------------------------------------------------

  lemma {:induction false} FlatSplit(es: seq<Entry>, k: nat)
    requires k <= |es|
    ensures Flat(es) == Flat(es[..k]) + Flat(es[k..])
  {
    if k == |es| {
      assert es[..k] == es;
      assert es[k..] == [];
    } else {
      var init := es[..|es| - 1];
      FlatSplit(init, k);
      assert init[..k] == es[..k];
      assert es[k..][..|es| - k - 1] == init[k..];
    }
  }

  lemma SplitLine(d: seq<Byte>, e: Entry)
    requires Plain(e)
    ensures Split(d + ([NEWLINE] + e)) == Split(d) + [e]
    decreases |e|
  {
    var all := d + ([NEWLINE] + e);
    if e == [] {
      assert all[..|all| - 1] == d;
    } else {
      var init := e[..|e| - 1];
      SplitLine(d, init);
      assert all[..|all| - 1] == d + ([NEWLINE] + init);
      assert init + [e[|e| - 1]] == e;
    }
  }

  lemma {:induction false} SplitPlain(tail: seq<Byte>)
    requires Plain(tail)
    ensures Split(tail) == [tail]
  {
    if tail != [] {
      SplitPlain(tail[..|tail| - 1]);
      assert tail[..|tail| - 1] + [tail[|tail| - 1]] == tail;
    }
  }

  /** Splitting a newline-free remnant and some entries gives the remnant and the entries. */
  lemma {:induction false} SplitFlat(tail: seq<Byte>, es: seq<Entry>)
    requires Plain(tail) && AllPlain(es)
    ensures Split(tail + Flat(es)) == [tail] + es
  {
    if es == [] {
      SplitPlain(tail);
      assert tail + Flat(es) == tail;
    } else {
      var init, e := es[..|es| - 1], es[|es| - 1];
      var d, line := tail + Flat(init), [NEWLINE] + e;
      assert tail + Flat(es) == d + line by {
        assert Flat(es) == Flat(init) + line;
      }
      SplitFlat(tail, init);
      SplitLine(d, e);
      assert [tail] + init + [e] == [tail] + es;
    }
  }

  /** Reading from where the spindle was `n < max` bytes ago gives those `n` bytes, across a wrap or not. */
  lemma WindowIsNews(max: nat, stream: seq<Byte>, buf: seq<Byte>, sp: nat, lap: nat, from: nat, n: nat)
    requires RingAt(max, stream, buf, sp, lap)
    requires n < max && n <= |stream| && from <= max && from <= |stream| - n
    requires sp == if from + n > max then from + n - max else from + n
    ensures Window(max, buf, sp, Some(from)) == stream[|stream| - n..]
  {
    if from + n > max {
      assert lap >= max;
      assert buf[from..max] == buf[sp..][from - sp..];
    } else if n > 0 {
      assert buf[from..sp] == buf[..sp][from..];
    }
  }

  /** Reading everything gives the last `min(total, max)` bytes of the log. */
  lemma WindowIsTail(max: nat, stream: seq<Byte>, buf: seq<Byte>, sp: nat, lap: nat)
    requires RingAt(max, stream, buf, sp, lap)
    ensures
      var w := Window(max, buf, sp, None);
      w == if |stream| <= max then stream else stream[|stream| - max..]
  {
    WindowIsRotated(max, buf, sp);
    if lap > 0 {
      SliceEnds(stream, lap - max + sp, lap);
    }
  }

  lemma WindowIsRotated(max: nat, buf: seq<Byte>, sp: nat)
    requires sp <= |buf| <= max && (|buf| < max ==> sp == |buf|)
    ensures Window(max, buf, sp, None) == buf[sp..] + buf[..sp]
  {
    assert BinaryFile.ReadAt(buf, 0, sp) == buf[..sp];
    assert BinaryFile.ReadAt(buf, sp, max - sp) == buf[sp..];
  }

  lemma SliceEnds(stream: seq<Byte>, from: nat, to: nat)
    requires from <= to <= |stream|
    ensures stream[from..to] + stream[to..] == stream[from..]
  {
  }

  function Amount(es: seq<Entry>): nat {
    |Flat(es)|
  }

  /** The spindle a poller was given when the first `k` entries had been written. */
  function SpindleOf(max: nat, es: seq<Entry>, k: nat): nat
    requires k <= |es|
  {
    SpindleAt(max, Amount(es[..k]))
  }

  lemma SuffixPlain(max: nat, es: seq<Entry>, k: nat)
    requires Accepted(max, es) && k <= |es|
    ensures AllPlain(es[k..])
  {
  }

  lemma SplitEntries(tail: seq<Byte>, es: seq<Entry>)
    requires Plain(tail) && AllPlain(es)
    ensures Split(tail + Flat(es))[1..] == es
  {
    SplitFlat(tail, es);
  }

  /** What iterating `es` reads with the given offset. */
  function Read(max: nat, es: seq<Entry>, offset: Option<nat>): seq<Byte> {
    Window(max, BufferOf(max, es), SpindleAt(max, Amount(es)), offset)
  }

  lemma SpindleLater(max: nat, es: seq<Entry>, k: nat)
    requires k <= |es| && Amount(es[k..]) < max
    ensures Amount(es) == Amount(es[..k]) + Amount(es[k..])
    ensures
      var from, n := SpindleOf(max, es, k), Amount(es[k..]);
      SpindleAt(max, Amount(es)) == if from + n > max then from + n - max else from + n
  {
    FlatSplit(es, k);
    if Amount(es[k..]) > 0 {
      SpindleStep(max, Amount(es[..k]), Amount(es[k..]));
    }
  }

  lemma PollReadsNews(max: nat, es: seq<Entry>, k: nat)
    requires Accepted(max, es) && k <= |es| && Amount(es[k..]) < max
    ensures Read(max, es, Some(SpindleOf(max, es, k))) == Flat(es[k..])
  {
    var lap := BufferIsRing(max, es);
    var stream, buf, sp := Flat(es), BufferOf(max, es), SpindleAt(max, Amount(es));
    var from, n := SpindleOf(max, es, k), Amount(es[k..]);
    SpindleLater(max, es, k);
    WindowIsNews(max, stream, buf, sp, lap, from, n);
    FlatSplit(es, k);
    assert stream[|stream| - n..] == Flat(es[k..]);
  }

  /**
   * Polling: if fewer than `max_cache` bytes have been written since, the
   * entries read from an old spindle are exactly those written since, in order.
   */
  lemma PollYieldsNews(max: nat, es: seq<Entry>, k: nat)
    requires Accepted(max, es) && k <= |es| && Amount(es[k..]) < max
    ensures Yielded(max, es, Some(SpindleOf(max, es, k))) == es[k..]
  {
    PollReadsNews(max, es, k);
    SuffixPlain(max, es, k);
    SplitEntries([], es[k..]);
    assert [] + Flat(es[k..]) == Flat(es[k..]);
  }

  // ---------------------------------------------------------------------
  // Exactly when a poll is right
  // ---------------------------------------------------------------------

  lemma ReadIsBounded(max: nat, es: seq<Entry>, from: nat)
    requires Accepted(max, es) && from <= max
    ensures |Read(max, es, Some(from))| <= max
  {
    var lap := BufferIsRing(max, es);
  }

  lemma {:induction false} SplitAmount(d: seq<Byte>)
    ensures |d| == |Split(d)[0]| + Amount(Split(d)[1..])
  {
    if d != [] {
      var init, c := d[..|d| - 1], d[|d| - 1];
      var r := Split(init);
      SplitAmount(init);
      if c == NEWLINE {
        assert (r + [[]])[1..] == r[1..] + [[]];
        FlatAppend(r[1..], []);
      } else if |r| > 1 {
        var last := r[|r| - 1];
        assert r[1..] == r[1..|r| - 1] + [last];
        assert Split(d)[1..] == r[1..|r| - 1] + [last + [c]];
        FlatAppend(r[1..|r| - 1], last);
        FlatAppend(r[1..|r| - 1], last + [c]);
      } else {
        assert Split(d)[1..] == [] == r[1..];
      }
    }
  }

  /** After a whole lap the spindle is back where it was, or at the end if it was at 0. */
  lemma {:induction false} SpindleLap(max: nat, t: nat)
    requires max > 0
    ensures SpindleAt(max, t + max) == if t == 0 then max else SpindleAt(max, t)
  {
  }

  lemma PollOfOneLap(max: nat, es: seq<Entry>, k: nat)
    requires Accepted(max, es) && k <= |es| && Amount(es[k..]) == max > 0
    ensures Yielded(max, es, Some(SpindleOf(max, es, k))) == es[k..] <==> Amount(es[..k]) == 0
  {
    var t := Amount(es[..k]);
    var lap := BufferIsRing(max, es);
    FlatSplit(es, k);
    SpindleLap(max, t);
    SuffixPlain(max, es, k);
    if t == 0 {
      assert Flat(es) == Flat(es[k..]);
      assert Read(max, es, Some(0)) == Flat(es);
      SplitEntries([], es[k..]);
      assert [] + Flat(es[k..]) == Flat(es[k..]);
    } else {
      assert Read(max, es, Some(SpindleAt(max, t))) == [];
      assert es[k..] != [];
    }
  }

  /**
   * A poll yields exactly the entries written since if and only if fewer than
   * `max_cache` bytes were written since, or exactly `max_cache` bytes by a
   * log that was empty at the time.
   */
  lemma PollIsRightIff(max: nat, es: seq<Entry>, k: nat)
    requires Accepted(max, es) && k <= |es| && max > 0
    ensures Yielded(max, es, Some(SpindleOf(max, es, k))) == es[k..]
       <==> Amount(es[k..]) < max || (Amount(es[k..]) == max && Amount(es[..k]) == 0)
  {
    if Amount(es[k..]) < max {
      PollYieldsNews(max, es, k);
    } else if Amount(es[k..]) == max {
      PollOfOneLap(max, es, k);
    } else {
      ReadIsBounded(max, es, SpindleOf(max, es, k));
      SplitAmount(Read(max, es, Some(SpindleOf(max, es, k))));
    }
  }

  // ---------------------------------------------------------------------
  // Whole-log reads and consecutive polls
  // ---------------------------------------------------------------------

  /** The first entry from which on everything fits into `n` bytes. */
  lemma {:induction false} FirstWhole(es: seq<Entry>, n: nat, j: nat) returns (k: nat)
    requires j <= |es|
    requires j == 0 || Amount(es[j - 1..]) > n
    ensures j <= k <= |es|
    ensures Amount(es[k..]) <= n
    ensures k == 0 || Amount(es[k - 1..]) > n
    decreases |es| - j
  {
    if Amount(es[j..]) <= n {
      k := j;
    } else {
      k := FirstWhole(es, n, j + 1);
    }
  }

  lemma FlatFirst(e: Entry, es: seq<Entry>)
    ensures Flat([e] + es) == [NEWLINE] + e + Flat(es)
  {
    FlatSplit([e] + es, 1);
    assert ([e] + es)[..1] == [e] && ([e] + es)[1..] == es;
    FlatAppend([], e);
    assert [] + [e] == [e];
  }

  lemma TailOfLog(max: nat, es: seq<Entry>, k: nat) returns (rest: seq<Byte>)
    requires Accepted(max, es) && 0 < k <= |es|
    requires Amount(es[k..]) <= max < Amount(es[k - 1..])
    ensures Plain(rest)
    ensures Amount(es) > max && Flat(es)[Amount(es) - max..] == rest + Flat(es[k..])
  {
    var e := es[k - 1];
    FlatSplit(es, k - 1);
    assert es[k - 1..] == [e] + es[k..];
    FlatFirst(e, es[k..]);
    var d := [NEWLINE] + e + Flat(es[k..]);
    var n := |d| - max;
    rest := e[n - 1..];
    assert d[n..] == rest + Flat(es[k..]);
    var front := Flat(es[..k - 1]);
    assert Flat(es) == front + d;
    assert Flat(es)[|front| + n..] == d[n..];
  }

  /** Without an offset the last `max_cache` bytes of the log are read. */
  lemma FullReadReadsTail(max: nat, es: seq<Entry>)
    requires Accepted(max, es)
    ensures Read(max, es, None) == if Amount(es) <= max then Flat(es) else Flat(es)[Amount(es) - max..]
  {
    var lap := BufferIsRing(max, es);
    WindowIsTail(max, Flat(es), BufferOf(max, es), SpindleAt(max, Amount(es)), lap);
  }

  /** Those bytes are the end of some entry and the whole entries behind it. */
  lemma TailSplits(max: nat, es: seq<Entry>, k: nat)
    requires Accepted(max, es) && k <= |es|
    requires Amount(es[k..]) <= max && (k == 0 || Amount(es[k - 1..]) > max)
    ensures Split(if Amount(es) <= max then Flat(es) else Flat(es)[Amount(es) - max..])[1..] == es[k..]
  {
    SuffixPlain(max, es, k);
    if k == 0 {
      assert es[0..] == es;
      SplitEntries([], es);
      assert [] + Flat(es) == Flat(es);
    } else {
      var rest := TailOfLog(max, es, k);
      SplitEntries(rest, es[k..]);
    }
  }

  /**
   * Iterating without an offset yields exactly the entries that lie wholly,
   * with their leading newline, in the last `max_cache` bytes of the log.
   */
  lemma FullReadYieldsWholeEntries(max: nat, es: seq<Entry>) returns (k: nat)
    requires Accepted(max, es)
    ensures k <= |es|
    ensures Yielded(max, es, None) == es[k..]
    ensures Amount(es[k..]) <= max && (k == 0 || Amount(es[k - 1..]) > max)
  {
    k := FirstWhole(es, max, 0);
    FullReadReadsTail(max, es);
    TailSplits(max, es, k);
  }

  /** Poll times: entries written so far at each, from 0, fewer than `max_cache` bytes apart. */
  ghost predicate Polling(max: nat, es: seq<Entry>, times: seq<nat>) {
    && |times| > 0 && times[0] == 0
    && (forall i :: 0 <= i < |times| ==> times[i] <= |es|)
    && (forall i :: 0 < i < |times| ==> times[i - 1] <= times[i] && Amount(es[times[i - 1]..times[i]]) < max)
  }

  /** What the `i`-th poll yields, from the spindle the one before it was given. */
  function PollAt(max: nat, es: seq<Entry>, times: seq<nat>, i: nat): seq<Entry>
    requires 0 < i < |times| && times[i - 1] <= times[i] <= |es|
  {
    var now := es[..times[i]];
    Yielded(max, now, Some(SpindleOf(max, now, times[i - 1])))
  }

  /** The first `n` polls put together. */
  ghost function Polls(max: nat, es: seq<Entry>, times: seq<nat>, n: nat): seq<Entry>
    requires Polling(max, es, times) && n < |times|
  {
    if n == 0 then [] else Polls(max, es, times, n - 1) + PollAt(max, es, times, n)
  }

  lemma PrefixAccepted(max: nat, es: seq<Entry>, k: nat)
    requires Accepted(max, es) && k <= |es|
    ensures Accepted(max, es[..k])
  {
  }

  lemma PollAtYields(max: nat, es: seq<Entry>, times: seq<nat>, n: nat)
    requires Accepted(max, es) && Polling(max, es, times) && 0 < n < |times|
    ensures PollAt(max, es, times, n) == es[times[n - 1]..times[n]]
  {
    var now := es[..times[n]];
    assert now[times[n - 1]..] == es[times[n - 1]..times[n]];
    PrefixAccepted(max, es, times[n]);
    PollYieldsNews(max, now, times[n - 1]);
  }

  lemma SliceJoin(es: seq<Entry>, a: nat, b: nat)
    requires a <= b <= |es|
    ensures es[..a] + es[a..b] == es[..b]
  {
  }

  /** Consecutive polls put together are the log: nothing is missed and nothing comes twice. */
  lemma {:induction false} PollsConcatenate(max: nat, es: seq<Entry>, times: seq<nat>, n: nat)
    requires Accepted(max, es) && Polling(max, es, times) && n < |times|
    ensures Polls(max, es, times, n) == es[..times[n]]
  {
    if n > 0 {
      PollsConcatenate(max, es, times, n - 1);
      PollAtYields(max, es, times, n);
      SliceJoin(es, times[n - 1], times[n]);
    }
  }
}
