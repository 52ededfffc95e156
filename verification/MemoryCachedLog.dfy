/**
 * The log's in-memory cache (MemoryCachedLog.py): a buffer written round and
 * round, with a "spindle" that pollers keep to ask for what is new.
 */
module MemoryCachedLog {
  import BinaryFile
  import opened Bytes
  import opened Wrappers

  const NEWLINE: Byte := 10

  type Entry = seq<Byte>

  predicate Plain(b: seq<Byte>) {
    NEWLINE !in b
  }

  predicate AllPlain(es: seq<Entry>) {
    forall i :: 0 <= i < |es| ==> Plain(es[i])
  }

  /** The byte stream of some entries: each one behind a newline. */
  function Flat(es: seq<Entry>): (r: seq<Byte>)
  {
    if es == [] then [] else Flat(es[..|es| - 1]) + ([NEWLINE] + es[|es| - 1])
  }

  /** `data.split(b'\n')` */
  function Split(d: seq<Byte>): (r: seq<seq<Byte>>)
    ensures |r| >= 1
  {
    if d == [] then [[]]
    else
      var r := Split(d[..|d| - 1]);
      var c := d[|d| - 1];
      if c == NEWLINE then r + [[]] else r[|r| - 1 := r[|r| - 1] + [c]]
  }

  /** Where the spindle rests after `t` bytes: at `max` rather than back at 0. */
  function SpindleAt(max: nat, t: nat): (r: nat)
    ensures r <= max && r <= t
  {
    if max == 0 then 0
    else if t <= max then t
    else SpindleAt(max, t - max)
  }

  // ---------------------------------------------------------------------
  // The cache as a function of what has been written
  // ---------------------------------------------------------------------

  /** One entry `s` (newline included) written with the spindle at `sp`. */
  function WriteEntry(max: nat, buf: seq<Byte>, sp: nat, s: seq<Byte>): seq<Byte>
    requires sp <= max
  {
    var upTo := max - sp;
    var first := BinaryFile.WriteAt(buf, sp, Slice(s, 0, upTo));
    if sp + |s| > max then BinaryFile.WriteAt(first, 0, Slice(s, upTo, |s|)) else first
  }

  /** The buffer after writing `es` to an empty one. */
  function BufferOf(max: nat, es: seq<Entry>): seq<Byte>
  {
    if es == [] || max == 0 then []
    else
      var init := es[..|es| - 1];
      WriteEntry(max, BufferOf(max, init), SpindleAt(max, |Flat(init)|), [NEWLINE] + es[|es| - 1])
  }

  /** The bytes `_iter_from_cache` reads. */
  function Window(max: nat, buf: seq<Byte>, sp: nat, offset: Option<nat>): seq<Byte>
  {
    match offset
    case None => BinaryFile.ReadAt(buf, sp, max - sp) + BinaryFile.ReadAt(buf, 0, sp)
    case Some(from) =>
      if from > sp then BinaryFile.ReadAt(buf, from, max - from) + BinaryFile.ReadAt(buf, 0, sp)
      else if from < sp then BinaryFile.ReadAt(buf, from, sp - from)
      else []
  }

  /** The entries it yields when `es` have been written. */
  function Yielded(max: nat, es: seq<Entry>, offset: Option<nat>): seq<Entry> {
    Split(Window(max, BufferOf(max, es), SpindleAt(max, |Flat(es)|), offset))[1..]
  }

  /** Every entry written so far was small enough for the cache and had no newline. */
  ghost predicate Accepted(max: nat, es: seq<Entry>) {
    forall i :: 0 <= i < |es| ==> |es[i]| + 1 < max && Plain(es[i])
  }

  lemma FlatAppend(es: seq<Entry>, s: Entry)
    ensures Flat(es + [s]) == Flat(es) + ([NEWLINE] + s)
  {
    assert (es + [s])[..|es|] == es;
  }

  lemma BufferAppend(max: nat, es: seq<Entry>, s: Entry)
    requires max > 0
    ensures BufferOf(max, es + [s])
         == WriteEntry(max, BufferOf(max, es), SpindleAt(max, |Flat(es)|), [NEWLINE] + s)
  {
    assert (es + [s])[..|es|] == es;
  }

  /** What one more accepted entry means for the spindle. */
  lemma NextSpindle(max: nat, es: seq<Entry>, s: Entry)
    requires |s| + 1 <= max
    ensures
      var sp := SpindleAt(max, |Flat(es)|);
      SpindleAt(max, |Flat(es + [s])|) == if sp + (1 + |s|) > max then sp + (1 + |s|) - max else sp + (1 + |s|)
  {
    FlatAppend(es, s);
    SpindleStep(max, |Flat(es)|, 1 + |s|);
  }

  lemma AcceptNext(max: nat, es: seq<Entry>, s: Entry)
    requires Accepted(max, es) && |s| + 1 < max && Plain(s)
    ensures Accepted(max, es + [s])
  {
  }

  datatype Error = OverflowError | AssertionError

  class MemoryCachedLog {
    const maxCache: nat
    const cache: BinaryFile.BytesIO
    var spindle: nat
    var disk: seq<Byte>
    ghost var entries: seq<Entry>

    ghost predicate Valid()
      reads this, cache
    {
      && Accepted(maxCache, entries)
      && spindle == SpindleAt(maxCache, |Flat(entries)|)
      && cache.pos == spindle
      && cache.buf == BufferOf(maxCache, entries)
    }

    constructor (maxCache: nat, onDisk: seq<Byte>)
      ensures Valid() && fresh(cache)
      ensures this.maxCache == maxCache && entries == [] && disk == onDisk
    {
      this.maxCache := maxCache;
      cache := new BinaryFile.BytesIO();
      spindle, disk, entries := 0, onDisk, [];
    }

    /** The second half of `_write_line`, which moves the spindle. */
    method PutInCache(line: seq<Byte>)
      requires spindle <= maxCache && cache.pos == spindle && 0 < |line| <= maxCache
      modifies this`spindle, cache
      ensures cache.buf == WriteEntry(maxCache, old(cache.buf), old(spindle), line)
      ensures spindle == if old(spindle) + |line| > maxCache then old(spindle) + |line| - maxCache
                         else old(spindle) + |line|
      ensures cache.pos == spindle
    {
      var upTo := maxCache - spindle;
      cache.Write(Slice(line, 0, upTo));
      if spindle + |line| > maxCache {
        cache.Seek(0);
        cache.Write(Slice(line, upTo, |line|));
        spindle := |line| - upTo;
      } else {
        spindle := spindle + |line|;
      }
    }

    method WriteLine(s: Entry) returns (r: Result<(), Error>)
      requires Valid()
      modifies this`spindle, this`disk, this`entries, cache
      ensures Valid()
      ensures r == if |s| + 1 >= maxCache then Failure(OverflowError)
                   else if !Plain(s) then Failure(AssertionError)
                   else Success(())
      ensures r.Success? ==> entries == old(entries) + [s] && disk == old(disk) + s + [NEWLINE]
      ensures r.Failure? ==> entries == old(entries) && disk == old(disk)
    {
      if |s| + 1 >= maxCache {
        return Failure(OverflowError);
      }
      if NEWLINE in s {
        return Failure(AssertionError);
      }
      disk := disk + s + [NEWLINE];
      NextSpindle(maxCache, entries, s);
      AcceptNext(maxCache, entries, s);
      BufferAppend(maxCache, entries, s);
      PutInCache([NEWLINE] + s);
      entries := entries + [s];
      r := Success(());
    }

    method IterFromCache(offset: Option<nat>) returns (lines: seq<Entry>)
      requires Valid()
      modifies cache
      ensures Valid() && cache.buf == old(cache.buf)
      ensures lines == Yielded(maxCache, entries, offset)
    {
      var data := [];
      if offset.None? {
        cache.Seek(spindle);
        data := cache.Read(maxCache - spindle);
        cache.Seek(0);
        var more := cache.Read(spindle);
        data := data + more;
      } else if offset.value > spindle {
        cache.Seek(offset.value);
        data := cache.Read(maxCache - offset.value);
        cache.Seek(0);
        var more := cache.Read(spindle);
        data := data + more;
      } else if offset.value < spindle {
        cache.Seek(offset.value);
        data := cache.Read(spindle - offset.value);
      } else {
        return [];
      }
      cache.Seek(spindle);
      assert data == Window(maxCache, cache.buf, spindle, offset);
      lines := Split(data)[1..];
    }

    /** `FIFOJSONLog.get_text_log`: the new spindle and the entries, in one critical section. */
    method Poll(offset: Option<nat>) returns (next: nat, lines: seq<Entry>)
      requires Valid()
      modifies cache
      ensures Valid() && cache.buf == old(cache.buf)
      ensures next == SpindleAt(maxCache, |Flat(entries)|)
      ensures lines == Yielded(maxCache, entries, offset)
    {
      lines := IterFromCache(offset);
      next := spindle;
    }
  }

  // ---------------------------------------------------------------------
  // The spindle
  // ---------------------------------------------------------------------

  /** Whole laps precede the spindle's lap, and the spindle is at its start only before the first byte. */
  lemma {:induction false} LapFacts(max: nat, t: nat)
    requires max > 0
    ensures var lap := t - SpindleAt(max, t); lap == 0 || lap >= max
    ensures t > 0 ==> SpindleAt(max, t) > 0
  {
    if t > max {
      LapFacts(max, t - max);
    }
  }

  /** Writing up to `max` bytes moves the spindle on, or wraps it once. */
  lemma {:induction false} SpindleStep(max: nat, t: nat, n: nat)
    requires 0 < n <= max
    ensures
      var sp := SpindleAt(max, t);
      SpindleAt(max, t + n) == if sp + n > max then sp + n - max else sp + n
  {
    if t > max {
      SpindleStep(max, t - max, n);
    }
  }
}
