/** Bytes, the big-endian integers of the wire formats, and Python's slices. */
module Bytes {

  type Byte = n: int | 0 <= n < 256

  const U16_LIMIT: int := 0x1_0000
  const U32_LIMIT: int := 0x1_0000_0000

  /** `struct.pack('!H', n)` */
  function PutU16(n: nat): (r: seq<Byte>)
    requires n < U16_LIMIT
    ensures |r| == 2
  {
    [n / 256, n % 256]
  }

  function GetU16(b: seq<Byte>): (n: nat)
    requires |b| == 2
  {
    var hi: int, lo: int := b[0], b[1];
    hi * 256 + lo
  }

  /** `struct.pack('!I', n)` */
  function PutU32(n: nat): (r: seq<Byte>)
    requires n < U32_LIMIT
    ensures |r| == 4
  {
    PutU16(n / 0x1_0000) + PutU16(n % 0x1_0000)
  }

  function GetU32(b: seq<Byte>): (n: nat)
    requires |b| == 4
  {
    GetU16(b[..2]) * 0x1_0000 + GetU16(b[2..])
  }

  lemma U16RoundTrip(n: nat)
    requires n < U16_LIMIT
    ensures GetU16(PutU16(n)) == n
  {
  }

  lemma U32RoundTrip(n: nat)
    requires n < U32_LIMIT
    ensures GetU32(PutU32(n)) == n
  {
    var b := PutU32(n);
    assert b[..2] == PutU16(n / 0x1_0000);
    assert b[2..] == PutU16(n % 0x1_0000);
  }

  /** `len`-bounded slice `s[lo:hi]` for `0 <= lo`, `0 <= hi`: Python clips both ends. */
  function Slice<T>(s: seq<T>, lo: nat, hi: nat): seq<T> {
    if lo <= hi <= |s| then s[lo..hi]
    else if lo <= |s| && |s| < hi then s[lo..]
    else []
  }
}
