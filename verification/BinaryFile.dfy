/** Python's `io.BytesIO`: bytes and a position. */
module BinaryFile {
  import opened Bytes

  function Zeros(n: nat): seq<Byte> {
    if n == 0 then [] else Zeros(n - 1) + [0]
  }

  /** Overwrites from `pos`; a gap is filled with zeros, but not by an empty write. */
  function WriteAt(buf: seq<Byte>, pos: nat, b: seq<Byte>): seq<Byte> {
    if b == [] then buf
    else if pos <= |buf| then buf[..pos] + b + Slice(buf, pos + |b|, |buf|)
    else buf + Zeros(pos - |buf|) + b
  }

  function ReadAt(buf: seq<Byte>, pos: nat, n: int): seq<Byte> {
    if n < 0 then Slice(buf, pos, |buf|) else Slice(buf, pos, pos + n)
  }

  class BytesIO {
    var buf: seq<Byte>
    var pos: nat

    constructor ()
      ensures buf == [] && pos == 0
    {
      buf, pos := [], 0;
    }

    method Seek(p: nat)
      modifies this`pos
      ensures pos == p
    {
      pos := p;
    }

    method Write(b: seq<Byte>)
      modifies this
      ensures buf == WriteAt(old(buf), old(pos), b)
      ensures pos == old(pos) + |b|
    {
      buf := WriteAt(buf, pos, b);
      pos := pos + |b|;
    }

    method Read(n: int) returns (r: seq<Byte>)
      modifies this`pos
      ensures r == ReadAt(buf, old(pos), n)
    {
      r := ReadAt(buf, pos, n);
      pos := pos + |r|;
    }
  }
}
