/** Arrays of integers in the narrowest width that holds them (toolkit/arrays). */
module IntegerArrays {
  import opened BinaryFile
  import opened Bytes
  import opened Wrappers

  datatype DType = DType(size: nat, signed: bool)

  /** A line of the tables: a type, and the least and the greatest integer it holds. */
  datatype Range = Range(dtype: DType, least: int, most: int)

  const INT: seq<Range> := [
    Range(DType(1, true), -128, 127),
    Range(DType(2, true), -32768, 32767),
    Range(DType(4, true), -2147483648, 2147483647),
    Range(DType(8, true), -9223372036854775808, 9223372036854775807)
  ]

  const UINT: seq<Range> := [
    Range(DType(1, false), 0, 255),
    Range(DType(2, false), 0, 65535),
    Range(DType(4, false), 0, 4294967295),
    Range(DType(8, false), 0, 18446744073709551615)
  ]

  function Table(signed: bool): seq<Range> {
    if signed then INT else UINT
  }

  // ---------------------------------------------------------------------
  // Integers as little-endian bytes
  // ---------------------------------------------------------------------

  /** 256 to the power of `w` */
  function Span(w: nat): (r: nat)
    ensures r >= 1
  {
    if w == 0 then 1 else 256 * Span(w - 1)
  }

  function PutLE(n: nat, w: nat): (b: seq<Byte>)
    ensures |b| == w
  {
    if w == 0 then [] else [n % 256] + PutLE(n / 256, w - 1)
  }

  function GetLE(b: seq<Byte>): nat {
    if b == [] then 0 else b[0] + 256 * GetLE(b[1..])
  }

  lemma {:induction false} LERoundTrip(n: nat, w: nat)
    requires n < Span(w)
    ensures GetLE(PutLE(n, w)) == n
  {
    if w > 0 {
      LERoundTrip(n / 256, w - 1);
      assert PutLE(n, w)[1..] == PutLE(n / 256, w - 1);
    }
  }

  lemma DivideTwice(n: nat, m: nat)
    requires m > 0
    ensures n / 256 / m == n / (256 * m)
  {
    var a, b := n / 256, n % 256;
    var q, r := a / m, a % m;
    assert n == 256 * m * q + (256 * r + b);
    assert 256 * r + b < 256 * m;
    QuotientIs(n, 256 * m, q, 256 * r + b);
  }

  lemma QuotientIs(n: nat, m: nat, q: nat, r: nat)
    requires n == m * q + r && r < m
    ensures n / m == q
  {
    var d := n / m - q;
    assert n == m * (n / m) + n % m;
    assert m * (n / m) - m * q == m * d;
  }

  /** Byte `k` is the one for the `k`-th power of 256: the least significant comes first. */
  lemma {:induction false} LittleEndian(n: nat, w: nat, k: nat)
    requires k < w
    ensures PutLE(n, w)[k] == n / Span(k) % 256
  {
    if k > 0 {
      LittleEndian(n / 256, w - 1, k - 1);
      DivideTwice(n, Span(k - 1));
    }
  }

  /** Two's complement. */
  function Pack(t: DType, v: int): (b: seq<Byte>)
    ensures |b| == t.size
  {
    PutLE(if v < 0 then if v + Span(t.size) >= 0 then v + Span(t.size) else 0 else v, t.size)
  }

  function Unpack(t: DType, b: seq<Byte>): int {
    var n := GetLE(b);
    if t.signed && 2 * n >= Span(t.size) then n - Span(t.size) else n
  }

  predicate Holds(t: DType, v: int) {
    if t.signed then -(Span(t.size) as int) <= 2 * v < Span(t.size) else 0 <= v < Span(t.size)
  }

  lemma {:induction false} GetLEBound(b: seq<Byte>)
    ensures GetLE(b) < Span(|b|)
  {
    if b != [] {
      GetLEBound(b[1..]);
    }
  }

  /** Exactly the integers that a type holds come back. */
  lemma UnpackInvertsPack(t: DType, v: int)
    ensures Unpack(t, Pack(t, v)) == v <==> Holds(t, v)
  {
    if Holds(t, v) {
      LERoundTrip(if v < 0 then v + Span(t.size) else v, t.size);
    } else {
      GetLEBound(Pack(t, v));
    }
  }

  /** The numbers in the tables are those of two's complement. */
  lemma TablesAreExact(signed: bool, i: nat, v: int)
    requires i < 4
    ensures
      var r := Table(signed)[i];
      r.dtype.signed == signed && (r.least <= v <= r.most <==> Holds(r.dtype, v))
  {
    Spans();
  }

  lemma Spans()
    ensures Span(1) == 256 && Span(2) == 65536 && Span(4) == 4294967296 && Span(8) == 18446744073709551616
  {
    assert Span(3) == 16777216;
    assert Span(5) == 1099511627776;
    assert Span(6) == 281474976710656;
    assert Span(7) == 72057594037927936;
  }

  // ---------------------------------------------------------------------
  // Writing
  // ---------------------------------------------------------------------

  predicate HoldsAll(t: DType, L: seq<int>) {
    forall i :: 0 <= i < |L| ==> Holds(t, L[i])
  }

  /** What an `array.array` of C longs, signed or not, can contain. */
  predicate IsLongArray(L: seq<int>) {
    || (forall i :: 0 <= i < |L| ==> -9223372036854775808 <= L[i] <= 9223372036854775807)
    || (forall i :: 0 <= i < |L| ==> 0 <= L[i] <= 18446744073709551615)
  }

  predicate SomeNegative(L: seq<int>) {
    exists i :: 0 <= i < |L| && L[i] < 0
  }

  method MinMax(L: seq<int>) returns (least: int, most: int)
    requires L != []
    ensures least in L && most in L && forall i :: 0 <= i < |L| ==> least <= L[i] <= most
  {
    least, most := L[0], L[0];
    for i := 1 to |L|
      invariant least in L && most in L && forall j :: 0 <= j < i ==> least <= L[j] <= most
    {
      if L[i] < least { least := L[i]; }
      if L[i] > most { most := L[i]; }
    }
  }

  /**
   * The search always succeeds, and finds the narrowest type, signed if and
   * only if some integer is negative, that holds all of the array.
   */
  method ChooseType(L: seq<int>) returns (t: DType)
    requires IsLongArray(L)
    ensures t.size in {1, 2, 4, 8} && t.signed == SomeNegative(L)
    ensures HoldsAll(t, L)
    ensures forall u: DType :: u.size in {1, 2, 4, 8} && u.signed == t.signed && HoldsAll(u, L) ==> t.size <= u.size
  {
    var least, most := 0, 0;
    if L != [] {
      least, most := MinMax(L);
    }
    var table := Table(least < 0);
    var i := 0;
    while !(least >= table[i].least && most <= table[i].most)
      invariant 0 <= i < 4
      invariant forall j :: 0 <= j < i ==> !(least >= table[j].least && most <= table[j].most)
      decreases 4 - i
    {
      i := i + 1;
    }
    t := table[i].dtype;
    Narrowest(L, least, most, table, i);
  }

  lemma RangeHolds(L: seq<int>, least: int, most: int, signed: bool, i: nat)
    requires i < 4
    requires if L == [] then least == most == 0 else least in L && most in L
    requires forall j :: 0 <= j < |L| ==> least <= L[j] <= most
    ensures var r := Table(signed)[i]; least >= r.least && most <= r.most <==> HoldsAll(r.dtype, L)
  {
    forall v ensures var r := Table(signed)[i]; r.least <= v <= r.most <==> Holds(r.dtype, v) {
      TablesAreExact(signed, i, v);
    }
  }

  lemma Narrowest(L: seq<int>, least: int, most: int, table: seq<Range>, i: nat)
    requires table == Table(least < 0) && i < 4
    requires if L == [] then least == most == 0 else least in L && most in L
    requires forall j :: 0 <= j < |L| ==> least <= L[j] <= most
    requires least >= table[i].least && most <= table[i].most
    requires forall j :: 0 <= j < i ==> !(least >= table[j].least && most <= table[j].most)
    ensures
      var t := table[i].dtype;
      && t.signed == SomeNegative(L) && HoldsAll(t, L)
      && forall u: DType :: u.size in {1, 2, 4, 8} && u.signed == t.signed && HoldsAll(u, L) ==> t.size <= u.size
  {
    RangeHolds(L, least, most, least < 0, i);
    forall j | 0 <= j < i ensures !HoldsAll(table[j].dtype, L) {
      RangeHolds(L, least, most, least < 0, j);
    }
    forall u: DType | u.size in {1, 2, 4, 8} && u.signed == (least < 0) && HoldsAll(u, L)
      ensures table[i].dtype.size <= u.size
    {
      var k := if u.size == 1 then 0 else if u.size == 2 then 1 else if u.size == 4 then 2 else 3;
      assert table[k].dtype == u;
    }
  }

  function Packed(t: DType, L: seq<int>): (b: seq<Byte>)
    ensures |b| == t.size * |L|
  {
    if L == [] then [] else Packed(t, L[..|L| - 1]) + Pack(t, L[|L| - 1])
  }

  /** Integer branch of `write_array`: type, offset and number of items. */
  method WriteArray(f: BytesIO, L: seq<int>) returns (dtype: DType, offset: nat, amount: nat)
    requires IsLongArray(L)
    modifies f
    ensures dtype.size in {1, 2, 4, 8} && HoldsAll(dtype, L)
    ensures f.buf == WriteAt(old(f.buf), old(f.pos), Packed(dtype, L))
    ensures offset == old(f.pos) && amount == |L|
  {
    dtype := ChooseType(L);
    offset := f.pos;
    var bytes: seq<Byte> := [];
    for i := 0 to |L|
      invariant bytes == Packed(dtype, L[..i])
    {
      assert L[..i + 1][..i] == L[..i];
      bytes := bytes + Pack(dtype, L[i]);
    }
    assert L[..|L|] == L;
    f.Write(bytes);
    amount := (f.pos - offset) / dtype.size;
    Quotient(dtype.size, |L|);
  }

  lemma Quotient(size: nat, n: nat)
    requires size in {1, 2, 4, 8}
    ensures (size * n) / size == n
  {
    if size == 1 {
    } else if size == 2 {
    } else if size == 4 {
    } else {
    }
  }

  // ---------------------------------------------------------------------
  // Reading
  // ---------------------------------------------------------------------

  datatype Error = IndexError | ValueError | StructError

  class NumArray {
    const dtype: DType
    const buffer: BytesIO
    const offset: nat
    const amount: nat

    constructor (dtype: DType, buffer: BytesIO, offset: nat, amount: nat)
      ensures this.dtype == dtype && this.buffer == buffer && this.offset == offset && this.amount == amount
    {
      this.dtype, this.buffer, this.offset, this.amount := dtype, buffer, offset, amount;
    }

    /** `__getitem__`: exactly which indices raise, and the bytes that make up the item otherwise. */
    method GetItem(item: int) returns (r: Result<int, Error>)
      requires dtype.size > 0
      modifies buffer`pos
      ensures r == Item(dtype, buffer.buf, offset, amount, item)
      ensures r == Failure(IndexError) <==> item >= amount
      ensures r.Success? <==> item < amount && 0 <= offset + dtype.size * item <= |buffer.buf| - dtype.size
      ensures r.Success? ==>
        r.value == Unpack(dtype, buffer.buf[offset + dtype.size * item..offset + dtype.size * item + dtype.size])
    {
      ItemIff(dtype, buffer.buf, offset, amount, item);
      var start := offset + dtype.size * item;
      var arrayEnd := offset + dtype.size * amount - dtype.size;
      if start > arrayEnd {
        return Failure(IndexError);
      }
      if start < 0 {
        return Failure(ValueError);
      }
      buffer.Seek(start);
      var data := buffer.Read(dtype.size);
      if |data| != dtype.size {
        return Failure(StructError);
      }
      return Success(Unpack(dtype, data));
    }
  }

  /** What `__getitem__` returns; a negative index reads in front of the array. */
  function Item(t: DType, buf: seq<Byte>, offset: nat, amount: nat, item: int): Result<int, Error> {
    var start := offset + t.size * item;
    if start > offset + t.size * amount - t.size then Failure(IndexError)
    else if start < 0 then Failure(ValueError)
    else if |ReadAt(buf, start, t.size)| != t.size then Failure(StructError)
    else Success(Unpack(t, ReadAt(buf, start, t.size)))
  }

  lemma {:induction false} PackedAt(t: DType, L: seq<int>, i: nat)
    requires i < |L|
    ensures 0 <= t.size * i <= t.size * i + t.size <= |Packed(t, L)|
    ensures Packed(t, L)[t.size * i..t.size * i + t.size] == Pack(t, L[i])
    decreases |L|
  {
    var n := |L| - 1;
    var front := Packed(t, L[..n]);
    assert |front| == t.size * n;
    if i < n {
      PackedAt(t, L[..n], i);
      var lo, hi := t.size * i, t.size * i + t.size;
      assert (front + Pack(t, L[n]))[lo..hi] == front[lo..hi];
    } else {
      assert (front + Pack(t, L[n]))[|front|..|front| + t.size] == Pack(t, L[n]);
    }
  }

  lemma {:induction false} ZerosLength(n: nat)
    ensures |Zeros(n)| == n
  {
    if n > 0 {
      ZerosLength(n - 1);
    }
  }

  /** What was written can be read where it was written. */
  lemma WrittenIsThere(buf: seq<Byte>, pos: nat, b: seq<Byte>)
    requires b != []
    ensures pos + |b| <= |WriteAt(buf, pos, b)| && WriteAt(buf, pos, b)[pos..pos + |b|] == b
  {
    if pos > |buf| {
      ZerosLength(pos - |buf|);
    }
  }

  lemma SubSlice(buf: seq<Byte>, pos: nat, b: seq<Byte>, lo: nat, hi: nat)
    requires pos + |b| <= |buf| && buf[pos..pos + |b|] == b && lo <= hi <= |b|
    ensures buf[pos + lo..pos + hi] == b[lo..hi]
  {
    var part := buf[pos + lo..pos + hi];
    forall k | 0 <= k < hi - lo ensures part[k] == b[lo..hi][k] {
      assert part[k] == buf[pos..pos + |b|][lo + k];
    }
  }

  lemma Monotone(size: nat, a: int, b: int)
    ensures a <= b ==> size * a <= size * b
  {
  }

  /** Every integer of the array is read back at its index. */
  lemma ReadsBack(t: DType, L: seq<int>, before: seq<Byte>, pos: nat, i: nat)
    requires t.size > 0 && HoldsAll(t, L) && i < |L|
    ensures Item(t, WriteAt(before, pos, Packed(t, L)), pos, |L|, i) == Success(L[i])
  {
    var buf := WriteAt(before, pos, Packed(t, L));
    ItemIsThere(t, L, before, pos, i, buf);
    UnpackInvertsPack(t, L[i]);
    ItemHere(t, buf, pos, |L|, i, Pack(t, L[i]));
  }

  lemma ItemHere(t: DType, buf: seq<Byte>, offset: nat, amount: nat, i: nat, b: seq<Byte>)
    requires t.size > 0 && i < amount && 0 <= t.size * i && |b| == t.size
    requires ReadAt(buf, offset + t.size * i, t.size) == b
    ensures Item(t, buf, offset, amount, i) == Success(Unpack(t, b))
  {
    ItemIff(t, buf, offset, amount, i);
  }

  lemma ItemIsThere(t: DType, L: seq<int>, before: seq<Byte>, pos: nat, i: nat, buf: seq<Byte>)
    requires t.size > 0 && i < |L| && buf == WriteAt(before, pos, Packed(t, L))
    ensures 0 <= t.size * i && ReadAt(buf, pos + t.size * i, t.size) == Pack(t, L[i])
  {
    var b, lo := Packed(t, L), t.size * i;
    PackedAt(t, L, i);
    WrittenIsThere(before, pos, b);
    SubSlice(buf, pos, b, lo, lo + t.size);
  }

  /** Of any index: which error it raises, and which bytes are read when it raises none. */
  lemma ItemIff(t: DType, buf: seq<Byte>, offset: nat, amount: nat, item: int)
    requires t.size > 0
    ensures
      var r, start := Item(t, buf, offset, amount, item), offset + t.size * item;
      && (r == Failure(IndexError) <==> item >= amount)
      && (r == Failure(ValueError) <==> item < amount && start < 0)
      && (r == Failure(StructError) <==> item < amount && start >= 0 && start + t.size > |buf|)
      && (item < amount && 0 <= start <= start + t.size <= |buf| ==>
            r == Success(Unpack(t, buf[start..start + t.size])))
  {
    Monotone(t.size, item, amount - 1);
    Monotone(t.size, amount, item);
    assert t.size * (amount - 1) == t.size * amount - t.size;
  }

  /**
   * In a buffer that holds the array an index fails exactly if it is at or
   * past the end, or so far below zero that it points in front of the buffer.
   * Any other negative index reads the bytes in front of the array.
   */
  lemma NegativeIndexReadsInFront(t: DType, buf: seq<Byte>, offset: nat, amount: nat, item: int)
    requires t.size > 0 && offset + t.size * amount <= |buf|
    ensures Item(t, buf, offset, amount, item).Failure? <==> item >= amount || offset + t.size * item < 0
    ensures
      var start := offset + t.size * item;
      item < 0 && start >= 0 ==>
        start + t.size <= offset && Item(t, buf, offset, amount, item) == Success(Unpack(t, buf[start..start + t.size]))
  {
    ItemIff(t, buf, offset, amount, item);
    if item < amount {
      Monotone(t.size, item + 1, amount);
      assert t.size * (item + 1) == t.size * item + t.size;
    }
    if item < 0 {
      Monotone(t.size, item + 1, 0);
      assert t.size * (item + 1) == t.size * item + t.size;
    }
  }
}
