/** The two frames that travel through a mailbox (SHMBase.py). */
module Frames {
  import opened Bytes
  import opened Wrappers

  type Frame = seq<Byte>

  datatype Request = Request(cmd: seq<Byte>, args: seq<Byte>)
  {
    /** What `pack('!HI', ..)` accepts. */
    predicate Valid() {
      |cmd| < U16_LIMIT && |args| < U32_LIMIT
    }
  }

  datatype Response = Response(ok: bool, data: seq<Byte>)
  {
    /** What `pack('!cI', ..)` accepts. */
    predicate Valid() {
      |data| < U32_LIMIT
    }
  }

  datatype Error = StructError | UnknownStatus

  const REQUEST_HEADER: nat := 6
  const RESPONSE_HEADER: nat := 5
  const PLUS: Byte := 43
  const MINUS: Byte := 45

  function EncodeRequest(q: Request): (r: Result<Frame, Error>)
    ensures r.Success? <==> q.Valid()
    ensures r.Success? ==> |r.value| == REQUEST_HEADER + |q.cmd| + |q.args|
  {
    if q.Valid() then
      Success(PutU16(|q.cmd|) + PutU32(|q.args|) + q.cmd + q.args)
    else
      Failure(StructError)
  }

  function RequestFrame(q: Request): (f: Frame)
    requires q.Valid()
  {
    EncodeRequest(q).value
  }

  /** A worker's reading of a mailbox: header from byte 1, then two slices. */
  function DecodeRequest(box: seq<Byte>): (r: Result<Request, Error>)
  {
    var header := Slice(box, 1, 1 + REQUEST_HEADER);
    if |header| != REQUEST_HEADER then Failure(StructError) else
    var cmdLen := GetU16(header[..2]);
    var argsLen := GetU32(header[2..]);
    var from := 1 + REQUEST_HEADER;
    Success(Request(Slice(box, from, from + cmdLen),
                    Slice(box, from + cmdLen, from + cmdLen + argsLen)))
  }

  function EncodeResponse(p: Response): (r: Result<Frame, Error>)
    ensures r.Success? <==> p.Valid()
    ensures r.Success? ==> |r.value| == RESPONSE_HEADER + |p.data|
  {
    if p.Valid() then
      Success([if p.ok then PLUS else MINUS] + PutU32(|p.data|) + p.data)
    else
      Failure(StructError)
  }

  function ResponseFrame(p: Response): (f: Frame)
    requires p.Valid()
  {
    EncodeResponse(p).value
  }

  /** The client's reading of a mailbox. */
  function DecodeResponse(box: seq<Byte>): (r: Result<Response, Error>)
  {
    var header := Slice(box, 1, 1 + RESPONSE_HEADER);
    if |header| != RESPONSE_HEADER then Failure(StructError) else
    var size := GetU32(header[1..]);
    var data := Slice(box, 1 + RESPONSE_HEADER, 1 + RESPONSE_HEADER + size);
    if header[0] == PLUS then Success(Response(true, data))
    else if header[0] == MINUS then Success(Response(false, data))
    else Failure(UnknownStatus)
  }

  /** A request is the lengths of the command, in two bytes, and of the arguments, in four, and then both. */
  lemma RequestLayout(q: Request)
    requires q.Valid()
    ensures
      var f := RequestFrame(q);
      && |f| == 6 + |q.cmd| + |q.args|
      && 256 * f[0] as int + f[1] == |q.cmd|
      && 16777216 * f[2] as int + 65536 * f[3] as int + 256 * f[4] as int + f[5] == |q.args|
      && f[6..6 + |q.cmd|] == q.cmd && f[6 + |q.cmd|..] == q.args
  {
    U32Bytes(|q.args|);
    var header := PutU16(|q.cmd|) + PutU32(|q.args|);
    assert RequestFrame(q) == header + q.cmd + q.args;
  }

  /** A response is '+' or '-', the length of its data in four bytes, and the data. */
  lemma ResponseLayout(p: Response)
    requires p.Valid()
    ensures
      var f := ResponseFrame(p);
      && |f| == 5 + |p.data|
      && f[0] == (if p.ok then '+' else '-') as int
      && 16777216 * f[1] as int + 65536 * f[2] as int + 256 * f[3] as int + f[4] == |p.data|
      && f[5..] == p.data
  {
    U32Bytes(|p.data|);
    assert ResponseFrame(p) == [if p.ok then PLUS else MINUS] + PutU32(|p.data|) + p.data;
  }

  lemma U32Bytes(n: nat)
    requires n < U32_LIMIT
    ensures var b := PutU32(n); 16777216 * b[0] as int + 65536 * b[1] as int + 256 * b[2] as int + b[3] == n
  {
  }

  /** The mailbox carries `f` right after its state byte. */
  predicate Holds(box: seq<Byte>, f: Frame) {
    1 + |f| <= |box| && box[1..1 + |f|] == f
  }

  lemma HoldsPart(box: seq<Byte>, f: Frame, i: nat, j: nat)
    requires Holds(box, f) && i <= j <= |f|
    ensures box[1 + i..1 + j] == f[i..j]
  {
    var whole, part := box[1..1 + |f|], box[1 + i..1 + j];
    forall k | 0 <= k < j - i ensures part[k] == f[i..j][k] {
      assert part[k] == whole[i + k];
    }
  }

  /** Whatever bytes follow it in the mailbox, a request is read back as it was packed. */
  lemma RequestRoundTrip(q: Request, box: seq<Byte>)
    requires q.Valid() && Holds(box, RequestFrame(q))
    ensures DecodeRequest(box) == Success(q)
  {
    var f := RequestFrame(q);
    var n, m := |q.cmd|, |q.args|;
    HoldsPart(box, f, 0, 6);
    HoldsPart(box, f, 6, 6 + n);
    HoldsPart(box, f, 6 + n, 6 + n + m);
    assert f[0..6] == PutU16(n) + PutU32(m);
    assert f[6..6 + n] == q.cmd;
    assert f[6 + n..6 + n + m] == q.args;
    assert f[0..6][..2] == PutU16(n);
    assert f[0..6][2..] == PutU32(m);
    U16RoundTrip(n);
    U32RoundTrip(m);
  }

  /** The same for a response. */
  lemma ResponseRoundTrip(p: Response, box: seq<Byte>)
    requires p.Valid() && Holds(box, ResponseFrame(p))
    ensures DecodeResponse(box) == Success(p)
  {
    var f := ResponseFrame(p);
    var m := |p.data|;
    HoldsPart(box, f, 0, 5);
    HoldsPart(box, f, 5, 5 + m);
    assert f[0..5][1..] == PutU32(m);
    assert f[5..5 + m] == p.data;
    U32RoundTrip(m);
  }
}
