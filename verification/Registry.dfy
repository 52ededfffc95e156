/**
 * The registry of a service's workers and clients: a length-prefixed JSON
 * value in shared memory (JSONMMapBase.py) that every operation of
 * SHMResourceManager.py decodes, changes and encodes again under a lock.
 */
module Registry {
  import opened Bytes
  import opened Lists
  import opened Wrappers

  type Pid = nat
  type Key = (nat, nat)   // pid and in-process id of a client

  datatype Reg = Reg(servers: seq<Pid>, clients: seq<Key>)

  const EMPTY: Reg := Reg([], [])

  datatype Error = JSONDecodeError | UnicodeDecodeError | UnpackError | StructError | IndexError

  /** What bytes decode to: no text, no JSON, a value that counts as false, or a registry. */
  datatype Loaded = NotText | NotJson | Falsy | Registry(value: Reg)

  /** What JSON skips behind a value. */
  predicate AllSpace(x: seq<Byte>) {
    forall i :: 0 <= i < |x| ==> x[i] in {0x20, 0x09, 0x0A, 0x0D}
  }

  /** `json.dumps(..).encode('utf-8')`, and `json.loads(..decode('utf-8'))`. */
  datatype Json = Json(dumps: Reg -> seq<Byte>, loads: seq<Byte> -> Loaded)
  {
    /** The text of a registry decodes to it, with white space behind it too, and with anything else not at all. */
    ghost predicate Sound() {
      && (forall v {:trigger dumps(v)} :: loads(dumps(v)) == Registry(v))
      && (forall v, x :: AllSpace(x) ==> loads(dumps(v) + x) == Registry(v))
      && (forall v, x :: !AllSpace(x) ==> loads(dumps(v) + x) in {NotText, NotJson})
    }
  }

  // ---------------------------------------------------------------------
  // The buffer
  // ---------------------------------------------------------------------

  const DATA: nat := 5   // a byte that is not used, and the length

  function Loads(json: Json, buf: seq<Byte>): Loaded
    requires |buf| >= DATA
  {
    json.loads(Slice(buf, DATA, DATA + GetU32(buf[1..DATA])))
  }

  function ValueOf(l: Loaded): Option<Reg> {
    if l.Registry? then Some(l.value) else None
  }

  function Decoded(json: Json, buf: seq<Byte>): Option<Reg>
    requires |buf| >= DATA
  {
    ValueOf(Loads(json, buf))
  }

  predicate Fits(size: nat, text: seq<Byte>) {
    |text| < U32_LIMIT && DATA + |text| <= size
  }

  /** The buffer once `_encode` is over: the length is written before the text is found too long. */
  function EncodedInto(buf: seq<Byte>, text: seq<Byte>): (r: seq<Byte>)
    requires |buf| >= DATA
    ensures |r| == |buf|
  {
    if |text| >= U32_LIMIT then buf
    else if DATA + |text| > |buf| then buf[..1] + PutU32(|text|) + buf[DATA..]
    else buf[..1] + PutU32(|text|) + text + buf[DATA + |text|..]
  }

  /** The buffer's data begin with the text of `v`. */
  ghost predicate Starts(json: Json, buf: seq<Byte>, v: Reg) {
    |buf| >= DATA && json.dumps(v) <= buf[DATA..]
  }

  /** Whatever the buffer held before, and however long that was, it now decodes to the value encoded. */
  lemma EncodeDecodes(json: Json, buf: seq<Byte>, v: Reg)
    requires json.Sound() && |buf| >= DATA && Fits(|buf|, json.dumps(v))
    ensures Decoded(json, EncodedInto(buf, json.dumps(v))) == Some(v)
    ensures Starts(json, EncodedInto(buf, json.dumps(v)), v)
  {
    var text := json.dumps(v);
    var b := EncodedInto(buf, text);
    assert b[1..DATA] == PutU32(|text|);
    U32RoundTrip(|text|);
    assert b[DATA..DATA + |text|] == text;
    assert b[DATA..] == text + buf[DATA + |text|..];
  }

  /** A value that does not fit leaves the buffer with a length it does not have: all of it is decoded. */
  lemma OverflowDecodes(json: Json, buf: seq<Byte>, text: seq<Byte>)
    requires |buf| >= DATA && DATA + |text| > |buf| && |text| < U32_LIMIT
    ensures Loads(json, EncodedInto(buf, text)) == json.loads(buf[DATA..])
    ensures EncodedInto(buf, text)[DATA..] == buf[DATA..]
  {
    var b := EncodedInto(buf, text);
    assert b[1..DATA] == PutU32(|text|);
    U32RoundTrip(|text|);
    assert b[DATA..] == buf[DATA..];
  }

  /**
   * Encoding a value that does not fit loses the one the buffer held exactly
   * if something other than white space lies behind its text; the memory is
   * zero at first. A text that fills the buffer is still decoded.
   */
  lemma OverflowLosesIff(json: Json, buf: seq<Byte>, v: Reg, text: seq<Byte>)
    requires json.Sound() && Starts(json, buf, v)
    requires DATA + |text| > |buf| && |text| < U32_LIMIT
    ensures Decoded(json, EncodedInto(buf, text))
         == if AllSpace(buf[DATA + |json.dumps(v)|..]) then Some(v) else None
  {
    OverflowDecodes(json, buf, text);
    var behind := buf[DATA + |json.dumps(v)|..];
    assert buf[DATA..] == json.dumps(v) + behind;
    assert json.loads(json.dumps(v) + behind) == json.loads(buf[DATA..]);
  }

  /** A value in a buffer of zeros that it does not fill is lost when one that does not fit is encoded. */
  lemma NewBufferOverflows(json: Json, buf: seq<Byte>, v: Reg, text: seq<Byte>)
    requires json.Sound() && DATA + |json.dumps(v)| < |buf| && Fits(|buf|, json.dumps(v))
    requires forall i :: 0 <= i < |buf| ==> buf[i] == 0
    requires DATA + |text| > |buf| && |text| < U32_LIMIT
    ensures
      var b := EncodedInto(buf, json.dumps(v));
      Decoded(json, b) == Some(v) && Decoded(json, EncodedInto(b, text)) == None
  {
    EncodeDecodes(json, buf, v);
    var b := EncodedInto(buf, json.dumps(v));
    OverflowLosesIff(json, b, v, text);
    assert b[|b| - 1] == buf[|buf| - 1];
    assert b[DATA + |json.dumps(v)|..][|buf| - 1 - DATA - |json.dumps(v)|] == 0;
  }

  // ---------------------------------------------------------------------
  // Operations on the value
  // ---------------------------------------------------------------------

  function Added<T(==)>(L: seq<T>, x: T): seq<T> {
    if x in L then L else L + [x]
  }

  function ByPid(alive: Pid -> bool): Key -> bool {
    (k: Key) => alive(k.0)
  }

  datatype Op =
    | AddServer(pid: Pid)
    | DelServer(pid: Pid)
    | ResetServers
    | AddClient(key: Key)
    | DelClient(key: Key)
    | ResetClients
    | DropMissing(alive: Pid -> bool)

  function After(v: Reg, op: Op): Reg {
    match op
    case AddServer(pid) => v.(servers := Added(v.servers, pid))
    case DelServer(pid) => v.(servers := Filter(v.servers, Not(pid)))
    case ResetServers => v.(servers := [])
    case AddClient(key) => v.(clients := Added(v.clients, key))
    case DelClient(key) => v.(clients := Filter(v.clients, Not(key)))
    case ResetClients => v.(clients := [])
    case DropMissing(alive) => Reg(Filter(v.servers, alive), Filter(v.clients, ByPid(alive)))
  }

  /** The clients whose process is gone. */
  function Dead(L: seq<Key>, alive: Pid -> bool): set<Key> {
    set k | k in L && !alive(k.0)
  }

  lemma DeadNext(L: seq<Key>, i: nat, alive: Pid -> bool)
    requires i < |L|
    ensures Dead(L[..i + 1], alive) == Dead(L[..i], alive) + if alive(L[i].0) then {} else {L[i]}
  {
    assert L[..i + 1] == L[..i] + [L[i]];
  }

  /** The clients whose lock and mailbox names an operation unlinks. */
  function Unlinked(v: Reg, op: Op): set<Key> {
    match op
    case DelClient(key) => {key}
    case ResetClients => set k | k in v.clients
    case DropMissing(alive) => Dead(v.clients, alive)
    case _ => {}
  }

  predicate Unique(v: Reg) {
    NoDuplicates(v.servers) && NoDuplicates(v.clients)
  }

  /** No operation enters anything twice. */
  lemma OpKeepsUnique(v: Reg, op: Op)
    requires Unique(v)
    ensures Unique(After(v, op))
  {
    match op
    case DelServer(pid) => FilterUnique(v.servers, Not(pid));
    case DelClient(key) => FilterUnique(v.clients, Not(key));
    case DropMissing(alive) =>
      FilterUnique(v.servers, alive);
      FilterUnique(v.clients, ByPid(alive));
    case _ =>
  }

  /** An operation drops a registered client if and only if it unlinks the client's names. */
  lemma DroppedAreUnlinked(v: Reg, op: Op, k: Key)
    requires k in v.clients
    ensures k !in After(v, op).clients <==> k in Unlinked(v, op)
  {
    match op
    case DelClient(key) => FilterHas(v.clients, Not(key), k);
    case DropMissing(alive) => FilterHas(v.clients, ByPid(alive), k);
    case _ =>
  }

  // ---------------------------------------------------------------------
  // Who is registered
  // ---------------------------------------------------------------------

  /** What removes a worker, and what removes a client. */
  predicate DropsServer(op: Op, pid: Pid) {
    op == DelServer(pid) || op == ResetServers || (op.DropMissing? && !op.alive(pid))
  }

  predicate DropsClient(op: Op, key: Key) {
    op == DelClient(key) || op == ResetClients || (op.DropMissing? && !op.alive(key.0))
  }

  /** The workers after an operation: who was and is not removed, and who is entered. */
  lemma ServerAfter(v: Reg, op: Op, pid: Pid)
    ensures pid in After(v, op).servers <==> (pid in v.servers && !DropsServer(op, pid)) || op == AddServer(pid)
  {
    match op
    case DelServer(p) => FilterHas(v.servers, Not(p), pid);
    case DropMissing(alive) => FilterHas(v.servers, alive, pid);
    case _ =>
  }

  /** The same for clients. */
  lemma ClientAfter(v: Reg, op: Op, key: Key)
    ensures key in After(v, op).clients <==> (key in v.clients && !DropsClient(op, key)) || op == AddClient(key)
  {
    match op
    case DelClient(k) => FilterHas(v.clients, Not(k), key);
    case DropMissing(alive) => FilterHas(v.clients, ByPid(alive), key);
    case _ =>
  }

  function AfterAll(v: Reg, ops: seq<Op>): Reg
    decreases |ops|
  {
    if ops == [] then v else After(AfterAll(v, ops[..|ops| - 1]), ops[|ops| - 1])
  }

  lemma {:induction false} AfterAllUnique(ops: seq<Op>)
    ensures Unique(AfterAll(EMPTY, ops))
    decreases |ops|
  {
    if ops != [] {
      AfterAllUnique(ops[..|ops| - 1]);
      OpKeepsUnique(AfterAll(EMPTY, ops[..|ops| - 1]), ops[|ops| - 1]);
    }
  }

  /** The `i`-th operation enters the client, and none since then removes it. */
  ghost predicate RegisteredAt(ops: seq<Op>, key: Key, i: nat) {
    i < |ops| && ops[i] == AddClient(key) && forall j :: i < j < |ops| ==> !DropsClient(ops[j], key)
  }

  /** A client is in the registry if and only if it was entered and has not been removed since. */
  lemma {:induction false} RegisteredIff(ops: seq<Op>, key: Key)
    ensures key in AfterAll(EMPTY, ops).clients <==> exists i :: RegisteredAt(ops, key, i)
    decreases |ops|
  {
    if ops != [] {
      var n := |ops| - 1;
      var init := ops[..n];
      RegisteredIff(init, key);
      ClientAfter(AfterAll(EMPTY, init), ops[n], key);
      if i :| RegisteredAt(init, key, i) && !DropsClient(ops[n], key) {
        assert RegisteredAt(ops, key, i);
      }
      if i :| RegisteredAt(ops, key, i) {
        assert if i == n then ops[n] == AddClient(key) else RegisteredAt(init, key, i) && !DropsClient(ops[n], key);
      }
      if ops[n] == AddClient(key) {
        assert RegisteredAt(ops, key, n);
      }
    }
  }

  ghost predicate WorkingAt(ops: seq<Op>, pid: Pid, i: nat) {
    i < |ops| && ops[i] == AddServer(pid) && forall j :: i < j < |ops| ==> !DropsServer(ops[j], pid)
  }

  /** The same for a worker. */
  lemma {:induction false} WorkingIff(ops: seq<Op>, pid: Pid)
    ensures pid in AfterAll(EMPTY, ops).servers <==> exists i :: WorkingAt(ops, pid, i)
    decreases |ops|
  {
    if ops != [] {
      var n := |ops| - 1;
      var init := ops[..n];
      WorkingIff(init, pid);
      ServerAfter(AfterAll(EMPTY, init), ops[n], pid);
      if i :| WorkingAt(init, pid, i) && !DropsServer(ops[n], pid) {
        assert WorkingAt(ops, pid, i);
      }
      if i :| WorkingAt(ops, pid, i) {
        assert if i == n then ops[n] == AddServer(pid) else WorkingAt(init, pid, i) && !DropsServer(ops[n], pid);
      }
      if ops[n] == AddServer(pid) {
        assert WorkingAt(ops, pid, n);
      }
    }
  }

  // ---------------------------------------------------------------------
  // The order of registration
  // ---------------------------------------------------------------------

  /** A registered client and the turn at which it was entered. */
  type Entry = (Key, nat)

  function Keys(es: seq<Entry>): (r: seq<Key>)
    ensures |r| == |es| && forall i :: 0 <= i < |es| ==> r[i] == es[i].0
  {
    if es == [] then [] else [es[0].0] + Keys(es[1..])
  }

  ghost predicate InOrder(es: seq<Entry>) {
    forall i, j :: 0 <= i < j < |es| ==> es[i].1 < es[j].1
  }

  ghost predicate AllEntered(ops: seq<Op>, es: seq<Entry>) {
    forall i :: 0 <= i < |es| ==> RegisteredAt(ops, es[i].0, es[i].1)
  }

  function OnKey(keep: Key -> bool): Entry -> bool {
    (e: Entry) => keep(e.0)
  }

  lemma {:induction false} FilterKeys(es: seq<Entry>, keep: Key -> bool)
    ensures Keys(Filter(es, OnKey(keep))) == Filter(Keys(es), keep)
  {
    if es != [] {
      FilterKeys(es[1..], keep);
      assert Keys(es)[1..] == Keys(es[1..]);
    }
  }

  lemma {:induction false} FilterInOrder(es: seq<Entry>, keep: Entry -> bool)
    requires InOrder(es)
    ensures InOrder(Filter(es, keep))
  {
    if es != [] {
      FilterInOrder(es[1..], keep);
      var r := Filter(es[1..], keep);
      forall i | 0 <= i < |r| ensures es[0].1 < r[i].1 {
        FilterHas(es[1..], keep, r[i]);
      }
    }
  }

  /** What an operation leaves of the entries, before it enters somebody. */
  lemma KeptEntries(v: Reg, op: Op, es: seq<Entry>) returns (kept: seq<Entry>)
    requires Keys(es) == v.clients && InOrder(es)
    ensures InOrder(kept) && forall e :: e in kept ==> e in es && !DropsClient(op, e.0)
    ensures After(v, op).clients == Keys(kept) + if op.AddClient? && op.key !in v.clients then [op.key] else []
  {
    match op
    case DelClient(k) => kept := KeepSome(es, Not(k));
    case ResetClients => kept := [];
    case DropMissing(alive) => kept := KeepSome(es, ByPid(alive));
    case _ => kept := es;
  }

  lemma KeepSome(es: seq<Entry>, keep: Key -> bool) returns (kept: seq<Entry>)
    requires InOrder(es)
    ensures InOrder(kept) && Keys(kept) == Filter(Keys(es), keep)
    ensures forall e :: e in kept ==> e in es && keep(e.0)
  {
    kept := Filter(es, OnKey(keep));
    FilterKeys(es, keep);
    FilterInOrder(es, OnKey(keep));
    forall e | e in kept ensures e in es && keep(e.0) {
      FilterHas(es, OnKey(keep), e);
    }
  }

  /** Clients are listed in the order in which they were entered. */
  lemma {:induction false} ClientsInOrder(ops: seq<Op>) returns (es: seq<Entry>)
    ensures Keys(es) == AfterAll(EMPTY, ops).clients && InOrder(es) && AllEntered(ops, es)
    decreases |ops|
  {
    if ops == [] {
      es := [];
    } else {
      var n := |ops| - 1;
      var init, op := ops[..n], ops[n];
      var v := AfterAll(EMPTY, init);
      var es0 := ClientsInOrder(init);
      es := KeptEntries(v, op, es0);
      KeptEntered(ops, es0, es);
      if op.AddClient? && op.key !in v.clients {
        es := Later(ops, es, op.key);
      }
    }
  }

  lemma KeptEntered(ops: seq<Op>, es: seq<Entry>, kept: seq<Entry>)
    requires ops != [] && AllEntered(ops[..|ops| - 1], es)
    requires forall e :: e in kept ==> e in es && !DropsClient(ops[|ops| - 1], e.0)
    ensures AllEntered(ops, kept) && forall i :: 0 <= i < |kept| ==> kept[i].1 < |ops| - 1
  {
    forall i | 0 <= i < |kept| ensures RegisteredAt(ops, kept[i].0, kept[i].1) && kept[i].1 < |ops| - 1 {
      assert kept[i] in kept;
      var j :| 0 <= j < |es| && es[j] == kept[i];
      assert RegisteredAt(ops[..|ops| - 1], es[j].0, es[j].1);
    }
  }

  /** The newest client, entered at the last turn. */
  lemma Later(ops: seq<Op>, es: seq<Entry>, key: Key) returns (r: seq<Entry>)
    requires ops != [] && ops[|ops| - 1] == AddClient(key) && AllEntered(ops, es) && InOrder(es)
    requires forall i :: 0 <= i < |es| ==> es[i].1 < |ops| - 1
    ensures Keys(r) == Keys(es) + [key] && InOrder(r) && AllEntered(ops, r)
  {
    r := es + [(key, |ops| - 1)];
    assert RegisteredAt(ops, key, |ops| - 1);
    assert Keys(r) == Keys(es) + [key];
  }

  // ---------------------------------------------------------------------
  // Runs of the buffer
  // ---------------------------------------------------------------------

  /** The buffer after an operation: unless it decodes to a registry nothing is written. */
  function AfterOp(json: Json, buf: seq<Byte>, op: Op): (r: seq<Byte>)
    requires |buf| >= DATA
    ensures |r| == |buf|
  {
    match Decoded(json, buf)
    case None => buf
    case Some(v) => EncodedInto(buf, json.dumps(After(v, op)))
  }

  /** A registry is left alone; what is false or no JSON is replaced; other errors are raised. */
  function AfterInit(json: Json, buf: seq<Byte>): (r: seq<Byte>)
    requires |buf| >= DATA
    ensures |r| == |buf|
  {
    var l := Loads(json, buf);
    if l.Falsy? || l.NotJson? then EncodedInto(buf, json.dumps(EMPTY)) else buf
  }

  /** An operation, or the start of a manager that finds the buffer as it is. */
  datatype Event = Do(op: Op) | Start

  function Turn(json: Json, buf: seq<Byte>, e: Event): (r: seq<Byte>)
    requires |buf| >= DATA
    ensures |r| == |buf|
  {
    match e
    case Do(op) => AfterOp(json, buf, op)
    case Start => AfterInit(json, buf)
  }

  function Buffer(json: Json, buf: seq<Byte>, es: seq<Event>): (r: seq<Byte>)
    requires |buf| >= DATA
    ensures |r| == |buf|
    decreases |es|
  {
    if es == [] then buf else Turn(json, Buffer(json, buf, es[..|es| - 1]), es[|es| - 1])
  }

  /** The text of a registry without duplicates is there, and the buffer decodes to that registry or to none. */
  ghost predicate Carries(json: Json, buf: seq<Byte>, v: Reg) {
    Starts(json, buf, v) && Unique(v) && Decoded(json, buf) in {None, Some(v)}
  }

  lemma EncodeCarries(json: Json, buf: seq<Byte>, v: Reg, w: Reg) returns (v': Reg)
    requires json.Sound() && Carries(json, buf, v) && Unique(w)
    ensures Carries(json, EncodedInto(buf, json.dumps(w)), v')
  {
    var text := json.dumps(w);
    if Fits(|buf|, text) {
      EncodeDecodes(json, buf, w);
      v' := w;
    } else {
      v' := v;
      if |text| < U32_LIMIT {
        OverflowDecodes(json, buf, text);
        OverflowLosesIff(json, buf, v, text);
      }
    }
  }

  lemma TurnCarries(json: Json, buf: seq<Byte>, v: Reg, e: Event) returns (v': Reg)
    requires json.Sound() && Carries(json, buf, v)
    ensures Carries(json, Turn(json, buf, e), v')
  {
    v' := v;
    match e
    case Do(op) =>
      if Decoded(json, buf).Some? {
        OpKeepsUnique(v, op);
        v' := EncodeCarries(json, buf, v, After(v, op));
      }
    case Start =>
      if Turn(json, buf, e) != buf {
        v' := EncodeCarries(json, buf, v, EMPTY);
      }
  }

  /**
   * Whatever is done with a registry that was empty at first, values that do
   * not fit included: when the buffer decodes to a registry, no worker pid
   * and no client key is in it twice.
   */
  lemma {:induction false} NeverDuplicated(json: Json, buf: seq<Byte>, es: seq<Event>) returns (v: Reg)
    requires json.Sound() && |buf| >= DATA && Fits(|buf|, json.dumps(EMPTY))
    ensures
      var b := Buffer(json, EncodedInto(buf, json.dumps(EMPTY)), es);
      Carries(json, b, v) && (Decoded(json, b).Some? ==> Unique(Decoded(json, b).value))
    decreases |es|
  {
    if es == [] {
      EncodeDecodes(json, buf, EMPTY);
      v := EMPTY;
    } else {
      v := NeverDuplicated(json, buf, es[..|es| - 1]);
      v := TurnCarries(json, Buffer(json, EncodedInto(buf, json.dumps(EMPTY)), es[..|es| - 1]), v, es[|es| - 1]);
    }
  }

  function Doing(ops: seq<Op>): (es: seq<Event>)
    ensures |es| == |ops| && forall i :: 0 <= i < |ops| ==> es[i] == Do(ops[i])
  {
    seq(|ops|, i requires 0 <= i < |ops| => Do(ops[i]))
  }

  /** As long as every value fits, the buffer decodes to what the operations make of an empty registry. */
  lemma {:induction false} BufferIsAfterAll(json: Json, buf: seq<Byte>, ops: seq<Op>)
    requires json.Sound() && |buf| >= DATA
    requires forall n :: 0 <= n <= |ops| ==> Fits(|buf|, json.dumps(AfterAll(EMPTY, ops[..n])))
    ensures Decoded(json, Buffer(json, EncodedInto(buf, json.dumps(EMPTY)), Doing(ops))) == Some(AfterAll(EMPTY, ops))
    decreases |ops|
  {
    if ops == [] {
      assert ops[..0] == [];
      EncodeDecodes(json, buf, EMPTY);
    } else {
      var n := |ops| - 1;
      var init := ops[..n];
      forall k | 0 <= k <= n ensures Fits(|buf|, json.dumps(AfterAll(EMPTY, init[..k]))) {
        assert init[..k] == ops[..k];
      }
      BufferIsAfterAll(json, buf, init);
      var b := Buffer(json, EncodedInto(buf, json.dumps(EMPTY)), Doing(init));
      assert Doing(ops)[..n] == Doing(init);
      assert ops[..|ops|] == ops;
      EncodeDecodes(json, b, AfterAll(EMPTY, ops));
    }
  }

  /** As long as every value fits, exactly the living clients that are entered and not removed since are served. */
  lemma ServedIff(json: Json, buf: seq<Byte>, ops: seq<Op>, alive: Pid -> bool, key: Key)
    requires json.Sound() && |buf| >= DATA
    requires forall n :: 0 <= n <= |ops| ==> Fits(|buf|, json.dumps(AfterAll(EMPTY, ops[..n])))
    ensures
      var v := Decoded(json, Buffer(json, EncodedInto(buf, json.dumps(EMPTY)), Doing(ops)));
      v.Some? && (key in Live(v.value, alive) <==> alive(key.0) && exists i :: RegisteredAt(ops, key, i))
  {
    BufferIsAfterAll(json, buf, ops);
    RegisteredIff(ops, key);
  }

  // ---------------------------------------------------------------------
  // The registry object
  // ---------------------------------------------------------------------

  /** The value as a pair of lists; a false value cannot be taken apart. */
  function Read(l: Loaded): Result<Reg, Error> {
    match l
    case NotText => Failure(UnicodeDecodeError)
    case NotJson => Failure(JSONDecodeError)
    case Falsy => Failure(UnpackError)
    case Registry(v) => Success(v)
  }

  class SHMResourceManager {
    const json: Json
    const mmap: array<Byte>
    var lockAcquired: bool
    var names: set<Key>      // clients whose lock and mailbox can be opened by name

    ghost predicate Valid()
      reads this
    {
      json.Sound() && mmap.Length >= DATA && !lockAcquired
    }

    ghost function Value(): Option<Reg>
      reads this, mmap
      requires mmap.Length >= DATA
    {
      Decoded(json, mmap[..])
    }

    constructor (json: Json, mmap: array<Byte>)
      requires json.Sound() && mmap.Length >= DATA
      ensures Valid() && this.json == json && this.mmap == mmap
    {
      this.json, this.mmap, lockAcquired, names := json, mmap, false, {};
    }

    /** `_decode`, and taking its value apart. */
    method Decode() returns (r: Result<Reg, Error>)
      requires lockAcquired && mmap.Length >= DATA
      ensures r == Read(Loads(json, mmap[..]))
      ensures r.Success? <==> Value().Some?
    {
      var amount := GetU32(mmap[1..DATA]);
      assert mmap[1..DATA] == mmap[..][1..DATA];
      return Read(json.loads(Slice(mmap[..], DATA, DATA + amount)));
    }

    method Encode(v: Reg) returns (r: Result<(), Error>)
      requires lockAcquired && json.Sound() && mmap.Length >= DATA
      modifies mmap
      ensures mmap[..] == EncodedInto(old(mmap[..]), json.dumps(v))
      ensures r.Success? <==> Fits(mmap.Length, json.dumps(v))
      ensures r.Success? ==> Value() == Some(v)
    {
      var text := json.dumps(v);
      ghost var was := mmap[..];
      if |text| >= U32_LIMIT {
        return Failure(StructError);
      }
      var length := PutU32(|text|);
      forall i | 0 <= i < 4 {
        mmap[1 + i] := length[i];
      }
      if DATA + |text| > mmap.Length {
        assert mmap[..] == EncodedInto(was, text);
        return Failure(IndexError);
      }
      forall i | 0 <= i < |text| {
        mmap[DATA + i] := text[i];
      }
      assert mmap[..] == EncodedInto(was, text);
      EncodeDecodes(json, was, v);
      return Success(());
    }
  
    /** What every operation does, under the lock: decode, change, encode; or raise and write nothing. */
    twostate predicate Written(op: Op, new r: Result<(), Error>)
      reads this, mmap
      requires mmap.Length >= DATA
    {
      && mmap[..] == AfterOp(json, old(mmap[..]), op)
      && match old(Value())
         case None => r == Failure(Read(Loads(json, old(mmap[..]))).error)
         case Some(v) =>
           && (r.Success? <==> Fits(mmap.Length, json.dumps(After(v, op))))
           && (r.Success? ==> Value() == Some(After(v, op)))
    }

    /** After a success the value is that of the same registry, but for the worker `pid`, which is there if `there`. */
    twostate predicate OnlyServer(pid: Pid, there: bool, new r: Result<(), Error>)
      reads this, mmap
      requires mmap.Length >= DATA
    {
      r.Success? ==>
        && old(Value()).Some? && Value().Some?
        && (pid in Value().value.servers <==> there)
        && (forall p :: p != pid ==> (p in Value().value.servers <==> p in old(Value()).value.servers))
        && (there ==> old(Value()).value.servers <= Value().value.servers)
        && Value().value.clients == old(Value()).value.clients
    }

    /** The same for a client. */
    twostate predicate OnlyClient(key: Key, there: bool, new r: Result<(), Error>)
      reads this, mmap
      requires mmap.Length >= DATA
    {
      r.Success? ==>
        && old(Value()).Some? && Value().Some?
        && (key in Value().value.clients <==> there)
        && (forall k :: k != key ==> (k in Value().value.clients <==> k in old(Value()).value.clients))
        && (there ==> old(Value()).value.clients <= Value().value.clients)
        && Value().value.servers == old(Value()).value.servers
    }

    /** The same, with the names of dropped clients unlinked. */
    twostate predicate Performed(op: Op, new r: Result<(), Error>)
      reads this, mmap
      requires mmap.Length >= DATA
    {
      && Written(op, r)
      && names == old(names) - if old(Value()).Some? then Unlinked(old(Value()).value, op) else {}
    }

    /** `__init_value` */
    method InitValue() returns (r: Result<(), Error>)
      requires Valid()
      modifies this`lockAcquired, mmap
      ensures Valid()
      ensures mmap[..] == AfterInit(json, old(mmap[..]))
      ensures old(Value()).Some? ==> r.Success? && Value() == old(Value())
      ensures old(Value()).None? ==>
        (r.Success? <==> Fits(mmap.Length, json.dumps(EMPTY)) && !Loads(json, old(mmap[..])).NotText?)
      ensures old(Value()).None? && r.Success? ==> Value() == Some(EMPTY)
    {
      lockAcquired := true;
      var v := Decode();
      if v.Success? {
        r := Success(());
      } else if v.error == UnicodeDecodeError {
        r := Failure(v.error);
      } else {
        r := Encode(EMPTY);
      }
      lockAcquired := false;
    }

    method AddServerPid(pid: Pid) returns (r: Result<(), Error>)
      requires Valid()
      modifies this`lockAcquired, mmap
      ensures Valid() && Performed(AddServer(pid), r) && OnlyServer(pid, true, r)
    {
      lockAcquired := true;
      var v := Decode();
      if v.Failure? {
        r := Failure(v.error);
      } else {
        var servers := v.value.servers;
        if pid !in servers {
          servers := servers + [pid];
        }
        r := Encode(Reg(servers, v.value.clients));
      }
      lockAcquired := false;
    }

    method DelServerPid(pid: Pid) returns (r: Result<(), Error>)
      requires Valid()
      modifies this`lockAcquired, mmap
      ensures Valid() && Performed(DelServer(pid), r) && OnlyServer(pid, false, r)
    {
      lockAcquired := true;
      var v := Decode();
      if v.Failure? {
        r := Failure(v.error);
      } else {
        var servers := RemoveAll(v.value.servers, pid);
        forall p ensures p in servers <==> p in v.value.servers && p != pid {
          FilterHas(v.value.servers, Not(pid), p);
        }
        r := Encode(Reg(servers, v.value.clients));
      }
      lockAcquired := false;
    }

    method ResetAllServerPids() returns (r: Result<(), Error>)
      requires Valid()
      modifies this`lockAcquired, mmap
      ensures Valid() && Performed(ResetServers, r)
    {
      lockAcquired := true;
      var v := Decode();
      if v.Failure? {
        r := Failure(v.error);
      } else {
        r := Encode(Reg([], v.value.clients));
      }
      lockAcquired := false;
    }

    method AddClientPidQid(key: Key) returns (r: Result<(), Error>)
      requires Valid()
      modifies this`lockAcquired, mmap
      ensures Valid() && Performed(AddClient(key), r) && OnlyClient(key, true, r)
    {
      lockAcquired := true;
      var v := Decode();
      if v.Failure? {
        r := Failure(v.error);
      } else {
        var clients := v.value.clients;
        if key !in clients {
          clients := clients + [key];
        }
        r := Encode(Reg(v.value.servers, clients));
      }
      lockAcquired := false;
    }

    /** `create_resources`: the names come first, so that a registered client can be connected to. */
    method CreateResources(key: Key) returns (r: Result<(), Error>)
      requires Valid()
      modifies this`lockAcquired, this`names, mmap
      ensures Valid()
      ensures names == old(names) + {key}
      ensures Written(AddClient(key), r) && OnlyClient(key, true, r)
    {
      names := names + {key};
      r := AddClientPidQid(key);
    }

    method DelClientPidQid(key: Key) returns (r: Result<(), Error>)
      requires Valid()
      modifies this`lockAcquired, this`names, mmap
      ensures Valid() && Performed(DelClient(key), r) && OnlyClient(key, false, r)
    {
      lockAcquired := true;
      var v := Decode();
      if v.Failure? {
        r := Failure(v.error);
      } else {
        var clients := RemoveAll(v.value.clients, key);
        forall k ensures k in clients <==> k in v.value.clients && k != key {
          FilterHas(v.value.clients, Not(key), k);
        }
        names := names - {key};
        r := Encode(Reg(v.value.servers, clients));
      }
      lockAcquired := false;
    }

    method ResetAllClientPids() returns (r: Result<(), Error>)
      requires Valid()
      modifies this`lockAcquired, this`names, mmap
      ensures Valid() && Performed(ResetClients, r)
    {
      lockAcquired := true;
      var v := Decode();
      if v.Failure? {
        r := Failure(v.error);
      } else {
        var clients := v.value.clients;
        for i := 0 to |clients|
          invariant lockAcquired && mmap[..] == old(mmap[..])
          invariant names == old(names) - set k | k in clients[..i]
        {
          assert clients[..i + 1] == clients[..i] + [clients[i]];
          names := names - {clients[i]};
        }
        assert clients[..|clients|] == clients;
        r := Encode(Reg(v.value.servers, []));
      }
      lockAcquired := false;
    }

    method CheckForMissingPids(alive: Pid -> bool) returns (r: Result<(), Error>)
      requires Valid()
      modifies this`lockAcquired, this`names, mmap
      ensures Valid() && Performed(DropMissing(alive), r)
    {
      lockAcquired := true;
      var v := Decode();
      if v.Failure? {
        r := Failure(v.error);
      } else {
        var servers := CheckServers(v.value.servers, alive);
        var clients := CheckClients(v.value.clients, alive);
        r := Encode(Reg(servers, clients));
      }
      lockAcquired := false;
    }

    static method CheckServers(L: seq<Pid>, alive: Pid -> bool) returns (servers: seq<Pid>)
      ensures servers == Filter(L, alive)
    {
      servers := [];
      for i := 0 to |L|
        invariant servers == Filter(L[..i], alive)
      {
        FilterNext(L, i, alive);
        if alive(L[i]) {
          servers := servers + [L[i]];
        }
      }
      assert L[..|L|] == L;
    }

    /** Living clients stay; the names of the others are unlinked. */
    method CheckClients(L: seq<Key>, alive: Pid -> bool) returns (clients: seq<Key>)
      modifies this`names
      ensures clients == Filter(L, ByPid(alive))
      ensures names == old(names) - Dead(L, alive)
    {
      clients := [];
      for i := 0 to |L|
        invariant clients == Filter(L[..i], ByPid(alive))
        invariant names == old(names) - Dead(L[..i], alive)
      {
        FilterNext(L, i, ByPid(alive));
        DeadNext(L, i, alive);
        if alive(L[i].0) {
          clients := clients + [L[i]];
        } else {
          names := names - {L[i]};
        }
      }
      assert L[..|L|] == L;
    }

    method GetCreatedExitedClientPids(known: set<Key>, alive: Pid -> bool)
        returns (r: Result<(set<Key>, set<Key>), Error>)
      requires Valid()
      modifies this`lockAcquired
      ensures Valid()
      ensures r == match Read(Loads(json, mmap[..]))
                   case Failure(e) => Failure(e)
                   case Success(v) => Success((Live(v, alive) - known, known - Live(v, alive)))
    {
      lockAcquired := true;
      var v := Decode();
      lockAcquired := false;
      if v.Failure? {
        return Failure(v.error);
      }
      var live := Live(v.value, alive);
      return Success((live - known, known - live));
    }
  }

  /** The registered clients whose process is alive. */
  function Live(v: Reg, alive: Pid -> bool): set<Key> {
    set k | k in v.clients && alive(k.0)
  }

  // ---------------------------------------------------------------------
  // A worker process watching the registry
  // ---------------------------------------------------------------------

  class SHMServer {
    const manager: SHMResourceManager
    var threads: set<Key>    // SPIDThreads

    constructor (manager: SHMResourceManager)
      ensures this.manager == manager && threads == {}
    {
      this.manager, threads := manager, {};
    }

    /**
     * One pass: it starts a thread for each newly registered living client
     * and no other, and afterwards serves exactly the registered living ones.
     * If the registry cannot be read it raises and changes nothing.
     */
    method MonitorPids(alive: Pid -> bool) returns (r: Result<(), Error>, started: seq<Key>)
      requires manager.Valid()
      modifies this, manager`lockAcquired
      ensures manager.Valid()
      ensures r.Success? <==> manager.Value().Some?
      ensures r.Failure? ==> threads == old(threads) && started == []
      ensures r.Success? ==> threads == Live(manager.Value().value, alive)
      ensures NoDuplicates(started)
      ensures forall k :: k in started <==> k in threads && k !in old(threads)
    {
      var clients := manager.GetCreatedExitedClientPids(threads, alive);
      if clients.Failure? {
        return Failure(clients.error), [];
      }
      var (created, exited) := clients.value;
      started := StartThreads(created);
      StopThreads(exited);
      r := Success(());
    }

    method StartThreads(created: set<Key>) returns (started: seq<Key>)
      modifies this
      ensures threads == old(threads) + created
      ensures NoDuplicates(started) && forall k :: k in started <==> k in created
    {
      started := [];
      var left := created;
      while left != {}
        invariant left <= created && threads == old(threads) + (created - left)
        invariant NoDuplicates(started) && forall k :: k in started <==> k in created - left
        decreases |left|
      {
        var key :| key in left;
        threads := threads + {key};
        started := started + [key];
        left := left - {key};
      }
    }

    method StopThreads(exited: set<Key>)
      modifies this
      ensures threads == old(threads) - exited
    {
      var left := exited;
      while left != {}
        invariant left <= exited && threads == old(threads) - (exited - left)
        decreases |left|
      {
        var key :| key in left;
        threads := threads - {key};
        left := left - {key};
      }
    }
  }

  /** A client connects, and a worker makes its next pass: if it lives, and had no thread, it gets one. */
  method Connect(server: SHMServer, key: Key, alive: Pid -> bool)
      returns (created: Result<(), Error>, passed: Result<(), Error>, started: seq<Key>)
    requires server.manager.Valid()
    modifies server, server.manager, server.manager.mmap
    ensures created.Success? ==> passed.Success?
    ensures created.Success? && alive(key.0) ==> key in server.threads && (key in started <==> key !in old(server.threads))
    ensures created.Success? && !alive(key.0) ==> key !in server.threads && key !in started
  {
    created := server.manager.CreateResources(key);
    passed, started := server.MonitorPids(alive);
  }
}
