/** The inductive invariant of the protocol, and that every action keeps it. */
module ShmInvariant {
  import opened Bytes
  import opened Frames
  import SharedParams
  import opened ShmProtocol
  import opened Wrappers

  // ---------------------------------------------------------------------
  // Generations
  // ---------------------------------------------------------------------

  /** The newest generation. */
  function Cur(m: Memory): nat
    requires |m.boxes| > 0
  {
    |m.boxes| - 1
  }

  /** Sizes are page-times-a-power-of-two and grow; superseded mailboxes are INVALID. */
  ghost predicate Generations(page: nat, m: Memory) {
    && page > 2
    && |m.boxes| > 0
    && (forall g :: 0 <= g < |m.boxes| ==> |m.boxes[g]| > 0 && SharedParams.IsMapSize(page, |m.boxes[g]|))
    && (forall g, h :: 0 <= g < h < |m.boxes| ==> 2 * |m.boxes[g]| <= |m.boxes[h]|)
    && (forall g :: 0 <= g < Cur(m) ==> m.boxes[g][0] == INVALID)
  }

  /** Nobody is in the middle of a resize: the name stands for the newest mailbox, which is usable. */
  ghost predicate Quiet(m: Memory) {
    && |m.boxes| > 0
    && m.Has(Cur(m))
    && m.name == Some(Cur(m))
    && m.Flag(Cur(m)) in {CLIENT, SERVER}
  }

  /** What holds between the steps of a resize by the participant that maps `g`. */
  ghost predicate ResizeOk(page: nat, m: Memory, g: nat, r: Resize)
    requires Generations(page, m)
  {
    && g == Cur(m)
    && r.status in {CLIENT, SERVER}
    && (match r.phase
        case Invalidate =>
          m.name == Some(g) && m.Flag(g) == r.status && r.oldLen == m.Len(g) && |r.frame| >= m.Len(g) - 1
        case Unlink =>
          m.name == Some(g) && m.Flag(g) == INVALID && r.oldLen == m.Len(g) && |r.frame| >= m.Len(g) - 1
        case Create =>
          m.name == None && m.Flag(g) == INVALID && r.oldLen == m.Len(g) && |r.frame| >= m.Len(g) - 1
        case Label =>
          m.name == Some(g) && m.Flag(g) == INVALID && r.oldLen < m.Len(g) && |r.frame| + 1 < m.Len(g)
        case Restore =>
          m.name == Some(g) && m.Flag(g) == CLIENT && r.oldLen < m.Len(g) && |r.frame| + 1 < m.Len(g))
  }

  /** Newest mailbox in use, with the given state byte, mapped by `g`. */
  ghost predicate Showing(m: Memory, g: nat, flag: Byte) {
    Quiet(m) && g == Cur(m) && m.Flag(g) == flag
  }

  // ---------------------------------------------------------------------
  // The conversation
  // ---------------------------------------------------------------------

  ghost predicate Settled(s: State) {
    |s.sent| == |s.replies| == |s.got|
  }

  ghost predicate Unanswered(s: State) {
    |s.sent| == |s.got| + 1 && |s.replies| == |s.got|
  }

  ghost predicate Answered(s: State) {
    |s.sent| == |s.replies| == |s.got| + 1
  }

  ghost predicate Histories(s: State) {
    && |s.got| <= |s.replies| <= |s.sent|
    && (forall i :: 0 <= i < |s.sent| ==> s.sent[i].Valid())
    && (forall i :: 0 <= i < |s.replies| ==> s.replies[i].resp.Valid() && s.replies[i].req == s.sent[i])
    && (forall i :: 0 <= i < |s.got| ==> s.got[i] == s.replies[i].resp)
  }

  ghost predicate IsRequest(s: State, f: Frame) {
    |s.sent| > 0 && s.sent[|s.sent| - 1].Valid() && f == RequestFrame(s.sent[|s.sent| - 1])
  }

  ghost predicate IsResponse(s: State, f: Frame) {
    |s.replies| > 0 && s.replies[|s.replies| - 1].resp.Valid() && f == ResponseFrame(s.replies[|s.replies| - 1].resp)
  }

  ghost predicate HoldsRequest(s: State, box: Box) {
    && |s.sent| > 0 && s.sent[|s.sent| - 1].Valid()
    && Holds(box, RequestFrame(s.sent[|s.sent| - 1]))
  }

  ghost predicate HoldsResponse(s: State, box: Box) {
    && |s.replies| > 0 && s.replies[|s.replies| - 1].resp.Valid()
    && Holds(box, ResponseFrame(s.replies[|s.replies| - 1].resp))
  }

  /** The request is out and no worker has answered it. */
  ghost predicate RequestOut(s: State, g: nat) {
    && Unanswered(s)
    && Showing(s.mem, g, SERVER)
    && HoldsRequest(s, s.mem.boxes[g])
  }

  /** The response is ready to be read. */
  ghost predicate ResponseOut(s: State) {
    && Answered(s)
    && Quiet(s.mem)
    && s.mem.Flag(Cur(s.mem)) == CLIENT
    && HoldsResponse(s, s.mem.boxes[Cur(s.mem)])
  }

  predicate Serving(pc: WorkerPc) {
    pc.Fitting? || pc.Growing? || pc.Replying? || pc.Finishing?
  }

  /** The lock holder is a worker that has run the method and is delivering the response. */
  ghost predicate BeingServed(s: State) {
    && Answered(s)
    && s.holder.Some? && s.holder.value.AWorker?
    && s.holder.value.id in s.workers
    && Serving(s.workers[s.holder.value.id].pc)
  }

  /** From handing over the request to taking the response. */
  ghost predicate Pending(s: State) {
    || RequestOut(s, s.clientMap)
    || BeingServed(s)
    || ResponseOut(s)
  }

  // ---------------------------------------------------------------------
  // Participants and the lock
  // ---------------------------------------------------------------------

  predicate ClientHolds(pc: ClientPc) {
    !pc.Starting? && !pc.Acquiring?
  }

  ghost predicate LockOk(s: State) {
    && (s.holder == Some(TheClient) <==> ClientHolds(s.client))
    && (forall w :: w in s.workers ==> (s.holder == Some(AWorker(w)) <==> !s.workers[w].pc.Waiting?))
    && (s.holder.Some? && s.holder.value.AWorker? ==> s.holder.value.id in s.workers)
  }

  ghost predicate ClientOk(s: State)
    requires Generations(s.page, s.mem)
  {
    var m, g := s.mem, s.clientMap;
    g <= Cur(m) &&
    match s.client
    case Starting => Settled(s) && g == Cur(m) && m.Flag(g) == CLIENT && Quiet(m)
    case Idle => Settled(s) && Showing(m, g, CLIENT)
    case Encoded(f) => Unanswered(s) && Showing(m, g, CLIENT) && IsRequest(s, f)
    case Resizing(r) =>
      Unanswered(s) && ResizeOk(s.page, m, g, r) && r.status == CLIENT && IsRequest(s, r.frame)
    case Writing(f) =>
      Unanswered(s) && Showing(m, g, CLIENT) && IsRequest(s, f) && |f| + 1 < m.Len(g)
    case Handing =>
      Unanswered(s) && Showing(m, g, CLIENT) && HoldsRequest(s, m.boxes[g])
    case Releasing(n) => n == 0 && RequestOut(s, g)
    case Acquiring => Pending(s)
    case Checking(n) =>
      (RequestOut(s, g) || ResponseOut(s)) && (n == 0 || (n == 1 && ResponseOut(s) && g == Cur(m)))
    case Reconnecting(n) => n == 0 && ResponseOut(s) && g < Cur(m)
    case Decoding => ResponseOut(s) && g == Cur(m)
    case Failed => false
  }

  ghost predicate WorkerOk(s: State, x: Worker)
    requires Generations(s.page, s.mem)
  {
    var m, g := s.mem, x.at;
    g <= Cur(m) &&
    match x.pc
    case Waiting => true
    case Looking(n) => Quiet(m) && (n == 0 || (n == 1 && g == Cur(m)))
    case Reopening(n) => Quiet(m) && n == 0 && g < Cur(m)
    case Reading => RequestOut(s, g)
    case Running(q) => RequestOut(s, g) && q == s.sent[|s.sent| - 1] && IsAscii(q.cmd)
    case Fitting(f) => Answered(s) && Showing(m, g, SERVER) && IsResponse(s, f)
    case Growing(r) =>
      Answered(s) && ResizeOk(s.page, m, g, r) && r.status == SERVER && IsResponse(s, r.frame)
    case Replying(f) => Answered(s) && Showing(m, g, SERVER) && IsResponse(s, f) && |f| + 1 < m.Len(g)
    case Finishing =>
      Answered(s) && Showing(m, g, SERVER) && HoldsResponse(s, m.boxes[g])
    case Leaving => true
    case Dying => true
    case Broken => false
  }

  ghost predicate WorkersOk(s: State)
    requires Generations(s.page, s.mem)
  {
    forall w :: w in s.workers ==> WorkerOk(s, s.workers[w])
  }

  /** Only the lock holder can be in the middle of a resize. */
  ghost predicate NobodyResizes(s: State) {
    && !s.client.Resizing?
    && forall w :: w in s.workers ==> !s.workers[w].pc.Growing?
  }

  ghost predicate Inv(s: State) {
    && Generations(s.page, s.mem)
    && s.WellFormed()
    && LockOk(s)
    && Histories(s)
    && (NobodyResizes(s) ==> Quiet(s.mem))
    && ClientOk(s)
    && WorkersOk(s)
  }

  lemma InitInv(page: nat)
    requires page > 2
    ensures Inv(Init(page))
  {
    SharedParams.FitIsLeast(page, 1024);
  }

  // ---------------------------------------------------------------------
  // Memory operations
  // ---------------------------------------------------------------------

  lemma StoreHolds(m: Memory, g: nat, f: Frame)
    requires m.Has(g) && 1 + |f| <= m.Len(g)
    ensures Holds(m.Store(g, f).boxes[g], f)
    ensures m.Store(g, f).Flag(g) == m.Flag(g) && m.Store(g, f).Len(g) == m.Len(g)
  {
    var b := m.Store(g, f).boxes[g];
    assert b[1..1 + |f|] == f;
  }

  lemma FlagKeepsHolds(m: Memory, g: nat, b: Byte, f: Frame)
    requires m.Has(g) && Holds(m.boxes[g], f)
    ensures Holds(m.SetFlag(g, b).boxes[g], f)
  {
    assert m.SetFlag(g, b).boxes[g][1..1 + |f|] == m.boxes[g][1..1 + |f|];
  }

  /** Rewriting the state byte or the frame of the newest mailbox leaves the generations in order. */
  lemma SetFlagKeeps(page: nat, m: Memory, b: Byte)
    requires Generations(page, m)
    ensures Generations(page, m.SetFlag(Cur(m), b))
  {
  }

  lemma StoreKeeps(page: nat, m: Memory, f: Frame)
    requires Generations(page, m) && 1 + |f| <= m.Len(Cur(m))
    ensures Generations(page, m.Store(Cur(m), f))
  {
    var box := m.Store(Cur(m), f).boxes[Cur(m)];
    assert |box| == m.Len(Cur(m));
  }

  lemma CreateKeeps(page: nat, m: Memory, frame: nat)
    requires Generations(page, m) && m.Flag(Cur(m)) == INVALID && frame >= m.Len(Cur(m)) - 1
    ensures var m' := m.Create(SharedParams.Fit(page, 2 * frame));
      && Generations(page, m')
      && m.Len(Cur(m)) < m'.Len(|m.boxes|)
      && frame + 1 < m'.Len(|m.boxes|)
      && m'.Flag(|m.boxes|) == INVALID
  {
    SharedParams.ResizeFits(page, m.Len(Cur(m)), frame);
    AppendKeeps(page, m, SharedParams.Fit(page, 2 * frame));
  }

  /** The mailboxes after one more, of `size` zero bytes. */
  lemma CreatedBoxes(m: Memory, size: nat)
    requires size > 0
    ensures
      var m' := m.Create(size);
      && |m'.boxes| == |m.boxes| + 1
      && (forall g :: 0 <= g < |m.boxes| ==> m'.boxes[g] == m.boxes[g])
      && |m'.boxes[|m.boxes|]| == size && m'.boxes[|m.boxes|][0] == INVALID
  {
  }

  lemma AppendKeeps(page: nat, m: Memory, size: nat)
    requires Generations(page, m) && m.Flag(Cur(m)) == INVALID
    requires SharedParams.IsMapSize(page, size) && 2 * m.Len(Cur(m)) <= size
    ensures var m' := m.Create(size);
      Generations(page, m') && m'.Len(|m.boxes|) == size && m'.Flag(|m.boxes|) == INVALID
  {
    var boxes := m.Create(size).boxes;
    CreatedBoxes(m, size);
    AppendDoubles(m.boxes, boxes);
  }

  /** Sizes go on doubling with a mailbox at least twice the newest. */
  lemma AppendDoubles(boxes: seq<seq<Byte>>, boxes': seq<seq<Byte>>)
    requires boxes != [] && |boxes'| == |boxes| + 1 && (forall g :: 0 <= g < |boxes| ==> boxes'[g] == boxes[g])
    requires forall g, h :: 0 <= g < h < |boxes| ==> 2 * |boxes[g]| <= |boxes[h]|
    requires 2 * |boxes[|boxes| - 1]| <= |boxes'[|boxes|]|
    ensures forall g, h :: 0 <= g < h < |boxes'| ==> 2 * |boxes'[g]| <= |boxes'[h]|
  {
    var n := |boxes|;
    forall g, h | 0 <= g < h < |boxes'| ensures 2 * |boxes'[g]| <= |boxes'[h]| {
      if h == n && g < n - 1 {
        assert 2 * |boxes[g]| <= |boxes[n - 1]|;
      }
    }
  }

  ghost predicate ResizeKept(page: nat, m: Memory, r: Resize, p: Progress) {
    match p
    case More(m', g', r') =>
      && Generations(page, m') && ResizeOk(page, m', g', r') && |m.boxes| <= |m'.boxes|
      && r'.frame == r.frame && r'.status == r.status
    case Done(m', g') =>
      && Generations(page, m') && Showing(m', g', r.status) && |m.boxes| <= |m'.boxes|
      && |r.frame| + 1 < m'.Len(g')
    case AssertionFailed => false
  }

  lemma ResizeRetires(page: nat, m: Memory, g: nat, r: Resize)
    requires Generations(page, m) && ResizeOk(page, m, g, r) && (r.phase.Invalidate? || r.phase.Unlink?)
    ensures ResizeKept(page, m, r, ResizeStep(page, m, g, r))
  {
    SetFlagKeeps(page, m, INVALID);
  }

  lemma ResizeCreates(page: nat, m: Memory, g: nat, r: Resize)
    requires Generations(page, m) && ResizeOk(page, m, g, r) && r.phase.Create?
    ensures ResizeKept(page, m, r, ResizeStep(page, m, g, r))
  {
    CreateKeeps(page, m, |r.frame|);
  }

  lemma ResizeLabels(page: nat, m: Memory, g: nat, r: Resize)
    requires Generations(page, m) && ResizeOk(page, m, g, r) && (r.phase.Label? || r.phase.Restore?)
    ensures ResizeKept(page, m, r, ResizeStep(page, m, g, r))
  {
    SetFlagKeeps(page, m, if r.phase.Label? then CLIENT else r.status);
  }

  /** Each step of a resize goes well: none of its assertions fires. */
  lemma ResizeKeeps(page: nat, m: Memory, g: nat, r: Resize)
    requires Generations(page, m) && ResizeOk(page, m, g, r)
    ensures ResizeKept(page, m, r, ResizeStep(page, m, g, r))
  {
    match r.phase
    case Invalidate => ResizeRetires(page, m, g, r);
    case Unlink => ResizeRetires(page, m, g, r);
    case Create => ResizeCreates(page, m, g, r);
    case Label => ResizeLabels(page, m, g, r);
    case Restore => ResizeLabels(page, m, g, r);
  }

  // ---------------------------------------------------------------------
  // Whose turn it is
  // ---------------------------------------------------------------------

  /** All workers but `p` wait, with a mapping of some mailbox. */
  ghost predicate Bystanders(s: State, p: Who) {
    forall v :: v in s.workers && AWorker(v) != p ==> s.workers[v].pc.Waiting? && s.workers[v].at < |s.mem.boxes|
  }

  /** `p` has the lock or nobody does; and who is inside has it. */
  ghost predicate LockWith(s: State, p: Who) {
    && s.holder in {None, Some(p)}
    && (s.holder == Some(TheClient) <==> ClientHolds(s.client))
    && (p.AWorker? ==> (s.holder == Some(p) <==> p.id in s.workers && !s.workers[p.id].pc.Waiting?))
  }

  /** `p` is in the middle of a resize, or the newest mailbox is in use. */
  ghost predicate InUse(s: State, p: Who) {
    || Quiet(s.mem)
    || (p.TheClient? && s.client.Resizing?)
    || (p.AWorker? && p.id in s.workers && s.workers[p.id].pc.Growing?)
  }

  /** What the one whose turn it is may rely on, told without quantifying over the others. */
  ghost predicate Common(s: State, p: Who) {
    && Generations(s.page, s.mem)
    && Histories(s)
    && (s.mem.name.Some? ==> s.mem.Has(s.mem.name.value))
    && LockWith(s, p)
    && InUse(s, p)
  }

  /** The client between taking the lock and giving it back. */
  ghost predicate ClientTurn(s: State) {
    Common(s, TheClient) && ClientOk(s)
  }

  /** The client while a worker has the lock, or nobody. */
  ghost predicate ClientWaits(s: State)
    requires Generations(s.page, s.mem)
  {
    var m, g := s.mem, s.clientMap;
    && g <= Cur(m)
    && ((s.client.Starting? && Settled(s) && g == Cur(m) && m.Flag(g) == CLIENT && Quiet(m))
        || (s.client.Acquiring? && Pending(s)))
  }

  /** A worker from before it takes the lock until after it gives it back. */
  ghost predicate WorkerTurn(s: State, w: nat) {
    Common(s, AWorker(w)) && ClientWaits(s) && (w in s.workers ==> WorkerOk(s, s.workers[w]))
  }

  lemma Unlocked(s: State)
    requires Inv(s) && s.holder.None?
    ensures s.client.Starting? || s.client.Acquiring?
    ensures Quiet(s.mem)
  {
  }

  lemma HolderOrNobody(s: State, p: Who)
    requires Inv(s) && s.holder in {None, Some(p)}
    ensures Common(s, p) && Bystanders(s, p)
  {
    if s.holder.None? {
      Unlocked(s);
    }
    forall v | v in s.workers && AWorker(v) != p
      ensures s.workers[v].pc.Waiting? && s.workers[v].at < |s.mem.boxes|
    {
      assert WorkerOk(s, s.workers[v]);
    }
  }

  lemma ClientHasTurn(s: State)
    requires Inv(s) && s.holder in {None, Some(TheClient)}
    ensures ClientTurn(s) && Bystanders(s, TheClient)
  {
    HolderOrNobody(s, TheClient);
  }

  lemma WorkerHasTurn(s: State, w: nat)
    requires Inv(s) && s.holder in {None, Some(AWorker(w))}
    ensures WorkerTurn(s, w) && Bystanders(s, AWorker(w))
  {
    HolderOrNobody(s, AWorker(w));
    ClientIsWaiting(s);
  }

  lemma ClientIsWaiting(s: State)
    requires Generations(s.page, s.mem) && ClientOk(s) && !ClientHolds(s.client)
    ensures ClientWaits(s)
  {
  }

  lemma WaitingIsOk(s: State)
    requires Generations(s.page, s.mem) && ClientWaits(s)
    ensures ClientOk(s) && !ClientHolds(s.client)
  {
  }

  /** The lock discipline, when all but `p` wait. */
  lemma LockFrom(s: State, p: Who)
    requires LockWith(s, p) && Bystanders(s, p)
    ensures LockOk(s)
  {
  }

  lemma WorkersFrom(s: State, p: Who)
    requires Generations(s.page, s.mem) && Bystanders(s, p)
    requires p.AWorker? && p.id in s.workers ==> WorkerOk(s, s.workers[p.id])
    ensures WorkersOk(s)
    ensures forall v :: v in s.workers ==> s.mem.Has(s.workers[v].at)
  {
    forall v | v in s.workers ensures WorkerOk(s, s.workers[v]) && s.mem.Has(s.workers[v].at) {
    }
  }

  /** The invariant, put together after the turn of `p`. */
  lemma InvFrom(s: State, p: Who)
    requires Common(s, p) && Bystanders(s, p) && ClientOk(s)
    requires p.AWorker? && p.id in s.workers ==> WorkerOk(s, s.workers[p.id])
    ensures Inv(s)
  {
    LockFrom(s, p);
    WorkersFrom(s, p);
  }

  lemma BystandersStay(s: State, s': State, p: Who)
    requires Bystanders(s, p) && |s.mem.boxes| <= |s'.mem.boxes|
    requires forall v :: v in s'.workers && AWorker(v) != p ==> v in s.workers && s'.workers[v] == s.workers[v]
    ensures Bystanders(s', p)
  {
  }

  // ---------------------------------------------------------------------
  // The client's turn
  // ---------------------------------------------------------------------

  /** What the client leaves behind. */
  ghost predicate ClientLeft(s: State, s': State) {
    && s'.workers == s.workers && |s.mem.boxes| <= |s'.mem.boxes|
    && ClientTurn(s')
  }

  lemma ClientLeftInv(s: State, s': State)
    requires Bystanders(s, TheClient) && ClientLeft(s, s')
    ensures Inv(s')
  {
    BystandersStay(s, s', TheClient);
    InvFrom(s', TheClient);
  }

  lemma CallLeaves(s: State, q: Request)
    requires ClientTurn(s) && CallStep(s, q).Some?
    ensures ClientLeft(s, CallStep(s, q).value)
  {
  }

  lemma CallKeepsInv(s: State, q: Request)
    requires Inv(s) && CallStep(s, q).Some?
    ensures Inv(CallStep(s, q).value)
  {
    ClientHasTurn(s);
    CallLeaves(s, q);
    ClientLeftInv(s, CallStep(s, q).value);
  }

  lemma ClientLocks(s: State)
    requires ClientTurn(s) && (s.client.Starting? || s.client.Acquiring?) && s.holder.None?
    ensures s.client.Acquiring? ==> RequestOut(s, s.clientMap) || ResponseOut(s)
    ensures ClientLeft(s, s.(holder := Some(TheClient), client := if s.client.Starting? then Idle else Checking(0)))
  {
  }

  lemma ClientFits(s: State, s': State)
    requires ClientTurn(s) && s.client.Encoded?
    requires
      var m, g, f := s.mem, s.clientMap, s.client.frame;
      s' == s.(client := if |f| >= m.Len(g) - 1 then Resizing(Resize(Invalidate, f, m.Len(g), m.Flag(g))) else Writing(f))
    ensures ClientLeft(s, s')
  {
  }

  lemma ClientResizes(s: State, p: Progress, s': State)
    requires ClientTurn(s) && s.client.Resizing?
    requires p == ResizeStep(s.page, s.mem, s.clientMap, s.client.r) && ResizeKept(s.page, s.mem, s.client.r, p)
    requires
      match p
      case More(m, g, r) => s' == s.(mem := m, clientMap := g, client := Resizing(r))
      case Done(m, g) => s' == s.(mem := m, clientMap := g, client := Writing(s.client.r.frame))
      case AssertionFailed => false
    ensures ClientLeft(s, s')
  {
  }

  lemma ClientWrites(s: State)
    requires ClientTurn(s) && s.client.Writing?
    ensures 1 + |s.client.frame| <= s.mem.Len(s.clientMap)
    ensures ClientLeft(s, s.(mem := s.mem.Store(s.clientMap, s.client.frame), client := Handing))
  {
    StoreHolds(s.mem, s.clientMap, s.client.frame);
    StoreKeeps(s.page, s.mem, s.client.frame);
  }

  lemma ClientHands(s: State)
    requires ClientTurn(s) && s.client.Handing?
    ensures ClientLeft(s, s.(mem := s.mem.SetFlag(s.clientMap, SERVER), client := Releasing(0)))
  {
    FlagKeepsHolds(s.mem, s.clientMap, SERVER, RequestFrame(s.sent[|s.sent| - 1]));
    SetFlagKeeps(s.page, s.mem, SERVER);
  }

  lemma ClientReleases(s: State)
    requires ClientTurn(s) && s.client.Releasing?
    ensures s.client.n == 0 && ClientLeft(s, s.(holder := None, client := Acquiring))
  {
  }

  /** Looking at the state byte. */
  lemma ClientChecks(s: State, pc: ClientPc)
    requires ClientTurn(s) && s.client.Checking?
    requires
      var flag := s.mem.Flag(s.clientMap);
      || (flag == CLIENT && pc == Decoding)
      || (flag == INVALID && pc == Reconnecting(s.client.n))
      || (flag == SERVER && pc == Releasing(s.client.n))
    ensures ClientLeft(s, s.(client := pc))
  {
  }

  lemma ClientReconnects(s: State)
    requires ClientTurn(s) && s.client.Reconnecting?
    ensures s.mem.name == Some(Cur(s.mem)) && s.mem.Len(s.clientMap) < s.mem.Len(Cur(s.mem)) && s.client.n == 0
    ensures ClientLeft(s, s.(clientMap := Cur(s.mem), client := Checking(1)))
  {
  }

  /** The client decodes exactly the response computed for its request. */
  lemma ClientDecodes(s: State)
    requires ClientTurn(s) && s.client.Decoding?
    ensures |s.got| < |s.replies|
    ensures DecodeResponse(s.mem.boxes[s.clientMap]) == Success(s.replies[|s.got|].resp)
    ensures ClientLeft(s, s.(client := Idle, got := s.got + [s.replies[|s.got|].resp]))
  {
    ResponseRoundTrip(s.replies[|s.replies| - 1].resp, s.mem.boxes[s.clientMap]);
  }

  lemma ClientBegins(s: State, s': State)
    requires s.WellFormed() && ClientTurn(s) && ClientMove(s) == Some(s')
    requires s.client.Starting? || s.client.Acquiring? || s.client.Encoded?
    ensures ClientLeft(s, s')
  {
    if s.client.Encoded? {
      ClientFits(s, s');
    } else {
      ClientLocks(s);
    }
  }

  lemma ClientGrows(s: State, s': State)
    requires s.WellFormed() && ClientTurn(s) && ClientMove(s) == Some(s') && s.client.Resizing?
    ensures ClientLeft(s, s')
  {
    ResizeKeeps(s.page, s.mem, s.clientMap, s.client.r);
    ClientResizes(s, ResizeStep(s.page, s.mem, s.clientMap, s.client.r), s');
  }

  lemma ClientSends(s: State, s': State)
    requires s.WellFormed() && ClientTurn(s) && ClientMove(s) == Some(s')
    requires s.client.Writing? || s.client.Handing? || s.client.Releasing?
    ensures ClientLeft(s, s')
  {
    match s.client
    case Writing(_) => ClientWrites(s);
    case Handing => ClientHands(s);
    case _ => ClientReleases(s);
  }

  lemma ClientLooks(s: State, s': State)
    requires s.WellFormed() && ClientTurn(s) && ClientMove(s) == Some(s')
    requires s.client.Checking? || s.client.Reconnecting?
    ensures ClientLeft(s, s')
  {
    if s.client.Checking? {
      assert s.mem.Flag(s.clientMap) in {CLIENT, INVALID, SERVER};
      ClientChecks(s, s'.client);
    } else {
      ClientReconnects(s);
    }
  }

  lemma ClientReceives(s: State, s': State)
    requires s.WellFormed() && ClientTurn(s) && ClientMove(s) == Some(s') && s.client.Decoding?
    ensures ClientLeft(s, s')
    ensures |s.got| < |s.replies| && s'.got == s.got + [s.replies[|s.got|].resp]
    ensures s'.sent == s.sent && s'.replies == s.replies
  {
    ClientDecodes(s);
  }

  /** Every step of the client keeps the invariant. */
  lemma ClientKeepsInv(s: State)
    requires Inv(s) && ClientMove(s).Some?
    ensures Inv(ClientMove(s).value)
  {
    var s' := ClientMove(s).value;
    ClientHasTurn(s);
    if s.client.Starting? || s.client.Acquiring? || s.client.Encoded? {
      ClientBegins(s, s');
    } else if s.client.Resizing? {
      ClientGrows(s, s');
    } else if s.client.Writing? || s.client.Handing? || s.client.Releasing? {
      ClientSends(s, s');
    } else if s.client.Decoding? {
      ClientReceives(s, s');
    } else {
      ClientLooks(s, s');
    }
    ClientLeftInv(s, s');
  }

  // ---------------------------------------------------------------------
  // A worker's turn
  // ---------------------------------------------------------------------

  /** What worker `w` leaves behind. */
  ghost predicate WorkerLeft(s: State, w: nat, s': State) {
    && (forall v :: v in s'.workers && v != w ==> v in s.workers && s'.workers[v] == s.workers[v])
    && |s.mem.boxes| <= |s'.mem.boxes|
    && WorkerTurn(s', w)
  }

  lemma WorkerLeftInv(s: State, w: nat, s': State)
    requires Bystanders(s, AWorker(w)) && WorkerLeft(s, w, s')
    ensures Inv(s')
  {
    BystandersStay(s, s', AWorker(w));
    WaitingIsOk(s');
    InvFrom(s', AWorker(w));
  }

  /** Two states that differ in the lock and the workers only. */
  ghost predicate SameTalk(s: State, s': State) {
    && s'.page == s.page && s'.mem == s.mem && s'.client == s.client && s'.clientMap == s.clientMap
    && s'.sent == s.sent && s'.replies == s.replies && s'.got == s.got
  }

  /** A worker that is not serving changes its place, or goes, and takes or gives back the lock. */
  lemma WorkerMovesOn(s: State, w: nat, s': State)
    requires WorkerTurn(s, w) && w in s.workers && !Serving(s.workers[w].pc) && Quiet(s.mem)
    requires SameTalk(s, s') && LockWith(s', AWorker(w))
    requires forall v :: v in s'.workers && v != w ==> v in s.workers && s'.workers[v] == s.workers[v]
    requires w in s'.workers ==> WorkerOk(s', s'.workers[w])
    ensures WorkerLeft(s, w, s')
  {
  }

  lemma WorkerLocks(s: State, w: nat)
    requires WorkerTurn(s, w) && w in s.workers && s.workers[w].pc.Waiting? && s.holder.None?
    ensures WorkerLeft(s, w, Put(s, w, s.workers[w].(pc := Looking(0))).(holder := Some(AWorker(w))))
  {
    WorkerMovesOn(s, w, Put(s, w, s.workers[w].(pc := Looking(0))).(holder := Some(AWorker(w))));
  }

  /** Looking at the state byte. */
  lemma WorkerLooks(s: State, w: nat, pc: WorkerPc)
    requires WorkerTurn(s, w) && w in s.workers && s.workers[w].pc.Looking?
    requires
      var flag := s.mem.Flag(s.workers[w].at);
      || (flag == CLIENT && pc == Leaving)
      || (flag == SERVER && pc == Reading)
      || (flag == INVALID && pc == Reopening(s.workers[w].pc.n))
    ensures WorkerLeft(s, w, Put(s, w, s.workers[w].(pc := pc)))
  {
    LookedOk(s, s.workers[w], pc);
    WorkerMovesOn(s, w, Put(s, w, s.workers[w].(pc := pc)));
  }

  lemma LookedOk(s: State, x: Worker, pc: WorkerPc)
    requires Generations(s.page, s.mem) && ClientWaits(s) && WorkerOk(s, x) && x.pc.Looking?
    requires !BeingServed(s)
    requires
      var flag := s.mem.Flag(x.at);
      || (flag == CLIENT && pc == Leaving)
      || (flag == SERVER && pc == Reading)
      || (flag == INVALID && pc == Reopening(x.pc.n))
    ensures WorkerOk(s, x.(pc := pc))
  {
  }

  lemma WorkerReopens(s: State, w: nat)
    requires WorkerTurn(s, w) && w in s.workers && s.workers[w].pc.Reopening?
    ensures
      var g := s.workers[w].at;
      s.mem.name == Some(Cur(s.mem)) && s.mem.Len(g) < s.mem.Len(Cur(s.mem)) && s.workers[w].pc.n == 0
    ensures WorkerLeft(s, w, Put(s, w, Worker(Looking(1), Cur(s.mem))))
  {
    WorkerMovesOn(s, w, Put(s, w, Worker(Looking(1), Cur(s.mem))));
  }

  /** A worker that saw SERVER decodes exactly the request last sent. */
  lemma WorkerReads(s: State, w: nat)
    requires WorkerTurn(s, w) && w in s.workers && s.workers[w].pc.Reading?
    ensures |s.sent| > 0 && DecodeRequest(s.mem.boxes[s.workers[w].at]) == Success(s.sent[|s.sent| - 1])
    ensures
      var q := s.sent[|s.sent| - 1];
      WorkerLeft(s, w, Put(s, w, s.workers[w].(pc := if IsAscii(q.cmd) then Running(q) else Dying)))
  {
    var q := s.sent[|s.sent| - 1];
    RequestRoundTrip(q, s.mem.boxes[s.workers[w].at]);
    WorkerMovesOn(s, w, Put(s, w, s.workers[w].(pc := if IsAscii(q.cmd) then Running(q) else Dying)));
  }

  lemma WorkerEnds(s: State, w: nat)
    requires WorkerTurn(s, w) && w in s.workers && (s.workers[w].pc.Leaving? || s.workers[w].pc.Dying?)
    ensures s.workers[w].pc.Leaving? ==> WorkerLeft(s, w, Put(s, w, s.workers[w].(pc := Waiting)).(holder := None))
    ensures s.workers[w].pc.Dying? ==> WorkerLeft(s, w, s.(workers := s.workers - {w}, holder := None))
  {
    if s.workers[w].pc.Leaving? {
      WorkerMovesOn(s, w, Put(s, w, s.workers[w].(pc := Waiting)).(holder := None));
    } else {
      WorkerMovesOn(s, w, s.(workers := s.workers - {w}, holder := None));
    }
  }

  /** A worker that is serving goes on to serve, and the client goes on waiting for it. */
  lemma WorkerServes(s: State, w: nat, m: Memory, x: Worker)
    requires WorkerTurn(s, w) && w in s.workers && Serving(s.workers[w].pc) && Serving(x.pc)
    requires Generations(s.page, m) && |s.mem.boxes| <= |m.boxes|
    requires (m.name.Some? ==> m.Has(m.name.value)) && (x.pc.Growing? || Quiet(m))
    requires WorkerOk(Put(s, w, x).(mem := m), x)
    ensures WorkerLeft(s, w, Put(s, w, x).(mem := m))
  {
    var s' := Put(s, w, x).(mem := m);
    assert s.holder == Some(AWorker(w));
    assert Answered(s);
    assert BeingServed(s');
  }

  lemma WorkerFits(s: State, w: nat, pc: WorkerPc)
    requires WorkerTurn(s, w) && w in s.workers && s.workers[w].pc.Fitting?
    requires
      var m, g, f := s.mem, s.workers[w].at, s.workers[w].pc.frame;
      pc == if |f| >= m.Len(g) - 1 then Growing(Resize(Invalidate, f, m.Len(g), m.Flag(g))) else Replying(f)
    ensures WorkerLeft(s, w, Put(s, w, s.workers[w].(pc := pc)))
  {
    WorkerServes(s, w, s.mem, s.workers[w].(pc := pc));
  }

  lemma WorkerResizes(s: State, w: nat, p: Progress, m: Memory, x: Worker)
    requires WorkerTurn(s, w) && w in s.workers && s.workers[w].pc.Growing?
    requires
      var r := s.workers[w].pc.r;
      p == ResizeStep(s.page, s.mem, s.workers[w].at, r) && ResizeKept(s.page, s.mem, r, p)
    requires
      match p
      case More(m', g', r') => m == m' && x == Worker(Growing(r'), g')
      case Done(m', g') => m == m' && x == Worker(Replying(s.workers[w].pc.r.frame), g')
      case AssertionFailed => false
    ensures WorkerLeft(s, w, Put(s, w, x).(mem := m))
  {
    WorkerServes(s, w, m, x);
  }

  lemma WorkerReplies(s: State, w: nat)
    requires WorkerTurn(s, w) && w in s.workers && s.workers[w].pc.Replying?
    ensures 1 + |s.workers[w].pc.frame| <= s.mem.Len(s.workers[w].at)
    ensures
      var x := s.workers[w];
      WorkerLeft(s, w, Put(s, w, x.(pc := Finishing)).(mem := s.mem.Store(x.at, x.pc.frame)))
  {
    var x := s.workers[w];
    StoreHolds(s.mem, x.at, x.pc.frame);
    StoreKeeps(s.page, s.mem, x.pc.frame);
    WorkerServes(s, w, s.mem.Store(x.at, x.pc.frame), x.(pc := Finishing));
  }

  /** With the state byte at CLIENT the response is out, and the worker is no longer needed. */
  lemma WorkerFinishes(s: State, w: nat)
    requires WorkerTurn(s, w) && w in s.workers && s.workers[w].pc.Finishing?
    ensures
      var x := s.workers[w];
      WorkerLeft(s, w, Put(s, w, x.(pc := Leaving)).(mem := s.mem.SetFlag(x.at, CLIENT)))
  {
    FlagKeepsHolds(s.mem, s.workers[w].at, CLIENT, ResponseFrame(s.replies[|s.replies| - 1].resp));
    SetFlagKeeps(s.page, s.mem, CLIENT);
  }

  /** A run of the method without a response: the request is still out. */
  lemma ExecuteLoses(s: State, w: nat, runs: seq<Run>)
    requires WorkerTurn(s, w) && w in s.workers && s.workers[w].pc.Running?
    ensures WorkerLeft(s, w, Put(s, w, s.workers[w].(pc := Dying)).(runs := runs))
  {
    WorkerMovesOn(s, w, Put(s, w, s.workers[w].(pc := Dying)).(runs := runs));
  }

  /** A run with a response, filed under the request. */
  lemma ExecuteAnswers(s: State, w: nat, p: Response, runs: seq<Run>, peak: nat)
    requires WorkerTurn(s, w) && w in s.workers && s.workers[w].pc.Running? && p.Valid()
    ensures
      var x := s.workers[w];
      WorkerLeft(s, w, Put(s, w, x.(pc := Fitting(ResponseFrame(p)))).(
                         runs := runs, replies := s.replies + [Reply(w, x.pc.req, p)], peak := peak))
  {
    var x := s.workers[w];
    var s' := Put(s, w, x.(pc := Fitting(ResponseFrame(p)))).(
                runs := runs, replies := s.replies + [Reply(w, x.pc.req, p)], peak := peak);
    assert BeingServed(s');
  }

  lemma WorkerEnters(s: State, w: nat, s': State)
    requires s.WellFormed() && WorkerTurn(s, w) && w in s.workers && WorkerMove(s, w) == Some(s')
    requires s.workers[w].pc.Waiting? || s.workers[w].pc.Looking?
    ensures WorkerLeft(s, w, s')
  {
    if s.workers[w].pc.Waiting? {
      WorkerLocks(s, w);
    } else {
      assert s.mem.Flag(s.workers[w].at) in {CLIENT, INVALID, SERVER};
      WorkerLooks(s, w, s'.workers[w].pc);
    }
  }

  lemma ReopensTo(s: State, w: nat, g: nat)
    requires s.WellFormed() && w in s.workers && s.workers[w].pc == Reopening(0)
    requires s.mem.name == Some(g) && s.mem.Len(s.workers[w].at) < s.mem.Len(g)
    ensures WorkerMove(s, w) == Some(Put(s, w, Worker(Looking(1), g)))
  {
  }

  lemma ReadsTo(s: State, w: nat, q: Request)
    requires s.WellFormed() && w in s.workers && s.workers[w].pc.Reading?
    requires DecodeRequest(s.mem.boxes[s.workers[w].at]) == Success(q)
    ensures WorkerMove(s, w) == Some(Put(s, w, s.workers[w].(pc := if IsAscii(q.cmd) then Running(q) else Dying)))
  {
  }

  lemma WorkerFinds(s: State, w: nat, s': State)
    requires s.WellFormed() && WorkerTurn(s, w) && w in s.workers && WorkerMove(s, w) == Some(s')
    requires s.workers[w].pc.Reopening? || s.workers[w].pc.Reading?
    ensures WorkerLeft(s, w, s')
  {
    if s.workers[w].pc.Reopening? {
      WorkerReopens(s, w);
      ReopensTo(s, w, Cur(s.mem));
    } else {
      WorkerReads(s, w);
      ReadsTo(s, w, s.sent[|s.sent| - 1]);
    }
  }

  lemma WorkerExits(s: State, w: nat, s': State)
    requires s.WellFormed() && WorkerTurn(s, w) && w in s.workers && WorkerMove(s, w) == Some(s')
    requires s.workers[w].pc.Leaving? || s.workers[w].pc.Dying?
    ensures WorkerLeft(s, w, s')
  {
    WorkerEnds(s, w);
  }

  lemma WorkerGrows(s: State, w: nat, s': State)
    requires s.WellFormed() && WorkerTurn(s, w) && w in s.workers && WorkerMove(s, w) == Some(s')
    requires s.workers[w].pc.Fitting? || s.workers[w].pc.Growing?
    ensures WorkerLeft(s, w, s')
  {
    if s.workers[w].pc.Fitting? {
      WorkerFits(s, w, s'.workers[w].pc);
    } else {
      var g, r := s.workers[w].at, s.workers[w].pc.r;
      ResizeKeeps(s.page, s.mem, g, r);
      WorkerResizes(s, w, ResizeStep(s.page, s.mem, g, r), s'.mem, s'.workers[w]);
    }
  }

  lemma WorkerDelivers(s: State, w: nat, s': State)
    requires s.WellFormed() && WorkerTurn(s, w) && w in s.workers && WorkerMove(s, w) == Some(s')
    requires s.workers[w].pc.Replying? || s.workers[w].pc.Finishing?
    ensures WorkerLeft(s, w, s')
  {
    if s.workers[w].pc.Replying? {
      WorkerReplies(s, w);
    } else {
      WorkerFinishes(s, w);
    }
  }

  /** Whoever moves has the lock or takes it. */
  lemma MoverHolds(s: State, w: nat)
    requires Inv(s) && w in s.workers && WorkerMove(s, w).Some?
    ensures s.holder in {None, Some(AWorker(w))}
    ensures !s.workers[w].pc.Running? && !s.workers[w].pc.Broken?
  {
    assert WorkerOk(s, s.workers[w]);
  }

  /** Every step of a worker keeps the invariant. */
  lemma WorkerKeepsInv(s: State, w: nat)
    requires Inv(s) && w in s.workers && WorkerMove(s, w).Some?
    ensures Inv(WorkerMove(s, w).value)
  {
    var pc, s' := s.workers[w].pc, WorkerMove(s, w).value;
    MoverHolds(s, w);
    WorkerHasTurn(s, w);
    if pc.Waiting? || pc.Looking? {
      WorkerEnters(s, w, s');
    } else if pc.Reopening? || pc.Reading? {
      WorkerFinds(s, w, s');
    } else if pc.Fitting? || pc.Growing? {
      WorkerGrows(s, w, s');
    } else if pc.Replying? || pc.Finishing? {
      WorkerDelivers(s, w, s');
    } else {
      WorkerExits(s, w, s');
    }
    WorkerLeftInv(s, w, s');
  }

  lemma ExecuteKeepsInv(s: State, w: nat, o: Outcome)
    requires Inv(s) && w in s.workers && ExecuteStep(s, w, o).Some?
    ensures Inv(ExecuteStep(s, w, o).value)
  {
    var s' := ExecuteStep(s, w, o).value;
    WorkerHasTurn(s, w);
    if o.Unspeakable? {
      ExecuteLoses(s, w, s'.runs);
    } else {
      ExecuteAnswers(s, w, ResponseOf(o).value, s'.runs, s'.peak);
    }
    WorkerLeftInv(s, w, s');
  }

  // ---------------------------------------------------------------------
  // Coming and going
  // ---------------------------------------------------------------------

  lemma WorkerOkFrame(s: State, s': State, x: Worker)
    requires SameTalk(s, s') && Generations(s.page, s.mem) && WorkerOk(s, x)
    ensures WorkerOk(s', x)
  {
  }

  lemma ClientOkFrame(s: State, s': State)
    requires SameTalk(s, s') && Generations(s.page, s.mem) && ClientOk(s)
    requires BeingServed(s) ==> BeingServed(s')
    ensures ClientOk(s')
  {
  }

  /** The workers of `s'` are those of `s`, but for a waiting `w` that is in one of them only. */
  ghost predicate ComesOrGoes(s: State, s': State, w: nat) {
    && s'.holder == s.holder && SameTalk(s, s')
    && (forall v :: v in s.workers && v != w ==> v in s'.workers && s'.workers[v] == s.workers[v])
    && (forall v :: v in s'.workers && v != w ==> v in s.workers)
    && (w in s.workers ==> s.workers[w].pc.Waiting?)
    && (w in s'.workers ==> s'.workers[w].pc.Waiting? && s'.workers[w].at < |s'.mem.boxes|)
  }

  lemma OthersOk(s: State, s': State, w: nat)
    requires Generations(s.page, s.mem) && WorkersOk(s) && ComesOrGoes(s, s', w)
    ensures WorkersOk(s')
    ensures forall v :: v in s'.workers ==> s'.mem.Has(s'.workers[v].at)
  {
    forall v | v in s'.workers ensures WorkerOk(s', s'.workers[v]) && s'.mem.Has(s'.workers[v].at) {
      if v != w {
        WorkerOkFrame(s, s', s.workers[v]);
      }
    }
  }

  lemma LockStays(s: State, s': State, w: nat)
    requires LockOk(s) && ComesOrGoes(s, s', w)
    requires s.holder == Some(AWorker(w)) ==> w in s.workers
    ensures LockOk(s')
    ensures NobodyResizes(s') ==> NobodyResizes(s)
    ensures BeingServed(s) ==> BeingServed(s')
  {
  }

  lemma WaiterKeepsInv(s: State, s': State, w: nat)
    requires Inv(s) && ComesOrGoes(s, s', w)
    ensures Inv(s')
  {
    LockStays(s, s', w);
    OthersOk(s, s', w);
    ClientOkFrame(s, s');
  }

  lemma JoinKeepsInv(s: State, w: nat)
    requires Inv(s) && w !in s.workers && s.mem.name.Some?
    ensures Inv(Put(s, w, Worker(Waiting, s.mem.name.value)))
  {
    WaiterKeepsInv(s, Put(s, w, Worker(Waiting, s.mem.name.value)), w);
  }

  lemma QuitKeepsInv(s: State, w: nat)
    requires Inv(s) && w in s.workers && s.workers[w].pc.Waiting?
    ensures Inv(s.(workers := s.workers - {w}))
  {
    WaiterKeepsInv(s, s.(workers := s.workers - {w}), w);
  }

  /** The invariant is inductive: whatever anybody does next, it still holds. */
  lemma ApplyKeepsInv(s: State, a: Action)
    requires Inv(s) && Apply(s, a).Some?
    ensures Inv(Apply(s, a).value)
  {
    match a
    case Call(q) => CallKeepsInv(s, q);
    case ClientStep => ClientKeepsInv(s);
    case WorkerStep(w) => WorkerKeepsInv(s, w);
    case Execute(w, o) => ExecuteKeepsInv(s, w, o);
    case Join(w) => JoinKeepsInv(s, w);
    case Quit(w) => QuitKeepsInv(s, w);
  }
}
