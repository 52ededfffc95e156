/** Safety of the protocol over every run: assertions, generations, executions, sizes. */
module ShmSafety {
  import Frames
  import SharedParams
  import opened ShmProtocol
  import opened ShmInvariant
  import ShmTheorems
  import HL = HybridLock
  import opened Wrappers

  // ---------------------------------------------------------------------
  // Assertions and loops
  // ---------------------------------------------------------------------

  /**
   * No assertion of either side ever fires and neither loop reconnects twice;
   * after a reconnect the client never sees SERVER, so it never goes round
   * its loop without the lock; between calls it holds the lock and the newest
   * mailbox shows CLIENT.
   */
  lemma NoAssertionFires(states: seq<State>, actions: seq<Action>, n: nat)
    requires IsRun(states, actions) && n < |states|
    ensures
      var s := states[n];
      && !s.client.Failed?
      && (forall w :: w in s.workers ==> !s.workers[w].pc.Broken?)
      && (s.client.Checking? ==> s.client.n <= 1)
      && (s.client.Reconnecting? ==> s.client.n == 0)
      && (forall w :: w in s.workers && s.workers[w].pc.Looking? ==> s.workers[w].pc.n <= 1)
      && (forall w :: w in s.workers && s.workers[w].pc.Reopening? ==> s.workers[w].pc.n == 0)
      && s.mem.Has(s.clientMap)
      && (s.client.Checking? && s.client.n > 0 ==> s.mem.Flag(s.clientMap) == CLIENT)
      && (s.client.Idle? ==>
            && s.holder == Some(TheClient)
            && s.mem.name == Some(s.clientMap)
            && s.clientMap == |s.mem.boxes| - 1
            && s.mem.Flag(s.clientMap) == CLIENT)
  {
    ShmTheorems.RunInv(states, actions, n);
    ClientIsFine(states[n]);
    WorkersAreFine(states[n]);
  }

  lemma ClientIsFine(s: State)
    requires Inv(s)
    ensures !s.client.Failed? && s.mem.Has(s.clientMap)
    ensures s.client.Checking? ==> s.client.n <= 1
    ensures s.client.Reconnecting? ==> s.client.n == 0
    ensures s.client.Checking? && s.client.n > 0 ==> s.mem.Flag(s.clientMap) == CLIENT
    ensures s.client.Idle? ==>
      && s.holder == Some(TheClient)
      && s.mem.name == Some(s.clientMap)
      && s.clientMap == |s.mem.boxes| - 1
      && s.mem.Flag(s.clientMap) == CLIENT
  {
  }

  lemma WorkersAreFine(s: State)
    requires Inv(s)
    ensures forall w :: w in s.workers ==> !s.workers[w].pc.Broken?
    ensures forall w :: w in s.workers && s.workers[w].pc.Looking? ==> s.workers[w].pc.n <= 1
    ensures forall w :: w in s.workers && s.workers[w].pc.Reopening? ==> s.workers[w].pc.n == 0
  {
    forall w | w in s.workers
      ensures !s.workers[w].pc.Broken?
      ensures s.workers[w].pc.Looking? ==> s.workers[w].pc.n <= 1
      ensures s.workers[w].pc.Reopening? ==> s.workers[w].pc.n == 0
    {
      assert WorkerOk(s, s.workers[w]);
    }
  }

  predicate InsideLock(s: State, p: Who) {
    match p
    case TheClient => ClientHolds(s.client)
    case AWorker(w) => w in s.workers && !s.workers[w].pc.Waiting?
  }

  /** Two participants are never between taking and releasing the lock at once. */
  lemma MutualExclusion(states: seq<State>, actions: seq<Action>, n: nat, p: Who, q: Who)
    requires IsRun(states, actions) && n < |states|
    requires InsideLock(states[n], p) && InsideLock(states[n], q)
    ensures p == q
  {
    ShmTheorems.RunInv(states, actions, n);
  }

  ghost function ActorOf(a: Action): Who {
    match a
    case Call(_) => TheClient
    case ClientStep => TheClient
    case WorkerStep(w) => AWorker(w)
    case Execute(w, _) => AWorker(w)
    case Join(w) => AWorker(w)
    case Quit(w) => AWorker(w)
  }

  lemma ClientMutex(s: State)
    requires s.WellFormed() && ClientMove(s).Some?
    requires s.client.Releasing? ==> s.holder == Some(TheClient)
    ensures HL.MutexNext(s.holder, TheClient, ClientMove(s).value.holder)
  {
  }

  lemma WorkerMutex(s: State, w: nat)
    requires s.WellFormed() && w in s.workers && WorkerMove(s, w).Some?
    requires s.workers[w].pc.Leaving? || s.workers[w].pc.Dying? ==> s.holder == Some(AWorker(w))
    ensures HL.MutexNext(s.holder, AWorker(w), WorkerMove(s, w).value.holder)
  {
  }

  lemma OthersLeaveLock(s: State, a: Action, s': State)
    requires Linked(s, a, s') && !a.ClientStep? && !a.WorkerStep?
    ensures s'.holder == s.holder
  {
  }

  /** The protocol uses its lock as the mutex that HybridLock implements: released by its holder only. */
  lemma LockIsMutex(s: State, a: Action, s': State)
    requires Inv(s) && Linked(s, a, s')
    ensures HL.MutexNext(s.holder, ActorOf(a), s'.holder)
  {
    match a
    case ClientStep => ClientMutex(s);
    case WorkerStep(w) => WorkerMutex(s, w);
    case _ => OthersLeaveLock(s, a, s');
  }

  // ---------------------------------------------------------------------
  // Generations
  // ---------------------------------------------------------------------

  /** The mailboxes before the newest one are the same, and there are no fewer. */
  ghost predicate Extends(m: Memory, m': Memory)
    requires |m.boxes| > 0
  {
    && |m.boxes| <= |m'.boxes|
    && forall g :: 0 <= g < Cur(m) ==> m'.boxes[g] == m.boxes[g]
  }

  lemma ResizeExtends(page: nat, m: Memory, g: nat, r: Resize)
    requires Generations(page, m) && ResizeOk(page, m, g, r)
    ensures
      match ResizeStep(page, m, g, r)
      case More(m', _, _) => Extends(m, m')
      case Done(m', _) => Extends(m, m')
      case AssertionFailed => true
  {
  }

  /** Outside a resize the client writes only while it maps the newest mailbox. */
  lemma ClientWritesNewest(s: State)
    requires s.WellFormed() && |s.mem.boxes| > 0 && ClientMove(s).Some? && !s.client.Resizing?
    requires s.client.Writing? || s.client.Handing? ==> s.clientMap == Cur(s.mem)
    ensures Extends(s.mem, ClientMove(s).value.mem)
  {
  }

  lemma ClientExtends(s: State)
    requires Inv(s) && ClientMove(s).Some?
    ensures Extends(s.mem, ClientMove(s).value.mem)
  {
    if s.client.Resizing? {
      ResizeExtends(s.page, s.mem, s.clientMap, s.client.r);
    } else {
      ClientWritesNewest(s);
    }
  }

  lemma WorkerWritesNewest(s: State, w: nat)
    requires s.WellFormed() && |s.mem.boxes| > 0 && w in s.workers && WorkerMove(s, w).Some?
    requires !s.workers[w].pc.Growing?
    requires s.workers[w].pc.Replying? || s.workers[w].pc.Finishing? ==> s.workers[w].at == Cur(s.mem)
    ensures Extends(s.mem, WorkerMove(s, w).value.mem)
  {
  }

  lemma WorkerExtends(s: State, w: nat)
    requires Inv(s) && w in s.workers && WorkerMove(s, w).Some?
    ensures Extends(s.mem, WorkerMove(s, w).value.mem)
  {
    assert WorkerOk(s, s.workers[w]);
    if s.workers[w].pc.Growing? {
      ResizeExtends(s.page, s.mem, s.workers[w].at, s.workers[w].pc.r);
    } else {
      WorkerWritesNewest(s, w);
    }
  }

  /** Only steps of the client and of workers touch mailboxes. */
  lemma OthersLeaveMemory(s: State, a: Action, s': State)
    requires Linked(s, a, s') && !a.ClientStep? && !a.WorkerStep?
    ensures s'.mem == s.mem
  {
  }

  lemma StepExtends(s: State, a: Action, s': State)
    requires Inv(s) && Linked(s, a, s')
    ensures Extends(s.mem, s'.mem)
  {
    match a
    case ClientStep => ClientExtends(s);
    case WorkerStep(w) => WorkerExtends(s, w);
    case _ => OthersLeaveMemory(s, a, s');
  }

  lemma RunGenerations(states: seq<State>, actions: seq<Action>, n: nat)
    requires IsRun(states, actions) && n < |states|
    ensures Generations(states[n].page, states[n].mem)
    ensures n + 1 < |states| ==> Extends(states[n].mem, states[n + 1].mem)
  {
    ShmTheorems.RunInv(states, actions, n);
    if n + 1 < |states| {
      assert Linked(states[n], actions[n], states[n + 1]);
      StepExtends(states[n], actions[n], states[n + 1]);
    }
  }

  lemma ExtendsTransitive(a: Memory, b: Memory, c: Memory)
    requires |a.boxes| > 0 && Extends(a, b) && Extends(b, c)
    ensures Extends(a, c)
  {
  }

  lemma {:induction false} RunExtends(states: seq<State>, actions: seq<Action>, i: nat, j: nat)
    requires IsRun(states, actions) && i <= j < |states|
    ensures |states[i].mem.boxes| > 0
    ensures Extends(states[i].mem, states[j].mem)
    decreases j
  {
    RunGenerations(states, actions, i);
    if i < j {
      RunExtends(states, actions, i, j - 1);
      RunGenerations(states, actions, j - 1);
      ExtendsTransitive(states[i].mem, states[j - 1].mem, states[j].mem);
    }
  }

  /**
   * Superseded mailboxes are INVALID for good: from any state of a run to any
   * later one nobody writes a byte of them, and sizes at least double from
   * one generation to the next.
   */
  lemma SupersededStay(states: seq<State>, actions: seq<Action>, i: nat, j: nat)
    requires IsRun(states, actions) && i <= j < |states|
    ensures |states[i].mem.boxes| > 0
    ensures Extends(states[i].mem, states[j].mem)
    ensures forall g :: 0 <= g < Cur(states[i].mem) ==>
      |states[j].mem.boxes[g]| > 0 && states[j].mem.boxes[g][0] == INVALID
    ensures forall g, h :: 0 <= g < h < |states[j].mem.boxes| ==>
      2 * |states[j].mem.boxes[g]| <= |states[j].mem.boxes[h]|
  {
    RunExtends(states, actions, i, j);
    RunGenerations(states, actions, j);
  }

  /** Unless the lock holder is in the middle of a resize, the name stands for the newest mailbox, in use. */
  lemma NamedMailboxInUse(states: seq<State>, actions: seq<Action>, n: nat)
    requires IsRun(states, actions) && n < |states| && NobodyResizes(states[n])
    ensures
      var m := states[n].mem;
      && |m.boxes| > 0 && m.name == Some(|m.boxes| - 1)
      && |m.boxes[|m.boxes| - 1]| > 0
      && m.boxes[|m.boxes| - 1][0] in {CLIENT, SERVER}
  {
    ShmTheorems.RunInv(states, actions, n);
  }

  // ---------------------------------------------------------------------
  // How often the mailbox is replaced
  // ---------------------------------------------------------------------

  function RequestLength(q: Frames.Request): nat {
    Frames.REQUEST_HEADER + |q.cmd| + |q.args|
  }

  function ReplyLength(r: Reply): nat {
    Frames.RESPONSE_HEADER + |r.resp.data|
  }

  /** A request or a response of the run had a frame of `n` bytes. */
  ghost predicate SomeFrame(s: State, n: nat) {
    || (exists i :: 0 <= i < |s.sent| && RequestLength(s.sent[i]) == n)
    || (exists i :: 0 <= i < |s.replies| && ReplyLength(s.replies[i]) == n)
  }

  /** The peak is the length of the longest frame so far. */
  ghost predicate PeakOk(s: State) {
    && (forall i :: 0 <= i < |s.sent| ==> RequestLength(s.sent[i]) <= s.peak)
    && (forall i :: 0 <= i < |s.replies| ==> ReplyLength(s.replies[i]) <= s.peak)
    && (s.peak == 0 || SomeFrame(s, s.peak))
  }

  /** The newest mailbox, unless it is the first one, is smaller than four times the peak. */
  ghost predicate SizeOk(m: Memory, peak: nat) {
    && |m.boxes| > 0
    && (|m.boxes| > 1 ==> |m.boxes[|m.boxes| - 1]| < 4 * peak)
  }

  lemma FramesStay(s: State, s': State, n: nat)
    requires SomeFrame(s, n) && s.sent <= s'.sent && s.replies <= s'.replies
    ensures SomeFrame(s', n)
  {
    if i :| 0 <= i < |s.sent| && RequestLength(s.sent[i]) == n {
      assert s'.sent[i] == s.sent[i];
    } else {
      var i :| 0 <= i < |s.replies| && ReplyLength(s.replies[i]) == n;
      assert s'.replies[i] == s.replies[i];
    }
  }

  lemma CallPeak(s: State, q: Frames.Request)
    requires PeakOk(s) && CallStep(s, q).Some?
    ensures PeakOk(CallStep(s, q).value) && s.peak <= CallStep(s, q).value.peak
  {
    var s' := CallStep(s, q).value;
    if q.Valid() {
      assert s'.sent[|s.sent|] == q;
      if s'.peak != s.peak {
        assert SomeFrame(s', RequestLength(q));
      } else if s.peak > 0 {
        FramesStay(s, s', s.peak);
      }
    }
  }

  lemma ExecutePeak(s: State, w: nat, o: Outcome)
    requires PeakOk(s) && w in s.workers && ExecuteStep(s, w, o).Some?
    ensures PeakOk(ExecuteStep(s, w, o).value) && s.peak <= ExecuteStep(s, w, o).value.peak
  {
    var s' := ExecuteStep(s, w, o).value;
    if !o.Unspeakable? {
      var r := s'.replies[|s.replies|];
      if s'.peak != s.peak {
        assert SomeFrame(s', ReplyLength(r));
      } else if s.peak > 0 {
        FramesStay(s, s', s.peak);
      }
    }
  }

  lemma StepPeak(s: State, a: Action, s': State)
    requires Linked(s, a, s') && PeakOk(s)
    ensures PeakOk(s') && s.peak <= s'.peak
  {
    if a.Call? {
      CallPeak(s, a.req);
    } else if a.Execute? {
      ExecutePeak(s, a.w, a.outcome);
    } else {
      OtherPeak(s, a, s');
    }
  }

  lemma OtherPeak(s: State, a: Action, s': State)
    requires Linked(s, a, s') && !a.Call? && !a.Execute? && PeakOk(s)
    ensures PeakOk(s') && s'.peak == s.peak
  {
    if !(a.ClientStep? && s.client.Decoding?) {
      ShmTheorems.SilentSteps(s, a);
    }
    if s.peak > 0 {
      FramesStay(s, s', s.peak);
    }
  }

  ghost predicate SizeKept(p: Progress, peak: nat) {
    match p
    case More(m', _, r') => SizeOk(m', peak)
    case Done(m', _) => SizeOk(m', peak)
    case AssertionFailed => true
  }

  lemma ResizeSize(page: nat, m: Memory, g: nat, r: Resize, peak: nat)
    requires Generations(page, m) && ResizeOk(page, m, g, r) && |r.frame| <= peak && SizeOk(m, peak)
    ensures SizeKept(ResizeStep(page, m, g, r), peak)
  {
    if r.phase.Create? {
      SharedParams.ResizeFits(page, m.Len(g), |r.frame|);
    }
  }

  /** The same mailboxes but for what they hold. */
  ghost predicate SameSizes(m: Memory, m': Memory) {
    && |m.boxes| == |m'.boxes|
    && forall g :: 0 <= g < |m.boxes| ==> |m'.boxes[g]| == |m.boxes[g]|
  }

  lemma ClientSameSizes(s: State)
    requires s.WellFormed() && ClientMove(s).Some? && !s.client.Resizing?
    ensures SameSizes(s.mem, ClientMove(s).value.mem)
  {
  }

  lemma WorkerSameSizes(s: State, w: nat)
    requires s.WellFormed() && w in s.workers && WorkerMove(s, w).Some? && !s.workers[w].pc.Growing?
    ensures SameSizes(s.mem, WorkerMove(s, w).value.mem)
  {
  }

  lemma ClientSize(s: State)
    requires Inv(s) && ClientMove(s).Some? && PeakOk(s) && SizeOk(s.mem, s.peak)
    ensures SizeOk(ClientMove(s).value.mem, s.peak)
  {
    if s.client.Resizing? {
      ResizeSize(s.page, s.mem, s.clientMap, s.client.r, s.peak);
    } else {
      ClientSameSizes(s);
    }
  }

  lemma WorkerSize(s: State, w: nat)
    requires Inv(s) && w in s.workers && WorkerMove(s, w).Some? && PeakOk(s) && SizeOk(s.mem, s.peak)
    ensures SizeOk(WorkerMove(s, w).value.mem, s.peak)
  {
    assert WorkerOk(s, s.workers[w]);
    if s.workers[w].pc.Growing? {
      ResizeSize(s.page, s.mem, s.workers[w].at, s.workers[w].pc.r, s.peak);
    } else {
      WorkerSameSizes(s, w);
    }
  }

  lemma StepSize(s: State, a: Action, s': State)
    requires Inv(s) && Linked(s, a, s') && PeakOk(s) && SizeOk(s.mem, s.peak)
    ensures SizeOk(s'.mem, s.peak)
  {
    match a
    case ClientStep => ClientSize(s);
    case WorkerStep(w) => WorkerSize(s, w);
    case _ => OthersLeaveMemory(s, a, s');
  }

  /** The peak is right, and bounds the newest mailbox. */
  ghost predicate Sized(s: State) {
    PeakOk(s) && SizeOk(s.mem, s.peak)
  }

  lemma StepSized(s: State, a: Action, s': State)
    requires Inv(s) && Linked(s, a, s') && Sized(s)
    ensures Sized(s')
  {
    StepPeak(s, a, s');
    StepSize(s, a, s');
  }

  lemma InitSized(page: nat)
    requires page > 0
    ensures Sized(Init(page))
  {
  }

  lemma NextSized(states: seq<State>, actions: seq<Action>, n: nat)
    requires IsRun(states, actions) && n < |actions| && Sized(states[n])
    ensures Sized(states[n + 1])
  {
    ShmTheorems.RunInv(states, actions, n);
    var s, a, s' := states[n], actions[n], states[n + 1];
    assert Linked(s, a, s');
    StepSized(s, a, s');
  }

  lemma {:induction false} RunSized(states: seq<State>, actions: seq<Action>, n: nat)
    requires IsRun(states, actions) && n < |states|
    ensures Sized(states[n])
  {
    if n == 0 {
      InitSized(states[0].page);
    } else {
      RunSized(states, actions, n - 1);
      NextSized(states, actions, n - 1);
    }
  }

  /** After a resize the mailbox is smaller than four times some frame that was sent or answered. */
  lemma RunSize(states: seq<State>, actions: seq<Action>, n: nat) returns (f: nat)
    requires IsRun(states, actions) && n < |states|
    ensures
      var s := states[n];
      && |s.mem.boxes| > 0
      && (|s.mem.boxes| > 1 ==> SomeFrame(s, f) && |s.mem.boxes[|s.mem.boxes| - 1]| < 4 * f)
  {
    RunSized(states, actions, n);
    f := states[n].peak;
  }

  /**
   * A run that has replaced the mailbox `k > 0` times has had a frame of
   * more than page * 2^k / 4 bytes: resizes are logarithmic in the longest frame.
   */
  lemma ResizesAreLogarithmic(states: seq<State>, actions: seq<Action>, n: nat) returns (f: nat)
    requires IsRun(states, actions) && n < |states|
    ensures
      var s := states[n];
      && |s.mem.boxes| > 0
      && (|s.mem.boxes| > 1 ==> SomeFrame(s, f) && s.page * SharedParams.Pow2(|s.mem.boxes| - 1) < 4 * f)
  {
    f := RunSize(states, actions, n);
    RunGenerations(states, actions, n);
    var s := states[n];
    var sizes := seq(|s.mem.boxes|, i requires 0 <= i < |s.mem.boxes| => |s.mem.boxes[i]|);
    FirstIsAPage(s.page, sizes[0]);
    SharedParams.ChainDoubles(s.page, sizes);
  }

  lemma FirstIsAPage(page: nat, size: nat)
    requires SharedParams.IsMapSize(page, size)
    ensures page <= size
  {
    var k :| SharedParams.IsStep(page, size, k);
    SharedParams.Scale(page, 1, SharedParams.Pow2(k));
  }
}
