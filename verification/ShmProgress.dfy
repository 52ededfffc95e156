/** Nobody gets stuck: from every state of every run the call under way can still return. */
module ShmProgress {
  import opened Frames
  import opened ShmProtocol
  import opened ShmInvariant
  import opened ShmExecutions
  import ShmTheorems
  import opened Wrappers

  // ---------------------------------------------------------------------
  // The lock holder by itself
  // ---------------------------------------------------------------------

  function PhaseRank(p: Phase): nat {
    match p
    case Invalidate => 5
    case Unlink => 4
    case Create => 3
    case Label => 2
    case Restore => 1
  }

  /** A bound for the steps of a worker until it gives back the lock. */
  function WorkerRank(pc: WorkerPc): nat {
    match pc
    case Looking(n) => if n == 0 then 14 else 12
    case Reopening(_) => 13
    case Reading => 11
    case Running(_) => 10
    case Fitting(_) => 9
    case Growing(r) => 3 + PhaseRank(r.phase)
    case Replying(_) => 3
    case Finishing => 2
    case _ => 1
  }

  function ClientRank(pc: ClientPc): nat {
    match pc
    case Encoded(_) => 9
    case Resizing(r) => 3 + PhaseRank(r.phase)
    case Writing(_) => 3
    case Handing => 2
    case Checking(n) => if n == 0 then 5 else 3
    case Reconnecting(_) => 4
    case Decoding => 2
    case _ => 1
  }

  /** What a step of a worker that has the lock leads to: the lock is free, or it comes nearer to that. */
  ghost predicate WorkerNearer(s: State, w: nat, s': State) {
    && s'.client == s.client && s'.sent == s.sent && s'.got == s.got && s.replies <= s'.replies
    && (s'.holder.None?
        || (s'.holder == Some(AWorker(w)) && w in s.workers && w in s'.workers
            && WorkerRank(s'.workers[w].pc) < WorkerRank(s.workers[w].pc)))
  }

  /** It has the lock, and may rely on what the invariant says of it. */
  ghost predicate HasLock(s: State, w: nat) {
    s.WellFormed() && WorkerTurn(s, w) && s.holder == Some(AWorker(w)) && w in s.workers
  }

  lemma LookNearer(s: State, w: nat)
    requires HasLock(s, w) && s.workers[w].pc.Looking?
    ensures WorkerMove(s, w).Some? && WorkerNearer(s, w, WorkerMove(s, w).value)
  {
    assert s.mem.Flag(s.workers[w].at) in {CLIENT, INVALID, SERVER};
  }

  lemma FindNearer(s: State, w: nat)
    requires HasLock(s, w) && (s.workers[w].pc.Reopening? || s.workers[w].pc.Reading?)
    ensures WorkerMove(s, w).Some? && WorkerNearer(s, w, WorkerMove(s, w).value)
  {
    if s.workers[w].pc.Reopening? {
      WorkerReopens(s, w);
      ReopensTo(s, w, Cur(s.mem));
    } else {
      WorkerReads(s, w);
      ReadsTo(s, w, s.sent[|s.sent| - 1]);
    }
  }

  lemma FitNearer(s: State, w: nat)
    requires HasLock(s, w) && s.workers[w].pc.Fitting?
    ensures WorkerMove(s, w).Some? && WorkerNearer(s, w, WorkerMove(s, w).value)
  {
  }

  lemma GrowNearer(s: State, w: nat)
    requires HasLock(s, w) && s.workers[w].pc.Growing?
    ensures WorkerMove(s, w).Some? && WorkerNearer(s, w, WorkerMove(s, w).value)
  {
    ResizeKeeps(s.page, s.mem, s.workers[w].at, s.workers[w].pc.r);
  }

  lemma DeliverNearer(s: State, w: nat)
    requires HasLock(s, w) && (s.workers[w].pc.Replying? || s.workers[w].pc.Finishing?)
    ensures WorkerMove(s, w).Some? && WorkerNearer(s, w, WorkerMove(s, w).value)
  {
  }

  lemma EndNearer(s: State, w: nat)
    requires HasLock(s, w) && (s.workers[w].pc.Leaving? || s.workers[w].pc.Dying?)
    ensures WorkerMove(s, w).Some? && WorkerNearer(s, w, WorkerMove(s, w).value)
  {
  }

  lemma RunNearer(s: State, w: nat)
    requires HasLock(s, w) && s.workers[w].pc.Running?
    ensures ExecuteStep(s, w, Returns([])).Some? && WorkerNearer(s, w, ExecuteStep(s, w, Returns([])).value)
  {
  }

  lemma WorkerAdvances(s: State, w: nat) returns (a: Action, s': State)
    requires HasLock(s, w)
    ensures Linked(s, a, s') && WorkerNearer(s, w, s')
  {
    var pc := s.workers[w].pc;
    if pc.Running? {
      RunNearer(s, w);
      return Execute(w, Returns([])), ExecuteStep(s, w, Returns([])).value;
    } else if pc.Looking? {
      LookNearer(s, w);
    } else if pc.Reopening? || pc.Reading? {
      FindNearer(s, w);
    } else if pc.Fitting? {
      FitNearer(s, w);
    } else if pc.Growing? {
      GrowNearer(s, w);
    } else if pc.Replying? || pc.Finishing? {
      DeliverNearer(s, w);
    } else {
      EndNearer(s, w);
    }
    return WorkerStep(w), WorkerMove(s, w).value;
  }

  /** A worker with the lock can go on until it gives it back. */
  lemma {:induction false} WorkerFinishesTurn(o: State, s: State, w: nat) returns (s': State)
    requires Later(o, s) && s.holder == Some(AWorker(w)) && w in s.workers
    ensures Later(o, s') && s'.holder.None?
    ensures s'.client == s.client && s'.sent == s.sent && s'.got == s.got && s.replies <= s'.replies
    decreases WorkerRank(s.workers[w].pc)
  {
    ReachableInv(s);
    WorkerHasTurn(s, w);
    var a, t := WorkerAdvances(s, w);
    AndThen(o, s, a, t);
    if t.holder.None? {
      s' := t;
    } else {
      s' := WorkerFinishesTurn(o, t, w);
    }
  }

  /** What a step of the client with the lock leads to: the call has returned, the lock is free, or it comes nearer. */
  ghost predicate ClientNearer(s: State, s': State) {
    && s'.sent == s.sent && s'.replies == s.replies
    && (|| (s'.client.Idle? && |s'.got| == |s.got| + 1)
        || (s'.got == s.got && s'.holder.None? && s'.client.Acquiring?)
        || (s'.got == s.got && s'.holder == Some(TheClient) && !s'.client.Idle?
            && ClientRank(s'.client) < ClientRank(s.client)))
  }

  ghost predicate ClientBusy(s: State) {
    s.WellFormed() && ClientTurn(s) && s.holder == Some(TheClient) && !s.client.Idle?
  }

  lemma SendNearer(s: State)
    requires ClientBusy(s)
    requires s.client.Encoded? || s.client.Writing? || s.client.Handing? || s.client.Releasing?
    ensures ClientMove(s).Some? && ClientNearer(s, ClientMove(s).value)
  {
  }

  lemma ResizeNearer(s: State)
    requires ClientBusy(s) && s.client.Resizing?
    ensures ClientMove(s).Some? && ClientNearer(s, ClientMove(s).value)
  {
    ResizeKeeps(s.page, s.mem, s.clientMap, s.client.r);
  }

  lemma CheckNearer(s: State)
    requires ClientBusy(s) && (s.client.Checking? || s.client.Reconnecting?)
    ensures ClientMove(s).Some? && ClientNearer(s, ClientMove(s).value)
    ensures ResponseOut(s) ==> ResponseOut(ClientMove(s).value) && ClientMove(s).value.holder.Some?
  {
    if s.client.Checking? {
      assert s.mem.Flag(s.clientMap) in {CLIENT, INVALID, SERVER};
    } else {
      ClientReconnects(s);
    }
  }

  lemma DecodeNearer(s: State)
    requires ClientBusy(s) && s.client.Decoding?
    ensures ClientMove(s).Some? && ClientNearer(s, ClientMove(s).value) && ClientMove(s).value.client.Idle?
  {
    ClientDecodes(s);
  }

  lemma ClientAdvances(s: State)
    requires ClientBusy(s)
    ensures ClientMove(s).Some? && ClientNearer(s, ClientMove(s).value)
  {
    if s.client.Resizing? {
      ResizeNearer(s);
    } else if s.client.Checking? || s.client.Reconnecting? {
      CheckNearer(s);
    } else if s.client.Decoding? {
      DecodeNearer(s);
    } else {
      SendNearer(s);
    }
  }

  /** The client with the lock can go on until its call has returned, or until it waits for a worker. */
  lemma {:induction false} ClientFinishesTurn(o: State, s: State) returns (s': State)
    requires Later(o, s) && s.holder == Some(TheClient) && !s.client.Idle?
    ensures Later(o, s') && s'.sent == s.sent && s'.replies == s.replies
    ensures (s'.client.Idle? && |s'.got| == |s.got| + 1) || (s'.got == s.got && s'.holder.None? && s'.client.Acquiring?)
    decreases ClientRank(s.client)
  {
    ReachableInv(s);
    ClientHasTurn(s);
    ClientAdvances(s);
    var t := ClientMove(s).value;
    AndThen(o, s, ClientStep, t);
    if t.holder == Some(TheClient) && !t.client.Idle? {
      s' := ClientFinishesTurn(o, t);
    } else {
      s' := t;
    }
  }

  /** With the response ready it can go on to return. */
  lemma {:induction false} ClientReturns(o: State, s: State) returns (s': State)
    requires Later(o, s) && s.holder == Some(TheClient) && ResponseOut(s)
    requires s.client.Checking? || s.client.Reconnecting? || s.client.Decoding?
    ensures Later(o, s') && s'.sent == s.sent && s'.client.Idle? && |s'.got| == |s.got| + 1
    decreases ClientRank(s.client)
  {
    ReachableInv(s);
    ClientHasTurn(s);
    var t;
    if s.client.Decoding? {
      DecodeNearer(s);
      t := ClientMove(s).value;
      AndThen(o, s, ClientStep, t);
      s' := t;
    } else {
      CheckNearer(s);
      t := ClientMove(s).value;
      AndThen(o, s, ClientStep, t);
      s' := ClientReturns(o, t);
    }
  }

  // ---------------------------------------------------------------------
  // The call
  // ---------------------------------------------------------------------

  /** The client waits for the lock, and it is free. */
  ghost predicate Free(s: State) {
    s.holder.None? && s.client.Acquiring?
  }

  /** Whoever has the lock can give it back, unless the call returns. */
  lemma GetsFree(o: State, s: State) returns (s': State)
    requires Later(o, s) && |s.got| < |s.sent|
    ensures Later(o, s') && s'.sent == s.sent && s.replies <= s'.replies
    ensures (s'.client.Idle? && |s'.got| == |s.got| + 1) || (s'.got == s.got && Free(s'))
  {
    ReachableInv(s);
    CallHasClient(s);
    match s.holder
    case None => s' := s;
    case Some(TheClient) => s' := ClientFinishesTurn(o, s);
    case Some(AWorker(w)) => s' := WorkerFinishesTurn(o, s, w);
  }

  lemma CallHasClient(s: State)
    requires Inv(s) && |s.got| < |s.sent|
    ensures !s.client.Idle? && !s.client.Starting? && |s.sent| == |s.got| + 1
    ensures s.holder != Some(TheClient) ==> s.client.Acquiring?
    ensures s.holder.Some? && s.holder.value.AWorker? ==> s.holder.value.id in s.workers
  {
  }

  /** With the lock free the response is ready, or the request is still out. */
  lemma FreeWaits(s: State)
    requires Inv(s) && Free(s)
    ensures |s.got| < |s.replies| ==> ResponseOut(s)
    ensures |s.got| == |s.replies| ==> RequestOut(s, s.clientMap)
    ensures |s.mem.boxes| > 0 && s.mem.name == Some(Cur(s.mem)) && |s.got| < |s.sent|
  {
  }

  lemma AnsweredReturns(o: State, s: State) returns (s': State)
    requires Later(o, s) && Free(s) && |s.got| < |s.replies|
    ensures Later(o, s') && s'.sent == s.sent && s'.client.Idle? && |s'.got| == |s.got| + 1
  {
    ReachableInv(s);
    FreeWaits(s);
    var t := s.(holder := Some(TheClient), client := Checking(0));
    AndThen(o, s, ClientStep, t);
    s' := ClientReturns(o, t);
  }

  /** A number above all of a set. */
  lemma {:induction false} AboveAll(ids: set<nat>) returns (w: nat)
    ensures forall v :: v in ids ==> v < w
    decreases |ids|
  {
    if ids == {} {
      w := 0;
    } else {
      var v :| v in ids;
      w := AboveAll(ids - {v});
      w := if v < w then w else v + 1;
      assert ids == (ids - {v}) + {v};
    }
  }

  lemma Joins(o: State, s: State, w: nat) returns (s': State)
    requires Later(o, s) && w !in s.workers && s.mem.name.Some?
    ensures Later(o, s') && s' == Put(s, w, Worker(Waiting, s.mem.name.value))
  {
    ReachableInv(s);
    s' := Put(s, w, Worker(Waiting, s.mem.name.value));
    AndThen(o, s, Join(w), s');
  }

  lemma RunsEmpty(o: State, s: State, w: nat, q: Request, g: nat) returns (s': State)
    requires Later(o, s) && IsAt(s, w, Worker(Running(q), g)) && s.holder == Some(AWorker(w))
    ensures Later(o, s') && w in s'.workers && s'.holder == s.holder && |s'.replies| == |s.replies| + 1
    ensures s'.sent == s.sent && s'.got == s.got && s'.client == s.client
  {
    ReachableInv(s);
    s' := ExecuteStep(s, w, Returns([])).value;
    AndThen(o, s, Execute(w, Returns([])), s');
  }

  /** A worker that joins can answer a request whose command is ASCII. */
  lemma GetsAnswered(o: State, s: State) returns (s': State)
    requires Later(o, s) && Free(s) && |s.got| == |s.replies| && |s.sent| > 0 && IsAscii(s.sent[|s.sent| - 1].cmd)
    ensures Later(o, s') && Free(s') && s'.sent == s.sent && s'.got == s.got && |s'.got| < |s'.replies|
  {
    ReachableInv(s);
    FreeWaits(s);
    var w := AboveAll(s.workers.Keys);
    var q, g := s.sent[|s.sent| - 1], Cur(s.mem);
    var t := Joins(o, s, w);
    assert IsOut(t, q);
    t := GetsToRun(o, t, w, g, q);
    t := RunsEmpty(o, t, w, q, g);
    s' := WorkerFinishesTurn(o, t, w);
  }

  /** The call under way is unanswered and its command is not ASCII: workers end at it, in `decode`. */
  ghost predicate Hopeless(s: State) {
    Unanswered(s) && !IsAscii(s.sent[|s.sent| - 1].cmd)
  }

  /** The client cannot call or receive, and no worker runs the method. */
  lemma HopelessStuck(s: State)
    requires Inv(s) && Hopeless(s)
    ensures !s.client.Idle? && !s.client.Decoding?
    ensures forall w :: w in s.workers ==> !s.workers[w].pc.Running?
  {
    forall w | w in s.workers ensures !s.workers[w].pc.Running? {
      assert WorkerOk(s, s.workers[w]);
    }
  }

  lemma StaysHopeless(s: State, a: Action, s': State)
    requires Linked(s, a, s') && Hopeless(s) && !s.client.Idle? && !s.client.Decoding?
    requires forall w :: w in s.workers ==> !s.workers[w].pc.Running?
    ensures Hopeless(s') && s'.got == s.got
  {
    ShmTheorems.SilentSteps(s, a);
  }

  lemma HopelessGoesOn(s: State, a: Action, s': State)
    requires Inv(s) && Linked(s, a, s') && Hopeless(s)
    ensures Inv(s') && Hopeless(s') && s'.got == s.got
  {
    HopelessStuck(s);
    StaysHopeless(s, a, s');
    ShmTheorems.LinkKeepsInv(s, a, s');
  }

  lemma {:induction false} PathStaysHopeless(s: State, states: seq<State>, actions: seq<Action>, s': State)
    requires Inv(s) && Path(s, states, actions, s') && Hopeless(s)
    ensures Inv(s') && Hopeless(s') && s'.got == s.got
    decreases |actions|
  {
    var n := |actions|;
    if n > 0 {
      var init := actions[..n - 1];
      assert forall i :: 0 <= i < n - 1 ==> init[i] == actions[i];
      PathStaysHopeless(s, states[..n], init, states[n - 1]);
      assert Linked(states[n - 1], actions[n - 1], s');
      HopelessGoesOn(states[n - 1], actions[n - 1], s');
    }
  }

  lemma CallReturnsSomehow(s: State) returns (s': State)
    requires Reachable(s) && |s.got| < |s.sent| && !Hopeless(s)
    ensures Later(s, s') && s'.sent == s.sent && s'.client.Idle? && |s'.got| == |s.got| + 1
  {
    ReachesItself(s);
    ReachableInv(s);
    CallHasClient(s);
    s' := GetsFree(s, s);
    if !s'.client.Idle? {
      ReachableInv(s');
      if |s'.got| == |s'.replies| {
        s' := GetsAnswered(s, s');
      }
      s' := AnsweredReturns(s, s');
    }
  }

  /**
   * No deadlock and no trap: in every state of every run in which a call is
   * under way, whoever has the lock and however far they have got, the call
   * can still return, and only it; unless its command is not ASCII and no
   * worker has answered it yet, and then it never does.
   */
  lemma CallReturnsIff(s: State)
    requires Reachable(s) && |s.got| < |s.sent|
    ensures (exists s' :: Reaches(s, s') && s'.sent == s.sent && s'.client.Idle? && |s'.got| == |s.got| + 1)
       <==> |s.got| < |s.replies| || IsAscii(s.sent[|s.sent| - 1].cmd)
  {
    ReachableInv(s);
    CallHasClient(s);
    if Hopeless(s) {
      if s' :| Reaches(s, s') && |s'.got| == |s.got| + 1 {
        var states, actions :| Path(s, states, actions, s');
        PathStaysHopeless(s, states, actions, s');
        assert false;
      }
    } else {
      var s' := CallReturnsSomehow(s);
    }
  }
}
