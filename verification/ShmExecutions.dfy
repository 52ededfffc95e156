/** How often the service's method runs for a call, over every run of the protocol. */
module ShmExecutions {
  import opened Frames
  import SharedParams
  import opened ShmProtocol
  import opened ShmInvariant
  import ShmTheorems
  import opened Wrappers

  // ---------------------------------------------------------------------
  // Counting executions
  // ---------------------------------------------------------------------

  /** A worker runs the method for call `c`. */
  ghost predicate Executes(s: State, a: Action, c: nat) {
    a.Execute? && |s.got| == c
  }

  /** It does, and ends with an error that cannot be packed. */
  ghost predicate Loses(s: State, a: Action, c: nat) {
    Executes(s, a, c) && a.outcome.Unspeakable?
  }

  /** Executions for call `c` among the first `n` actions: all of them, or those that are lost. */
  ghost function Executions(states: seq<State>, actions: seq<Action>, n: nat, c: nat): nat
    requires |states| == |actions| + 1 && n <= |actions|
  {
    if n == 0 then 0
    else Executions(states, actions, n - 1, c) + if Executes(states[n - 1], actions[n - 1], c) then 1 else 0
  }

  ghost function Losses(states: seq<State>, actions: seq<Action>, n: nat, c: nat): nat
    requires |states| == |actions| + 1 && n <= |actions|
  {
    if n == 0 then 0
    else Losses(states, actions, n - 1, c) + if Loses(states[n - 1], actions[n - 1], c) then 1 else 0
  }

  lemma {:induction false} LossesIff(states: seq<State>, actions: seq<Action>, n: nat, c: nat)
    requires |states| == |actions| + 1 && n <= |actions|
    ensures Losses(states, actions, n, c) > 0 <==> exists j :: 0 <= j < n && Loses(states[j], actions[j], c)
  {
    if n > 0 {
      LossesIff(states, actions, n - 1, c);
    }
  }

  /** `n` executions and `l` losses balance: an answered call has one execution more than it has losses. */
  ghost predicate Balanced(s: State, c: nat, n: nat, l: nat) {
    n == l + (if c < |s.replies| then 1 else 0) && (|s.sent| <= c ==> n == 0)
  }

  lemma ExecuteAdds(s: State, a: Action, s': State)
    requires Inv(s) && Linked(s, a, s') && a.Execute?
    ensures Unanswered(s) && s'.sent == s.sent && s'.got == s.got
    ensures |s'.replies| == |s.replies| + if a.outcome.Unspeakable? then 0 else 1
    ensures s'.runs == s.runs + [Run(|s.got|, a.w, !a.outcome.Unspeakable?)]
  {
    assert WorkerOk(s, s.workers[a.w]);
  }

  lemma OthersAddNothing(s: State, a: Action, s': State)
    requires Inv(s) && Linked(s, a, s') && !a.Execute?
    ensures s'.replies == s.replies && s'.runs == s.runs && s.sent <= s'.sent
  {
    if !a.Call? && !(a.ClientStep? && s.client.Decoding?) {
      ShmTheorems.SilentSteps(s, a);
    }
  }

  lemma StepBalances(s: State, a: Action, s': State, c: nat, n: nat, l: nat)
    requires Inv(s) && Linked(s, a, s') && Balanced(s, c, n, l)
    ensures Balanced(s', c, n + (if Executes(s, a, c) then 1 else 0), l + (if Loses(s, a, c) then 1 else 0))
  {
    if a.Execute? {
      ExecuteAdds(s, a, s');
    } else {
      OthersAddNothing(s, a, s');
    }
  }

  lemma {:induction false} RunBalanced(states: seq<State>, actions: seq<Action>, n: nat, c: nat)
    requires IsRun(states, actions) && n <= |actions|
    ensures Balanced(states[n], c, Executions(states, actions, n, c), Losses(states, actions, n, c))
  {
    if n > 0 {
      RunBalanced(states, actions, n - 1, c);
      RunBalances(states, actions, n - 1, c,
                  Executions(states, actions, n - 1, c), Losses(states, actions, n - 1, c));
    }
  }

  lemma RunBalances(states: seq<State>, actions: seq<Action>, i: nat, c: nat, n: nat, l: nat)
    requires IsRun(states, actions) && i < |actions| && Balanced(states[i], c, n, l)
    ensures Balanced(states[i + 1], c, n + (if Executes(states[i], actions[i], c) then 1 else 0),
                     l + (if Loses(states[i], actions[i], c) then 1 else 0))
  {
    ShmTheorems.RunInv(states, actions, i);
    assert Linked(states[i], actions[i], states[i + 1]);
    StepBalances(states[i], actions[i], states[i + 1], c, n, l);
  }

  /**
   * The method runs once for every completed call, and once more for each
   * time it ended in an error that cannot be packed. So it runs exactly once
   * if and only if that never happened.
   */
  lemma ExactlyOnce(states: seq<State>, actions: seq<Action>, n: nat, c: nat)
    requires IsRun(states, actions) && n <= |actions|
    requires c < |states[n].got|
    ensures Executions(states, actions, n, c) == 1 + Losses(states, actions, n, c)
    ensures Executions(states, actions, n, c) == 1
       <==> !exists j :: 0 <= j < n && Loses(states[j], actions[j], c)
  {
    RunBalanced(states, actions, n, c);
    ShmTheorems.RunInv(states, actions, n);
    LossesIff(states, actions, n, c);
  }

  // ---------------------------------------------------------------------
  // What a call returns
  // ---------------------------------------------------------------------

  /** What travels for an outcome: '+' and the value, or '-' and the error behind another '-'. */
  predicate SaysWhat(o: Outcome, p: Response) {
    match o
    case Returns(v) => p == Response(true, v)
    case Raises(t) => p == Response(false, [MINUS] + t)
    case Unspeakable => false
  }

  /** A worker that read the `c`-th request runs the method for it, and what that comes to is packed as `p`. */
  ghost predicate Computes(s: State, a: Action, c: nat, q: Request, p: Response) {
    && Executes(s, a, c)
    && a.w in s.workers && s.workers[a.w].pc == Running(q)
    && SaysWhat(a.outcome, p)
  }

  lemma ExecuteComputes(s: State, a: Action, s': State)
    requires Inv(s) && Linked(s, a, s') && a.Execute?
    ensures Unanswered(s) && s'.sent == s.sent && s.replies <= s'.replies
    ensures |s'.replies| > |s.replies| ==>
      |s'.replies| == |s.got| + 1 && Computes(s, a, |s.got|, s.sent[|s.got|], s'.replies[|s.got|].resp)
  {
    assert WorkerOk(s, s.workers[a.w]);
  }

  /** Requests and replies only grow, and replies by what is computed for the request that is out. */
  ghost predicate Extends(s: State, a: Action, s': State) {
    && s.sent <= s'.sent && s.replies <= s'.replies
    && (|s'.replies| > |s.replies| ==>
          && |s'.replies| == |s.got| + 1 && |s.got| < |s.sent|
          && Computes(s, a, |s.got|, s.sent[|s.got|], s'.replies[|s.got|].resp))
  }

  lemma RunExtends(states: seq<State>, actions: seq<Action>, i: nat)
    requires IsRun(states, actions) && i < |actions|
    ensures Extends(states[i], actions[i], states[i + 1])
  {
    var s, a, s' := states[i], actions[i], states[i + 1];
    ShmTheorems.RunInv(states, actions, i);
    assert Linked(s, a, s');
    if a.Execute? {
      ExecuteComputes(s, a, s');
    } else {
      OthersAddNothing(s, a, s');
    }
  }

  /** Every response was computed by some execution, for the request it is filed under. */
  lemma {:induction false} ReplyIsComputed(states: seq<State>, actions: seq<Action>, n: nat, c: nat) returns (j: nat)
    requires IsRun(states, actions) && n <= |actions|
    requires c < |states[n].replies|
    ensures c < |states[n].sent| && j < n
    ensures Computes(states[j], actions[j], c, states[n].sent[c], states[n].replies[c].resp)
  {
    if n > 0 {
      RunExtends(states, actions, n - 1);
      if c < |states[n - 1].replies| {
        j := ReplyIsComputed(states, actions, n - 1, c);
      } else {
        j := n - 1;
      }
    }
  }

  lemma {:induction false} RepliesGrow(states: seq<State>, actions: seq<Action>, i: nat, j: nat)
    requires IsRun(states, actions) && i <= j <= |actions|
    ensures |states[i].replies| <= |states[j].replies|
    decreases j
  {
    if i < j {
      RepliesGrow(states, actions, i, j - 1);
      RunExtends(states, actions, j - 1);
    }
  }

  /** Of two executions for a call the earlier is lost. */
  lemma EarlierIsLost(states: seq<State>, actions: seq<Action>, i: nat, j: nat, c: nat)
    requires IsRun(states, actions) && i < j < |actions|
    requires Executes(states[i], actions[i], c) && Executes(states[j], actions[j], c)
    ensures actions[i].outcome.Unspeakable?
  {
    ShmTheorems.RunInv(states, actions, i);
    ShmTheorems.RunInv(states, actions, j);
    assert Linked(states[i], actions[i], states[i + 1]) && Linked(states[j], actions[j], states[j + 1]);
    ExecuteAdds(states[i], actions[i], states[i + 1]);
    ExecuteAdds(states[j], actions[j], states[j + 1]);
    RepliesGrow(states, actions, i + 1, j);
  }

  /**
   * Every completed call of every run: there is one execution of the method,
   * on the request that was sent, whose outcome the caller got. A value that
   * it returned is received as such, and an error that it raised as an error
   * behind an extra '-'. All other executions for the call, if any, came
   * before and are lost.
   */
  lemma CallOutcome(states: seq<State>, actions: seq<Action>, n: nat, c: nat) returns (j: nat)
    requires IsRun(states, actions) && n <= |actions|
    requires c < |states[n].got|
    ensures c < |states[n].sent| && j < n
    ensures Executes(states[j], actions[j], c)
    ensures actions[j].w in states[j].workers && states[j].workers[actions[j].w].pc == Running(states[n].sent[c])
    ensures match actions[j].outcome
            case Returns(v) => states[n].got[c] == Response(true, v)
            case Raises(t) => states[n].got[c] == Response(false, [MINUS] + t)
            case Unspeakable => false
    ensures states[n].got[c].ok <==> actions[j].outcome.Returns?
    ensures forall i :: 0 <= i < n && i != j && Executes(states[i], actions[i], c) ==>
      i < j && actions[i].outcome.Unspeakable?
  {
    ShmTheorems.RunInv(states, actions, n);
    j := ReplyIsComputed(states, actions, n, c);
    forall i | 0 <= i < n && i != j && Executes(states[i], actions[i], c)
      ensures i < j && actions[i].outcome.Unspeakable?
    {
      if i < j {
        EarlierIsLost(states, actions, i, j, c);
      } else {
        EarlierIsLost(states, actions, j, i, c);
      }
    }
  }

  // ---------------------------------------------------------------------
  // The recorded runs
  // ---------------------------------------------------------------------

  /** Runs of the method recorded for call `c`. */
  function Recorded(runs: seq<Run>, c: nat): nat {
    if runs == [] then 0
    else Recorded(runs[..|runs| - 1], c) + if runs[|runs| - 1].call == c then 1 else 0
  }

  lemma StepRecords(s: State, a: Action, s': State, c: nat)
    requires Inv(s) && Linked(s, a, s')
    ensures Recorded(s'.runs, c) == Recorded(s.runs, c) + if Executes(s, a, c) then 1 else 0
  {
    if a.Execute? {
      ExecuteAdds(s, a, s');
      assert s'.runs[..|s'.runs| - 1] == s.runs;
    } else {
      OthersAddNothing(s, a, s');
    }
  }

  lemma {:induction false} RunRecorded(states: seq<State>, actions: seq<Action>, n: nat, c: nat)
    requires IsRun(states, actions) && n <= |actions|
    ensures Executions(states, actions, n, c) == Recorded(states[n].runs, c)
  {
    if n > 0 {
      RunRecorded(states, actions, n - 1, c);
      RunRecords(states, actions, n - 1, c);
    }
  }

  lemma RunRecords(states: seq<State>, actions: seq<Action>, i: nat, c: nat)
    requires IsRun(states, actions) && i < |actions|
    ensures Recorded(states[i + 1].runs, c)
         == Recorded(states[i].runs, c) + if Executes(states[i], actions[i], c) then 1 else 0
  {
    ShmTheorems.RunInv(states, actions, i);
    assert Linked(states[i], actions[i], states[i + 1]);
    StepRecords(states[i], actions[i], states[i + 1], c);
  }

  // ---------------------------------------------------------------------
  // Going on from a state of a run
  // ---------------------------------------------------------------------

  /** States linked by actions, from `s` to `s'`. */
  ghost predicate Path(s: State, states: seq<State>, actions: seq<Action>, s': State) {
    && |states| == |actions| + 1
    && states[0] == s && states[|actions|] == s'
    && forall i {:trigger actions[i]} :: 0 <= i < |actions| ==> Linked(states[i], actions[i], states[i + 1])
  }

  ghost predicate Reaches(s: State, s': State) {
    exists states, actions :: Path(s, states, actions, s')
  }

  /** Some run gets there. */
  ghost predicate Reachable(s: State) {
    exists page: nat :: page > 2 && Reaches(Init(page), s)
  }

  lemma ReachesItself(s: State)
    ensures Reaches(s, s)
  {
    assert Path(s, [s], [], s);
  }

  lemma InitReachable(page: nat)
    requires page > 2
    ensures Reachable(Init(page))
  {
    ReachesItself(Init(page));
  }

  lemma {:induction false} PathInv(s: State, states: seq<State>, actions: seq<Action>, s': State)
    requires Inv(s) && Path(s, states, actions, s')
    ensures Inv(s')
    decreases |actions|
  {
    var n := |actions|;
    if n > 0 {
      var init := actions[..n - 1];
      assert forall i :: 0 <= i < n - 1 ==> init[i] == actions[i];
      PathInv(s, states[..n], init, states[n - 1]);
      assert Linked(states[n - 1], actions[n - 1], s');
      ShmTheorems.LinkKeepsInv(states[n - 1], actions[n - 1], s');
    }
  }

  lemma ReachableInv(s: State)
    requires Reachable(s)
    ensures Inv(s)
  {
    var page: nat :| page > 2 && Reaches(Init(page), s);
    var states, actions :| Path(Init(page), states, actions, s);
    InitInv(page);
    PathInv(Init(page), states, actions, s);
  }

  lemma ExtendPath(s: State, states: seq<State>, actions: seq<Action>, t: State, a: Action, u: State)
    requires Path(s, states, actions, t) && Linked(t, a, u)
    ensures Path(s, states + [u], actions + [a], u)
  {
    var all, acts := states + [u], actions + [a];
    forall i | 0 <= i < |acts| ensures Linked(all[i], acts[i], all[i + 1]) {
      if i < |actions| {
        assert Linked(states[i], actions[i], states[i + 1]);
      }
    }
  }

  lemma ReachesNext(s: State, t: State, a: Action, u: State)
    requires Reaches(s, t) && Linked(t, a, u)
    ensures Reaches(s, u)
  {
    var states, actions :| Path(s, states, actions, t);
    ExtendPath(s, states, actions, t, a, u);
  }

  /** One can go on from `o`, a state of some run, to `s`. */
  ghost predicate Later(o: State, s: State) {
    Reachable(o) && Reaches(o, s) && Reachable(s)
  }

  /** One more action. */
  lemma AndThen(o: State, t: State, a: Action, u: State)
    requires Later(o, t) && Linked(t, a, u)
    ensures Later(o, u)
  {
    var page: nat :| page > 2 && Reaches(Init(page), t);
    ReachesNext(Init(page), t, a, u);
    ReachesNext(o, t, a, u);
  }

  // ---------------------------------------------------------------------
  // A worker comes to run the request
  // ---------------------------------------------------------------------

  /** The request in the newest mailbox. */
  ghost predicate IsOut(s: State, q: Request) {
    |s.mem.boxes| > 0 && RequestOut(s, Cur(s.mem)) && s.sent[|s.sent| - 1] == q
  }

  lemma PutTwice(s: State, v: nat, x: Worker, y: Worker)
    ensures Put(Put(s, v, x), v, y) == Put(s, v, y)
  {
    assert s.workers[v := x][v := y] == s.workers[v := y];
  }

  /** Worker `v` of `s` is `x` and has the lock, or waits for it. */
  predicate IsAt(s: State, v: nat, x: Worker) {
    v in s.workers && s.workers[v] == x
  }

  lemma TakesLock(o: State, s: State, v: nat, g: nat) returns (s': State)
    requires Later(o, s) && IsAt(s, v, Worker(Waiting, g)) && s.holder.None?
    ensures Later(o, s') && s' == Put(s, v, Worker(Looking(0), g)).(holder := Some(AWorker(v)))
  {
    ReachableInv(s);
    s' := Put(s, v, Worker(Looking(0), g)).(holder := Some(AWorker(v)));
    AndThen(o, s, WorkerStep(v), s');
  }

  lemma SeesInvalid(o: State, s: State, v: nat, g: nat) returns (s': State)
    requires Later(o, s) && IsAt(s, v, Worker(Looking(0), g)) && g + 1 < |s.mem.boxes|
    ensures Later(o, s') && s' == Put(s, v, Worker(Reopening(0), g))
  {
    ReachableInv(s);
    assert s.mem.Flag(g) == INVALID;
    s' := Put(s, v, Worker(Reopening(0), g));
    AndThen(o, s, WorkerStep(v), s');
  }

  lemma OpensNewest(o: State, s: State, v: nat, g: nat) returns (s': State)
    requires Later(o, s) && IsAt(s, v, Worker(Reopening(0), g))
    ensures |s.mem.boxes| > 0 && Later(o, s') && s' == Put(s, v, Worker(Looking(1), Cur(s.mem)))
  {
    ReachableInv(s);
    WorkerHasTurn(s, v);
    WorkerReopens(s, v);
    ReopensTo(s, v, Cur(s.mem));
    s' := Put(s, v, Worker(Looking(1), Cur(s.mem)));
    AndThen(o, s, WorkerStep(v), s');
  }

  /** A worker with the lock that maps a superseded mailbox opens the newest one. */
  lemma Reopens(o: State, s: State, v: nat, g: nat) returns (s': State, n: nat)
    requires Later(o, s) && IsAt(s, v, Worker(Looking(0), g)) && |s.mem.boxes| > 0 && g <= Cur(s.mem)
    ensures Later(o, s') && s' == Put(s, v, Worker(Looking(n), Cur(s.mem)))
  {
    if g < Cur(s.mem) {
      var t := SeesInvalid(o, s, v, g);
      s' := OpensNewest(o, t, v, g);
      PutTwice(s, v, Worker(Reopening(0), g), Worker(Looking(1), Cur(s.mem)));
      n := 1;
    } else {
      s', n := s, 0;
      assert s.workers[v := s.workers[v]] == s.workers;
    }
  }

  lemma SeesRequest(o: State, s: State, v: nat, n: nat, q: Request) returns (s': State)
    requires Later(o, s) && IsOut(s, q) && IsAt(s, v, Worker(Looking(n), Cur(s.mem)))
    ensures Later(o, s') && s' == Put(s, v, Worker(Reading, Cur(s.mem)))
  {
    ReachableInv(s);
    s' := Put(s, v, Worker(Reading, Cur(s.mem)));
    AndThen(o, s, WorkerStep(v), s');
  }

  lemma Reads(o: State, s: State, v: nat, q: Request) returns (s': State)
    requires Later(o, s) && IsOut(s, q) && IsAscii(q.cmd) && IsAt(s, v, Worker(Reading, Cur(s.mem)))
    ensures Later(o, s') && s' == Put(s, v, Worker(Running(q), Cur(s.mem)))
  {
    ReachableInv(s);
    WorkerHasTurn(s, v);
    WorkerReads(s, v);
    ReadsTo(s, v, q);
    s' := Put(s, v, Worker(Running(q), Cur(s.mem)));
    AndThen(o, s, WorkerStep(v), s');
  }

  /** A waiting worker gets to run the request, whichever mailbox it maps. */
  lemma GetsToRun(o: State, s: State, v: nat, g: nat, q: Request) returns (s': State)
    requires Later(o, s) && IsOut(s, q) && IsAscii(q.cmd) && s.holder.None?
    requires IsAt(s, v, Worker(Waiting, g)) && g <= Cur(s.mem)
    ensures Later(o, s') && s' == Put(s, v, Worker(Running(q), Cur(s.mem))).(holder := Some(AWorker(v)))
  {
    var t := TakesLock(o, s, v, g);
    var u, n := Reopens(o, t, v, g);
    var r := SeesRequest(o, u, v, n, q);
    s' := Reads(o, r, v, q);
    assert s'.workers == s.workers[v := Worker(Running(q), Cur(s.mem))];
  }

  // ---------------------------------------------------------------------
  // A lost run is repeated
  // ---------------------------------------------------------------------

  lemma RunningKnows(s: State, w: nat)
    requires Reachable(s) && w in s.workers && s.workers[w].pc.Running?
    ensures IsOut(s, s.workers[w].pc.req) && IsAscii(s.workers[w].pc.req.cmd)
  {
    ReachableInv(s);
    WorkerHasTurn(s, w);
  }

  lemma WaitingMapsSome(s: State, v: nat)
    requires Reachable(s) && v in s.workers
    ensures |s.mem.boxes| > 0 && s.workers[v].at <= Cur(s.mem)
  {
    ReachableInv(s);
    assert WorkerOk(s, s.workers[v]);
  }

  /** The method ends with an error that cannot be packed. */
  lemma Fails(o: State, s: State, w: nat) returns (s': State)
    requires Later(o, s) && w in s.workers && s.workers[w].pc.Running?
    ensures Later(o, s')
    ensures s' == Put(s, w, s.workers[w].(pc := Dying)).(runs := s.runs + [Run(|s.got|, w, false)])
  {
    ReachableInv(s);
    s' := Put(s, w, s.workers[w].(pc := Dying)).(runs := s.runs + [Run(|s.got|, w, false)]);
    AndThen(o, s, Execute(w, Unspeakable), s');
  }

  /** The thread ends and gives back the lock. */
  lemma Dies(o: State, s: State, w: nat) returns (s': State)
    requires Later(o, s) && w in s.workers && s.workers[w].pc.Dying?
    ensures Later(o, s') && s' == s.(workers := s.workers - {w}, holder := None)
  {
    ReachableInv(s);
    s' := s.(workers := s.workers - {w}, holder := None);
    AndThen(o, s, WorkerStep(w), s');
  }

  /**
   * Whenever a worker runs the method in a state of some run, the method may
   * end with an error that cannot be packed, and then any other waiting
   * worker, whichever mailbox it maps, can come to run the same request
   * again: it is still marked for the server.
   */
  lemma LostRunRepeats(s: State, w: nat, v: nat) returns (s': State)
    requires Reachable(s) && w in s.workers && s.workers[w].pc.Running?
    requires v in s.workers && s.workers[v].pc.Waiting?
    ensures Reaches(s, s') && Reachable(s')
    ensures s'.runs == s.runs + [Run(|s.got|, w, false)] && s'.got == s.got
    ensures v in s'.workers && s'.workers[v].pc == s.workers[w].pc && w !in s'.workers
  {
    var q, g := s.workers[w].pc.req, s.workers[v].at;
    RunningKnows(s, w);
    WaitingMapsSome(s, v);
    ReachesItself(s);
    var t := Fails(s, s, w);
    t := Dies(s, t, w);
    s' := GetsToRun(s, t, v, g, q);
  }

  // ---------------------------------------------------------------------
  // A run in which a completed call has run the method twice
  // ---------------------------------------------------------------------

  /** The newest mailbox is the first one, mapped by the client, and the frame fits. */
  ghost predicate Roomy(s: State, f: Frame) {
    |s.mem.boxes| == 1 && s.clientMap == 0 && s.mem.Has(0) && |f| + 1 < s.mem.Len(0)
  }

  lemma Takes(o: State, s: State) returns (s': State)
    requires Later(o, s) && s.client.Starting? && s.holder.None?
    ensures Later(o, s') && s' == s.(holder := Some(TheClient), client := Idle)
  {
    ReachableInv(s);
    s' := s.(holder := Some(TheClient), client := Idle);
    AndThen(o, s, ClientStep, s');
  }

  lemma Calls(o: State, s: State, q: Request) returns (s': State)
    requires Later(o, s) && s.client.Idle? && q.Valid()
    ensures Later(o, s')
    ensures s' == s.(client := Encoded(RequestFrame(q)), sent := s.sent + [q], peak := Max(s.peak, |RequestFrame(q)|))
  {
    ReachableInv(s);
    s' := s.(client := Encoded(RequestFrame(q)), sent := s.sent + [q], peak := Max(s.peak, |RequestFrame(q)|));
    AndThen(o, s, Call(q), s');
  }

  lemma Passes(o: State, s: State, f: Frame) returns (s': State)
    requires Later(o, s) && s.client == Encoded(f) && Roomy(s, f)
    ensures Later(o, s') && s' == s.(client := Writing(f))
  {
    ReachableInv(s);
    s' := s.(client := Writing(f));
    AndThen(o, s, ClientStep, s');
  }

  lemma Writes(o: State, s: State, f: Frame) returns (s': State)
    requires Later(o, s) && s.client == Writing(f) && Roomy(s, f)
    ensures Later(o, s') && s' == s.(mem := s.mem.Store(0, f), client := Handing)
    ensures Roomy(s', f)
  {
    ReachableInv(s);
    s' := s.(mem := s.mem.Store(0, f), client := Handing);
    AndThen(o, s, ClientStep, s');
  }

  lemma Hands(o: State, s: State, f: Frame) returns (s': State)
    requires Later(o, s) && s.client.Handing? && Roomy(s, f)
    ensures Later(o, s') && s' == s.(mem := s.mem.SetFlag(0, SERVER), client := Releasing(0))
    ensures Roomy(s', f)
  {
    ReachableInv(s);
    s' := s.(mem := s.mem.SetFlag(0, SERVER), client := Releasing(0));
    AndThen(o, s, ClientStep, s');
  }

  lemma Releases(o: State, s: State, q: Request) returns (s': State)
    requires Later(o, s) && s.client == Releasing(0) && s.sent != [] && s.sent[|s.sent| - 1] == q
    ensures Later(o, s') && s' == s.(holder := None, client := Acquiring)
    ensures IsOut(s', q)
  {
    ReachableInv(s);
    s' := s.(holder := None, client := Acquiring);
    AndThen(o, s, ClientStep, s');
  }

  /** A client with the lock sends a request that fits. */
  lemma Sends(o: State, s: State, q: Request) returns (s': State)
    requires Later(o, s) && s.client.Idle? && q.Valid() && Roomy(s, RequestFrame(q))
    ensures Later(o, s') && Roomy(s', RequestFrame(q)) && IsOut(s', q)
    ensures s'.client.Acquiring? && s'.holder.None?
    ensures s'.workers == s.workers && s'.got == s.got && s'.runs == s.runs
    ensures s'.mem.Len(0) == s.mem.Len(0)
  {
    var f := RequestFrame(q);
    var t := Calls(o, s, q);
    t := Passes(o, t, f);
    t := Writes(o, t, f);
    t := Hands(o, t, f);
    s' := Releases(o, t, q);
  }

  /** The method returns a value. */
  lemma Answers(o: State, s: State, v: nat, q: Request, p: Response) returns (s': State)
    requires Later(o, s) && IsAt(s, v, Worker(Running(q), 0)) && p.ok && p.Valid()
    ensures Later(o, s')
    ensures s' == Put(s, v, Worker(Fitting(ResponseFrame(p)), 0)).(
                    runs := s.runs + [Run(|s.got|, v, true)],
                    replies := s.replies + [Reply(v, q, p)],
                    peak := Max(s.peak, |ResponseFrame(p)|))
  {
    ReachableInv(s);
    s' := Put(s, v, Worker(Fitting(ResponseFrame(p)), 0)).(
            runs := s.runs + [Run(|s.got|, v, true)],
            replies := s.replies + [Reply(v, q, p)],
            peak := Max(s.peak, |ResponseFrame(p)|));
    AndThen(o, s, Execute(v, Returns(p.data)), s');
  }

  lemma Fits(o: State, s: State, v: nat, f: Frame) returns (s': State)
    requires Later(o, s) && IsAt(s, v, Worker(Fitting(f), 0)) && Roomy(s, f)
    ensures Later(o, s') && s' == Put(s, v, Worker(Replying(f), 0))
  {
    ReachableInv(s);
    s' := Put(s, v, Worker(Replying(f), 0));
    AndThen(o, s, WorkerStep(v), s');
  }

  lemma Replies(o: State, s: State, v: nat, f: Frame) returns (s': State)
    requires Later(o, s) && IsAt(s, v, Worker(Replying(f), 0)) && Roomy(s, f)
    ensures Later(o, s') && s' == Put(s, v, Worker(Finishing, 0)).(mem := s.mem.Store(0, f))
    ensures Roomy(s', f)
  {
    ReachableInv(s);
    s' := Put(s, v, Worker(Finishing, 0)).(mem := s.mem.Store(0, f));
    AndThen(o, s, WorkerStep(v), s');
  }

  lemma Finishes(o: State, s: State, v: nat, f: Frame) returns (s': State)
    requires Later(o, s) && IsAt(s, v, Worker(Finishing, 0)) && Roomy(s, f)
    ensures Later(o, s') && s' == Put(s, v, Worker(Leaving, 0)).(mem := s.mem.SetFlag(0, CLIENT))
    ensures Roomy(s', f)
  {
    ReachableInv(s);
    s' := Put(s, v, Worker(Leaving, 0)).(mem := s.mem.SetFlag(0, CLIENT));
    AndThen(o, s, WorkerStep(v), s');
  }

  lemma Leaves(o: State, s: State, v: nat) returns (s': State)
    requires Later(o, s) && IsAt(s, v, Worker(Leaving, 0))
    ensures Later(o, s') && s' == Put(s, v, Worker(Waiting, 0)).(holder := None)
  {
    ReachableInv(s);
    s' := Put(s, v, Worker(Waiting, 0)).(holder := None);
    AndThen(o, s, WorkerStep(v), s');
  }

  /** A worker runs the method, and delivers a response that fits. */
  lemma Serves(o: State, s: State, v: nat, q: Request, p: Response) returns (s': State)
    requires Later(o, s) && IsAt(s, v, Worker(Running(q), 0)) && p.ok && p.Valid() && Roomy(s, ResponseFrame(p))
    ensures Later(o, s') && s'.client == s.client && s'.holder.None?
    ensures Roomy(s', ResponseFrame(p)) && s'.mem.Flag(0) == CLIENT
    ensures s'.got == s.got && s'.runs == s.runs + [Run(|s.got|, v, true)]
  {
    var f := ResponseFrame(p);
    var t := Answers(o, s, v, q, p);
    t := Fits(o, t, v, f);
    t := Replies(o, t, v, f);
    t := Finishes(o, t, v, f);
    s' := Leaves(o, t, v);
  }

  lemma Acquires(o: State, s: State) returns (s': State)
    requires Later(o, s) && s.client.Acquiring? && s.holder.None?
    ensures Later(o, s') && s' == s.(holder := Some(TheClient), client := Checking(0))
  {
    ReachableInv(s);
    s' := s.(holder := Some(TheClient), client := Checking(0));
    AndThen(o, s, ClientStep, s');
  }

  lemma SeesResponse(o: State, s: State, f: Frame) returns (s': State)
    requires Later(o, s) && s.client == Checking(0) && Roomy(s, f) && s.mem.Flag(0) == CLIENT
    ensures Later(o, s') && s' == s.(client := Decoding)
  {
    ReachableInv(s);
    s' := s.(client := Decoding);
    AndThen(o, s, ClientStep, s');
  }

  lemma Receives(o: State, s: State) returns (s': State)
    requires Later(o, s) && s.client.Decoding?
    ensures Later(o, s') && |s'.got| == |s.got| + 1 && s'.runs == s.runs
  {
    ReachableInv(s);
    ClientHasTurn(s);
    ClientDecodes(s);
    s' := s.(client := Idle, got := s.got + [s.replies[|s.got|].resp]);
    DecodesTo(s, s.replies[|s.got|].resp);
    AndThen(o, s, ClientStep, s');
  }

  lemma DecodesTo(s: State, p: Response)
    requires s.WellFormed() && s.client.Decoding? && DecodeResponse(s.mem.boxes[s.clientMap]) == Success(p)
    ensures ClientMove(s) == Some(s.(client := Idle, got := s.got + [p]))
  {
  }

  lemma Joins(o: State, s: State, w: nat) returns (s': State)
    requires Later(o, s) && w !in s.workers && s.mem.name == Some(0)
    ensures Later(o, s') && s' == Put(s, w, Worker(Waiting, 0))
  {
    ReachableInv(s);
    s' := Put(s, w, Worker(Waiting, 0));
    AndThen(o, s, Join(w), s');
  }

  /** A client and two waiting workers, before the first call. */
  lemma Starts(page: nat) returns (s: State)
    requires page > 2
    ensures Later(Init(page), s)
    ensures s.client.Idle? && IsAt(s, 0, Worker(Waiting, 0)) && IsAt(s, 1, Worker(Waiting, 0))
    ensures s.clientMap == 0 && s.mem == Init(page).mem && s.got == [] && s.runs == []
  {
    var o := Init(page);
    InitReachable(page);
    ReachesItself(o);
    SharedParams.FitIsLeast(page, 1024);
    s := Joins(o, o, 0);
    s := Joins(o, s, 1);
    s := Takes(o, s);
  }

  lemma InitIsRoomy(page: nat, f: Frame)
    requires page > 2 && |f| < 1023
    ensures Init(page).mem.Has(0) && |f| + 1 < Init(page).mem.Len(0) && |Init(page).mem.boxes| == 1
  {
    SharedParams.FitIsLeast(page, 1024);
  }

  /** The request has been sent, and one worker has lost its run. */
  lemma LosesOnce(page: nat, q: Request) returns (s: State)
    requires page > 2 && q.Valid() && IsAscii(q.cmd) && |RequestFrame(q)| < 1023
    ensures Later(Init(page), s) && IsAt(s, 1, Worker(Running(q), 0))
    ensures s.client.Acquiring? && s.clientMap == 0 && |s.mem.boxes| == 1 && s.mem.Has(0)
    ensures s.mem.Len(0) == Init(page).mem.Len(0)
    ensures s.got == [] && s.runs == [Run(0, 0, false)]
  {
    var o := Init(page);
    InitIsRoomy(page, RequestFrame(q));
    var t := Starts(page);
    t := Sends(o, t, q);
    t := GetsToRun(o, t, 0, 0, q);
    t := Fails(o, t, 0);
    t := Dies(o, t, 0);
    s := GetsToRun(o, t, 1, 0, q);
  }

  lemma TwiceReachable(page: nat, q: Request, p: Response) returns (s: State)
    requires page > 2 && q.Valid() && IsAscii(q.cmd) && |RequestFrame(q)| < 1023
    requires p.ok && p.Valid() && |ResponseFrame(p)| < 1023
    ensures Later(Init(page), s) && |s.got| == 1 && s.runs == [Run(0, 0, false), Run(0, 1, true)]
  {
    var o, f := Init(page), ResponseFrame(p);
    InitIsRoomy(page, f);
    var t := LosesOnce(page, q);
    t := Serves(o, t, 1, q, p);
    t := Acquires(o, t);
    t := SeesResponse(o, t, f);
    s := Receives(o, t);
  }

  /**
   * For any request and value of ordinary size there is a run of two workers
   * and the client in which the call returns and the method has run twice.
   */
  lemma RunsTwice(page: nat, q: Request, p: Response) returns (states: seq<State>, actions: seq<Action>)
    requires page > 2 && q.Valid() && IsAscii(q.cmd) && |RequestFrame(q)| < 1023
    requires p.ok && p.Valid() && |ResponseFrame(p)| < 1023
    ensures IsRun(states, actions) && |states[|actions|].got| == 1
    ensures Executions(states, actions, |actions|, 0) == 2
  {
    var s := TwiceReachable(page, q, p);
    states, actions :| Path(Init(page), states, actions, s);
    RunRecorded(states, actions, |actions|, 0);
    var runs := s.runs;
    assert runs[..1] == [Run(0, 0, false)] && runs[..1][..0] == [];
    assert Recorded(runs[..1], 0) == 1;
  }
}
