/** What the protocol guarantees over every run. */
module ShmTheorems {
  import opened Frames
  import opened ShmProtocol
  import opened ShmInvariant
  import opened Wrappers

  // ---------------------------------------------------------------------
  // Runs
  // ---------------------------------------------------------------------

  lemma LinkKeepsInv(s: State, a: Action, s': State)
    requires Inv(s) && Linked(s, a, s')
    ensures Inv(s')
  {
    ApplyKeepsInv(s, a);
  }

  /** Every state of every run satisfies the invariant. */
  lemma {:induction false} RunInv(states: seq<State>, actions: seq<Action>, n: nat)
    requires IsRun(states, actions) && n < |states|
    ensures Inv(states[n])
  {
    if n == 0 {
      InitInv(states[0].page);
    } else {
      RunInv(states, actions, n - 1);
      LinkKeepsInv(states[n - 1], actions[n - 1], states[n]);
    }
  }

  // ---------------------------------------------------------------------
  // Refinement of a function call
  // ---------------------------------------------------------------------

  /** A request, and what running the method for it came to. */
  datatype Exchange = Exchange(req: Request, outcome: Outcome)

  /** A caller and a service with nothing in between: ask, run the method, return or raise. */
  datatype Talk = Talk(done: seq<Exchange>, asked: Option<Request>, answer: Option<Outcome>)

  datatype Event = Nothing | Ask(req: Request) | Answer(outcome: Outcome) | Return

  /** What `_send` makes of a response: it returns its data, or raises the error behind the extra '-'. */
  function Seen(p: Response): Outcome {
    if p.ok then Returns(p.data) else Raises(if p.data == [] then [] else p.data[1..])
  }

  ghost predicate CallNext(c: Talk, e: Event, c': Talk) {
    match e
    case Nothing => c' == c
    case Ask(q) => c.asked.None? && c' == c.(asked := Some(q))
    case Answer(p) => c.asked.Some? && c.answer.None? && c' == c.(answer := Some(p))
    case Return =>
      && c.asked.Some? && c.answer.Some?
      && c' == Talk(c.done + [Exchange(c.asked.value, c.answer.value)], None, None)
  }

  /** The call a state of the protocol stands for. */
  ghost function Abs(s: State): Talk
    requires |s.got| <= |s.sent|
  {
    Talk(seq(|s.got|, i requires 0 <= i < |s.got| => Exchange(s.sent[i], Seen(s.got[i]))),
         if |s.got| < |s.sent| then Some(s.sent[|s.got|]) else None,
         if |s.got| < |s.replies| then Some(Seen(s.replies[|s.got|].resp)) else None)
  }

  /** What an action means for the caller: locks, resizes and reconnects mean nothing. */
  ghost function EventOf(s: State, a: Action): Event
    requires s.WellFormed()
  {
    match a
    case Call(q) => if q.Valid() then Ask(q) else Nothing
    case Execute(_, o) => if o.Unspeakable? then Nothing else Answer(o)
    case ClientStep => if s.client.Decoding? then Return else Nothing
    case _ => Nothing
  }

  lemma InitAbs(page: nat)
    requires page > 0
    ensures Abs(Init(page)) == Talk([], None, None)
  {
  }

  lemma DecodingReturns(s: State)
    requires Inv(s) && s.client.Decoding?
    ensures CallNext(Abs(s), Return, Abs(ClientMove(s).value))
  {
    ClientHasTurn(s);
    ClientReceives(s, ClientMove(s).value);
    AbsReturns(s, ClientMove(s).value);
  }

  lemma AbsReturns(s: State, s': State)
    requires |s.sent| == |s.replies| == |s.got| + 1
    requires s'.got == s.got + [s.replies[|s.got|].resp] && s'.sent == s.sent && s'.replies == s.replies
    ensures CallNext(Abs(s), Return, Abs(s'))
  {
    assert Abs(s').done == Abs(s).done + [Exchange(s.sent[|s.got|], Seen(s.replies[|s.got|].resp))];
  }

  ghost predicate SameHistory(s: State, s': State) {
    s'.sent == s.sent && s'.replies == s.replies && s'.got == s.got && s'.runs == s.runs && s'.peak == s.peak
  }

  lemma SilentClient(s: State)
    requires s.WellFormed() && ClientMove(s).Some? && !s.client.Decoding?
    ensures SameHistory(s, ClientMove(s).value)
  {
  }

  lemma SilentWorker(s: State, w: nat)
    requires s.WellFormed() && w in s.workers && WorkerMove(s, w).Some?
    ensures SameHistory(s, WorkerMove(s, w).value)
  {
  }

  /** The histories move only at calls, executions and returns. */
  lemma SilentSteps(s: State, a: Action)
    requires s.WellFormed() && Apply(s, a).Some?
    requires !a.Call? && !a.Execute? && !(a.ClientStep? && s.client.Decoding?)
    ensures SameHistory(s, Apply(s, a).value)
  {
    match a
    case ClientStep => SilentClient(s);
    case WorkerStep(w) => SilentWorker(s, w);
    case _ =>
  }

  /**
   * Refinement: each action is one step of a plain call, or none. In
   * particular what `_send` returns or raises is what the method returned or
   * raised for the request it sent, never a stale or a foreign result.
   */
  lemma Refinement(s: State, a: Action)
    requires Inv(s) && Apply(s, a).Some?
    ensures |Apply(s, a).value.got| <= |Apply(s, a).value.sent|
    ensures CallNext(Abs(s), EventOf(s, a), Abs(Apply(s, a).value))
  {
    var s' := Apply(s, a).value;
    if a.Call? {
      CallRefines(s, a.req);
    } else if a.Execute? {
      ExecuteRefines(s, a.w, a.outcome);
    } else if a.ClientStep? && s.client.Decoding? {
      DecodingReturns(s);
      ApplyKeepsInv(s, a);
    } else {
      SilentSteps(s, a);
    }
  }

  lemma CallRefines(s: State, q: Request)
    requires Inv(s) && CallStep(s, q).Some?
    ensures |s.got| <= |CallStep(s, q).value.sent|
    ensures CallNext(Abs(s), if q.Valid() then Ask(q) else Nothing, Abs(CallStep(s, q).value))
  {
    var s' := CallStep(s, q).value;
    assert Abs(s').done == Abs(s).done;
  }

  lemma ExecuteRefines(s: State, w: nat, o: Outcome)
    requires Inv(s) && w in s.workers && ExecuteStep(s, w, o).Some?
    ensures ExecuteStep(s, w, o).value.sent == s.sent && ExecuteStep(s, w, o).value.got == s.got
    ensures CallNext(Abs(s), if o.Unspeakable? then Nothing else Answer(o), Abs(ExecuteStep(s, w, o).value))
  {
    assert WorkerOk(s, s.workers[w]);
  }

  // ---------------------------------------------------------------------
  // A service that is a function of the request
  // ---------------------------------------------------------------------

  /** The method comes to `f(q)` on the request `q`, unless its error cannot be packed. */
  ghost predicate RunsAs(s: State, a: Action, f: Request -> Outcome)
    requires s.WellFormed()
  {
    a.Execute? && a.w in s.workers && s.workers[a.w].pc.Running? && !a.outcome.Unspeakable?
    ==> a.outcome == f(s.workers[a.w].pc.req)
  }

  ghost predicate AnsweredBy(s: State, f: Request -> Outcome) {
    forall i :: 0 <= i < |s.replies| ==> Seen(s.replies[i].resp) == f(s.replies[i].req)
  }

  lemma ExecuteAnswered(s: State, w: nat, o: Outcome, f: Request -> Outcome)
    requires Inv(s) && w in s.workers && ExecuteStep(s, w, o).Some? && AnsweredBy(s, f)
    requires !o.Unspeakable? ==> o == f(s.workers[w].pc.req)
    ensures AnsweredBy(ExecuteStep(s, w, o).value, f)
  {
  }

  lemma StepAnswers(s: State, a: Action, s': State, f: Request -> Outcome)
    requires Inv(s) && Linked(s, a, s') && RunsAs(s, a, f) && AnsweredBy(s, f)
    ensures AnsweredBy(s', f)
  {
    if a.Execute? {
      ExecuteAnswered(s, a.w, a.outcome, f);
    } else {
      RepliesStay(s, a, s');
    }
  }

  lemma RepliesStay(s: State, a: Action, s': State)
    requires Linked(s, a, s') && !a.Execute?
    ensures s'.replies == s.replies
  {
    if !a.Call? && !(a.ClientStep? && s.client.Decoding?) {
      SilentSteps(s, a);
    }
  }

  /** Every response ever computed says what the service's method comes to on the request it is filed under. */
  lemma {:induction false} RunAnswers(states: seq<State>, actions: seq<Action>, f: Request -> Outcome, n: nat)
    requires IsRun(states, actions) && n < |states|
    requires forall i {:trigger actions[i]} ::
      0 <= i < |actions| && states[i].WellFormed() ==> RunsAs(states[i], actions[i], f)
    ensures AnsweredBy(states[n], f)
  {
    if n > 0 {
      RunAnswers(states, actions, f, n - 1);
      RunInv(states, actions, n - 1);
      assert Linked(states[n - 1], actions[n - 1], states[n]);
      StepAnswers(states[n - 1], actions[n - 1], states[n], f);
    }
  }

  /**
   * The RPC is the function call: in every interleaving, after any number of
   * resizes and with any workers coming and going, the i-th completed call
   * has returned or raised what the method does on the i-th request.
   */
  lemma RpcIsFunctionCall(states: seq<State>, actions: seq<Action>, f: Request -> Outcome, n: nat, i: nat)
    requires IsRun(states, actions) && n < |states|
    requires forall j {:trigger actions[j]} ::
      0 <= j < |actions| && states[j].WellFormed() ==> RunsAs(states[j], actions[j], f)
    requires i < |states[n].got|
    ensures i < |states[n].sent| && Seen(states[n].got[i]) == f(states[n].sent[i])
  {
    RunInv(states, actions, n);
    RunAnswers(states, actions, f, n);
  }
}
