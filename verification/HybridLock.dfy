/**
 * HybridLock (hybrid_lock/linux/HybridLock.pyx), one atomic access per step:
 * a POSIX semaphore, a shared flag byte that waiters spin on, and a shared
 * word with the holder's pid. Only the semaphore excludes; the flag and the
 * pid are hints written around it.
 */
module HybridLock {
  import Bytes
  import opened Wrappers

  const LOCKED: Bytes.Byte := 0
  const UNLOCKED: Bytes.Byte := 1
  const DESTROYED: Bytes.Byte := 127
  const MAX_SPINS: nat := 8192

  datatype Pc =
    | Outside
    | Spinning(times: nat, timed: bool)
    | Waiting(timed: bool)   // about to sem_wait or sem_timedwait
    | Marking                // about to write LOCKED
    | Signing                // about to write the pid
    | Inside                 // `lock` has returned
    | Clearing               // in `unlock`, about to write UNLOCKED
    | Valuing                // about to read the semaphore's value
    | Posting                // about to sem_post
    | Raised                 // SemaphoreDestroyedException
    | Refused                // `unlock` found the semaphore up and returned -1

  type Tid = nat

  datatype State = State(sem: nat, flag: Bytes.Byte, pid: int, pids: map<Tid, int>, pcs: map<Tid, Pc>)
  {
    ghost predicate Has(t: Tid) {
      t in pcs && t in pids
    }

    function At(t: Tid, pc: Pc): State {
      this.(pcs := pcs[t := pc])
    }
  }

  datatype Action =
    | Lock(t: Tid, spin: bool, timed: bool)
    | Unlock(t: Tid)                // called by threads for which `lock` has returned
    | Step(t: Tid, late: bool)      // `late`: 6ms of spinning, or the timeout, are over

  function Spin(s: State, t: Tid, times: nat, timed: bool, late: bool): State {
    if late then s.At(t, Waiting(timed))
    else if s.flag == DESTROYED then s.At(t, Raised)
    else if s.flag == UNLOCKED || times > MAX_SPINS then s.At(t, Waiting(timed))
    else s.At(t, Spinning(times + 1, timed))
  }

  ghost function Apply(s: State, a: Action): Option<State> {
    if !s.Has(a.t) then None else
    var t := a.t;
    match (a, s.pcs[t])
    case (Lock(_, spin, timed), Outside) =>
      if s.flag == DESTROYED then Some(s.At(t, Raised))
      else Some(s.At(t, if spin then Spinning(0, timed) else Waiting(timed)))
    case (Unlock(_), Inside) =>
      Some(s.At(t, if s.flag == DESTROYED then Raised else Clearing))
    case (Step(_, late), Spinning(times, timed)) => Some(Spin(s, t, times, timed, late))
    case (Step(_, late), Waiting(timed)) =>
      if s.sem > 0 then Some(s.At(t, Marking).(sem := s.sem - 1))
      else if timed && late then Some(s.At(t, Outside))
      else None
    case (Step(_, _), Marking) => Some(s.At(t, Signing).(flag := LOCKED))
    case (Step(_, _), Signing) => Some(s.At(t, Inside).(pid := s.pids[t]))
    case (Step(_, _), Clearing) => Some(s.At(t, Valuing).(flag := UNLOCKED))
    case (Step(_, _), Valuing) =>
      Some(s.At(t, if s.flag == DESTROYED then Raised else if s.sem == 0 then Posting else Refused))
    case (Step(_, _), Posting) => Some(s.At(t, Outside).(sem := s.sem + 1))
    case _ => None
  }

  /** `get_pid_holding_lock`: it reads the semaphore's value in state `s` and, if that is 0, the pid in `s'`. */
  function PidHoldingLock(s: State, s': State): int {
    if s.sem == 0 then s'.pid else 0
  }

  // ---------------------------------------------------------------------
  // The mutex it implements
  // ---------------------------------------------------------------------

  /** Between a successful sem_wait and the sem_post. */
  predicate Owns(pc: Pc) {
    pc.Marking? || pc.Signing? || pc.Inside? || pc.Clearing? || pc.Valuing? || pc.Posting?
  }

  /** Between its own writes of LOCKED and UNLOCKED. */
  predicate Marked(pc: Pc) {
    pc.Signing? || pc.Inside? || pc.Clearing?
  }

  /** Between its own write of its pid and giving up the semaphore. */
  predicate Signed(pc: Pc) {
    pc.Inside? || pc.Clearing? || pc.Valuing? || pc.Posting?
  }

  /** The abstract lock that other modules use: nobody, or somebody. */
  type Mutex = Option<Tid>

  ghost predicate MutexNext<T>(m: Option<T>, t: T, m': Option<T>) {
    || m' == m
    || (m == None && m' == Some(t))
    || (m == Some(t) && m' == None)
  }

  /** The state `s` of semaphore, flag, pid and threads stands for the mutex state `m`. */
  ghost predicate Stands(s: State, m: Mutex) {
    && s.sem == (if m.None? then 1 else 0)
    && (m.Some? ==> s.Has(m.value))
    && s.pids.Keys == s.pcs.Keys
    && (forall t :: t in s.pcs ==> (Owns(s.pcs[t]) <==> m == Some(t)))
    && (forall t :: t in s.pcs ==> !s.pcs[t].Raised? && !s.pcs[t].Refused?)
    && (forall t :: t in s.pcs && s.pcs[t].Spinning? ==> s.pcs[t].times <= MAX_SPINS + 1)
    && s.flag == (if m.Some? && Marked(s.pcs[m.value]) then LOCKED else UNLOCKED)
    && (m.Some? && Signed(s.pcs[m.value]) ==> s.pid == s.pids[m.value])
  }

  ghost predicate IsInit(s: State) {
    && s.sem == 1 && s.flag == UNLOCKED
    && s.pids.Keys == s.pcs.Keys
    && forall t :: t in s.pcs ==> s.pcs[t] == Outside
  }

  ghost predicate IsRun(states: seq<State>, actions: seq<Action>) {
    && |states| == |actions| + 1
    && IsInit(states[0])
    && forall i {:trigger actions[i]} :: 0 <= i < |actions| ==> Apply(states[i], actions[i]) == Some(states[i + 1])
  }

  /** What an action does to the mutex: taken by sem_wait, released by sem_post, else unchanged. */
  ghost function After(s: State, m: Mutex, a: Action): Mutex {
    if a.Step? && s.Has(a.t) && s.pcs[a.t].Waiting? && s.sem > 0 then Some(a.t)
    else if a.Step? && s.Has(a.t) && s.pcs[a.t].Posting? then None
    else m
  }

  /** Before the semaphore only the thread's own place changes. */
  lemma StaysOut(s: State, m: Mutex, t: Tid, pc: Pc)
    requires Stands(s, m) && s.Has(t) && !Owns(s.pcs[t])
    requires !Owns(pc) && !pc.Raised? && !pc.Refused? && (pc.Spinning? ==> pc.times <= MAX_SPINS + 1)
    ensures Stands(s.At(t, pc), m)
  {
    assert m != Some(t);
  }

  lemma SpinSteps(s: State, m: Mutex, a: Action)
    requires Stands(s, m) && Apply(s, a).Some?
    requires s.pcs[a.t].Outside? || s.pcs[a.t].Spinning?
    ensures Stands(Apply(s, a).value, After(s, m, a))
    ensures MutexNext(m, a.t, After(s, m, a))
  {
    var s' := Apply(s, a).value;
    assert After(s, m, a) == m;
    StaysOut(s, m, a.t, s'.pcs[a.t]);
    assert s' == s.At(a.t, s'.pcs[a.t]);
  }

  lemma WaitSteps(s: State, m: Mutex, a: Action)
    requires Stands(s, m) && Apply(s, a).Some?
    requires s.pcs[a.t].Waiting?
    ensures Stands(Apply(s, a).value, After(s, m, a))
    ensures MutexNext(m, a.t, After(s, m, a))
  {
  }

  lemma HoldSteps(s: State, m: Mutex, a: Action)
    requires Stands(s, m) && Apply(s, a).Some?
    requires s.pcs[a.t].Marking? || s.pcs[a.t].Signing? || s.pcs[a.t].Inside?
    ensures Stands(Apply(s, a).value, After(s, m, a))
    ensures MutexNext(m, a.t, After(s, m, a))
  {
  }

  lemma ExitSteps(s: State, m: Mutex, a: Action)
    requires Stands(s, m) && Apply(s, a).Some?
    requires s.pcs[a.t].Clearing? || s.pcs[a.t].Valuing? || s.pcs[a.t].Posting?
    ensures Stands(Apply(s, a).value, After(s, m, a))
    ensures MutexNext(m, a.t, After(s, m, a))
  {
  }

  /** Every step of the lock is a step of the mutex or leaves it alone. */
  lemma StepRefinesMutex(s: State, m: Mutex, a: Action)
    requires Stands(s, m) && Apply(s, a).Some?
    ensures Stands(Apply(s, a).value, After(s, m, a))
    ensures MutexNext(m, a.t, After(s, m, a))
  {
    var pc := s.pcs[a.t];
    if pc.Outside? || pc.Spinning? {
      SpinSteps(s, m, a);
    } else if pc.Waiting? {
      WaitSteps(s, m, a);
    } else if pc.Marking? || pc.Signing? || pc.Inside? {
      HoldSteps(s, m, a);
    } else {
      ExitSteps(s, m, a);
    }
  }

  lemma {:induction false} RunRefinesMutex(states: seq<State>, actions: seq<Action>, n: nat) returns (m: Mutex)
    requires IsRun(states, actions) && n < |states|
    ensures Stands(states[n], m)
  {
    if n == 0 {
      m := None;
    } else {
      m := RunRefinesMutex(states, actions, n - 1);
      assert Apply(states[n - 1], actions[n - 1]) == Some(states[n]);
      StepRefinesMutex(states[n - 1], m, actions[n - 1]);
      m := After(states[n - 1], m, actions[n - 1]);
    }
  }

  ghost function Owners(s: State): set<Tid> {
    set t | t in s.pcs && Owns(s.pcs[t])
  }

  /**
   * In every state of every run with unlocks by owners only: the semaphore's
   * value and the number of owners add up to one; the flag is LOCKED exactly
   * while some owner is between writing LOCKED and writing UNLOCKED; nobody
   * gets an exception, no unlock is refused, and no spin exceeds its bound.
   */
  lemma SemaphorePlusOwners(states: seq<State>, actions: seq<Action>, n: nat)
    requires IsRun(states, actions) && n < |states|
    ensures
      var s := states[n];
      && s.sem + |Owners(s)| == 1
      && (s.flag == LOCKED <==> exists t :: t in s.pcs && Marked(s.pcs[t]))
      && (s.flag != LOCKED ==> s.flag == UNLOCKED)
      && (forall t :: t in s.pcs ==> !s.pcs[t].Raised? && !s.pcs[t].Refused?)
      && (forall t :: t in s.pcs && s.pcs[t].Spinning? ==> s.pcs[t].times <= MAX_SPINS + 1)
  {
    var m := RunRefinesMutex(states, actions, n);
    var s := states[n];
    if m.None? {
      assert Owners(s) == {};
    } else {
      assert Owners(s) == {m.value};
    }
    if exists t :: t in s.pcs && Marked(s.pcs[t]) {
      var t :| t in s.pcs && Marked(s.pcs[t]);
      assert Owns(s.pcs[t]);
    }
  }

  /** Mutual exclusion. */
  lemma OneOwner(states: seq<State>, actions: seq<Action>, n: nat, t: Tid, u: Tid)
    requires IsRun(states, actions) && n < |states|
    requires t in Owners(states[n]) && u in Owners(states[n])
    ensures t == u
  {
    var m := RunRefinesMutex(states, actions, n);
  }

  /** The action writes a thread's pid. */
  ghost predicate Signs(s: State, a: Action) {
    a.Step? && s.Has(a.t) && s.pcs[a.t].Signing?
  }

  lemma PidsStay(s: State, a: Action)
    requires Apply(s, a).Some?
    ensures Apply(s, a).value.pids == s.pids
    ensures !Signs(s, a) ==> Apply(s, a).value.pid == s.pid
  {
  }

  ghost predicate NobodySigns(states: seq<State>, actions: seq<Action>, i: nat, j: nat)
    requires j <= |actions| < |states|
  {
    forall k :: i <= k < j ==> !Signs(states[k], actions[k])
  }

  /** Pids of threads never change, and the word with the holder's pid only when somebody signs. */
  lemma {:induction false} PidBetween(states: seq<State>, actions: seq<Action>, i: nat, j: nat)
    requires IsRun(states, actions) && i <= j < |states|
    ensures states[j].pids == states[i].pids
    ensures NobodySigns(states, actions, i, j) ==> states[j].pid == states[i].pid
    decreases j
  {
    if i < j {
      PidBetween(states, actions, i, j - 1);
      assert Apply(states[j - 1], actions[j - 1]) == Some(states[j]);
      PidsStay(states[j - 1], actions[j - 1]);
    }
  }

  lemma SignedIsPid(states: seq<State>, actions: seq<Action>, n: nat, t: Tid)
    requires IsRun(states, actions) && n < |states|
    requires t in states[n].pcs && Signed(states[n].pcs[t])
    ensures t in states[n].pids && states[n].pid == states[n].pids[t] && states[n].sem == 0
  {
    var m := RunRefinesMutex(states, actions, n);
    assert Owns(states[n].pcs[t]);
  }

  /**
   * `get_pid_holding_lock`, reading the semaphore in one state of a run and
   * the pid in a later one: it is 0 if nobody owns the lock at the first
   * read. It is the pid of the owner that had signed by then, unless somebody
   * else has signed between the reads. In any case it is the pid of whoever
   * has signed at the second read. (If the owner has not signed by then, it
   * is whatever an earlier owner left.)
   */
  lemma PidIsOwners(states: seq<State>, actions: seq<Action>, i: nat, j: nat)
    requires IsRun(states, actions) && i <= j < |states|
    ensures Owners(states[i]) == {} ==> PidHoldingLock(states[i], states[j]) == 0
    ensures NobodySigns(states, actions, i, j) ==> forall t :: t in states[i].pcs && Signed(states[i].pcs[t]) ==>
      t in states[i].pids && PidHoldingLock(states[i], states[j]) == states[i].pids[t]
    ensures Owners(states[i]) != {} ==> forall t :: t in states[j].pcs && Signed(states[j].pcs[t]) ==>
      t in states[j].pids && PidHoldingLock(states[i], states[j]) == states[j].pids[t]
  {
    var m := RunRefinesMutex(states, actions, i);
    if m.Some? {
      assert m.value in Owners(states[i]);
    }
    PidBetween(states, actions, i, j);
    forall t | t in states[i].pcs && Signed(states[i].pcs[t])
      ensures t in states[i].pids && states[i].pid == states[i].pids[t] && states[i].sem == 0
    {
      SignedIsPid(states, actions, i, t);
    }
    forall t | t in states[j].pcs && Signed(states[j].pcs[t])
      ensures t in states[j].pids && states[j].pid == states[j].pids[t]
    {
      SignedIsPid(states, actions, j, t);
    }
  }

  // ---------------------------------------------------------------------
  // Getting the lock, or giving up
  // ---------------------------------------------------------------------

  /** A call of `lock` under way that has not got the semaphore: spinning only if asked to, and timed if asked to. */
  predicate Tries(pc: Pc, spin: bool, timed: bool) {
    match pc
    case Spinning(_, d) => spin && d == timed
    case Waiting(d) => d == timed
    case _ => false
  }

  /** A timed wait ends because its time is over, with the semaphore still down. */
  ghost predicate TimesOut(s: State, a: Action, t: Tid) {
    a == Step(t, true) && s.Has(t) && s.pcs[t] == Waiting(true) && s.sem == 0
  }

  ghost predicate NeverOwns(states: seq<State>, t: Tid, i: nat, j: nat)
    requires j < |states|
  {
    forall k :: i < k <= j ==> t in states[k].pcs && !Owns(states[k].pcs[t])
  }

  lemma TryingStep(s: State, m: Mutex, a: Action, t: Tid, spin: bool, timed: bool)
    requires Stands(s, m) && Apply(s, a).Some?
    requires t in s.pcs && Tries(s.pcs[t], spin, timed)
    ensures
      var s' := Apply(s, a).value;
      && t in s'.pcs
      && (Owns(s'.pcs[t]) || Tries(s'.pcs[t], spin, timed) || (timed && TimesOut(s, a, t)))
  {
  }

  /**
   * A thread that has called `lock` and has not got it since is still trying,
   * as it was asked to, unless its timeout was over at some step. In
   * particular it never spins if it was asked not to.
   */
  lemma {:induction false} TriesUntil(
    states: seq<State>, actions: seq<Action>, i: nat, j: nat, t: Tid, spin: bool, timed: bool)
    requires IsRun(states, actions) && i < j < |states|
    requires actions[i] == Lock(t, spin, timed) && NeverOwns(states, t, i, j)
    ensures Tries(states[j].pcs[t], spin, timed)
         || (timed && exists k :: i < k < j && TimesOut(states[k], actions[k], t))
    decreases j
  {
    var m := RunRefinesMutex(states, actions, j - 1);
    assert Apply(states[j - 1], actions[j - 1]) == Some(states[j]);
    if i < j - 1 {
      TriesUntil(states, actions, i, j - 1, t, spin, timed);
      if Tries(states[j - 1].pcs[t], spin, timed) {
        TryingStep(states[j - 1], m, actions[j - 1], t, spin, timed);
      }
    }
  }

  /**
   * `lock` without a timeout returns only with the lock: a thread that is
   * outside again after calling it has owned the lock in between.
   */
  lemma UntimedGetsLock(states: seq<State>, actions: seq<Action>, i: nat, j: nat, t: Tid, spin: bool)
    requires IsRun(states, actions) && i < j < |states|
    requires actions[i] == Lock(t, spin, false) && t in states[j].pcs && states[j].pcs[t].Outside?
    ensures exists k :: i < k < j && t in Owners(states[k])
  {
    PcsStay(states, actions, i, j);
    if forall k :: i < k < j ==> t !in Owners(states[k]) {
      forall k | i < k <= j ensures t in states[k].pcs && !Owns(states[k].pcs[t]) {
        PcsStay(states, actions, i, k);
        assert k < j ==> t !in Owners(states[k]);
      }
      TriesUntil(states, actions, i, j, t, spin, false);
    }
  }

  /** With a timeout it gives up only when the time is over and somebody else has the lock. */
  lemma TimedGivesUp(states: seq<State>, actions: seq<Action>, i: nat, j: nat, t: Tid, spin: bool)
    requires IsRun(states, actions) && i < j < |states|
    requires actions[i] == Lock(t, spin, true) && NeverOwns(states, t, i, j) && states[j].pcs[t].Outside?
    ensures exists k :: i < k < j && TimesOut(states[k], actions[k], t) && Owners(states[k]) - {t} != {}
  {
    TriesUntil(states, actions, i, j, t, spin, true);
    var k :| i < k < j && TimesOut(states[k], actions[k], t);
    DownIsOwned(states, actions, k, t);
  }

  lemma DownIsOwned(states: seq<State>, actions: seq<Action>, k: nat, t: Tid)
    requires IsRun(states, actions) && k < |states|
    requires states[k].sem == 0 && t in states[k].pcs && !Owns(states[k].pcs[t])
    ensures Owners(states[k]) - {t} != {}
  {
    var m := RunRefinesMutex(states, actions, k);
    assert m.value in Owners(states[k]) - {t};
  }

  /** Threads stay the same, each in some place, and a thread that takes part exists. */
  lemma {:induction false} PcsStay(states: seq<State>, actions: seq<Action>, i: nat, j: nat)
    requires IsRun(states, actions) && i <= j < |states|
    ensures states[j].pcs.Keys == states[i].pcs.Keys
    ensures i < j ==> actions[i].t in states[i].pcs
    decreases j
  {
    if i < j {
      PcsStay(states, actions, i, j - 1);
      assert Apply(states[j - 1], actions[j - 1]) == Some(states[j]);
      assert Apply(states[i], actions[i]) == Some(states[i + 1]);
    }
  }

  // ---------------------------------------------------------------------
  // Spinning
  // ---------------------------------------------------------------------

  /** Steps of thread `t` from `i` on, before `j`: while it spins, looks at the clock and the flag. */
  function Looks(actions: seq<Action>, t: Tid, i: nat, j: nat): nat
    requires i <= j <= |actions|
    decreases j
  {
    if i == j then 0 else Looks(actions, t, i, j - 1) + if actions[j - 1].Step? && actions[j - 1].t == t then 1 else 0
  }

  ghost predicate SpinsUntil(states: seq<State>, t: Tid, i: nat, j: nat)
    requires j < |states|
  {
    forall k :: i < k <= j ==> t in states[k].pcs && states[k].pcs[t].Spinning?
  }

  lemma SpinStep(s: State, a: Action, t: Tid)
    requires Apply(s, a).Some? && t in s.pcs && s.pcs[t].Spinning?
    ensures
      var pc, pc' := s.pcs[t], Apply(s, a).value.pcs[t];
      pc'.Spinning? ==> pc' == Spinning(if a.Step? && a.t == t then pc.times + 1 else pc.times, pc.timed)
  {
  }

  /** A spinning thread counts its looks. */
  lemma {:induction false} SpinCounts(states: seq<State>, actions: seq<Action>, i: nat, j: nat, t: Tid, timed: bool)
    requires IsRun(states, actions) && i < j < |states|
    requires actions[i] == Lock(t, true, timed) && SpinsUntil(states, t, i, j)
    ensures states[j].pcs[t] == Spinning(Looks(actions, t, i + 1, j), timed)
    decreases j
  {
    assert Apply(states[j - 1], actions[j - 1]) == Some(states[j]);
    if i < j - 1 {
      SpinCounts(states, actions, i, j - 1, t, timed);
      SpinStep(states[j - 1], actions[j - 1], t);
    }
  }

  /**
   * A thread that was asked to spin does. A look ends that if and only if the
   * 6ms are over, the flag is not LOCKED, or more than 8192 looks came before;
   * then it waits for the semaphore.
   */
  lemma SpinEndsIff(states: seq<State>, actions: seq<Action>, i: nat, j: nat, t: Tid, timed: bool)
    requires IsRun(states, actions) && i < j < |actions|
    requires actions[i] == Lock(t, true, timed)
    ensures states[i + 1].pcs[t] == Spinning(0, timed)
    ensures SpinsUntil(states, t, i, j) && actions[j].Step? && actions[j].t == t ==>
      (states[j + 1].pcs[t] == Waiting(timed) <==>
         actions[j].late || states[j].flag != LOCKED || Looks(actions, t, i + 1, j) > 8192)
      && (states[j + 1].pcs[t].Waiting? || states[j + 1].pcs[t].Spinning?)
  {
    var m := RunRefinesMutex(states, actions, i);
    assert Apply(states[i], actions[i]) == Some(states[i + 1]);
    assert Apply(states[j], actions[j]) == Some(states[j + 1]);
    if SpinsUntil(states, t, i, j) {
      SpinCounts(states, actions, i, j, t, timed);
      var n := RunRefinesMutex(states, actions, j);
    }
  }

  // ---------------------------------------------------------------------
  // Taking and giving back
  // ---------------------------------------------------------------------

  /** Three steps of thread `t` in a row. */
  ghost predicate ThreeSteps(s: State, t: Tid, u: State, v: State, s': State) {
    && Apply(s, Step(t, false)) == Some(u)
    && Apply(u, Step(t, false)) == Some(v)
    && Apply(v, Step(t, false)) == Some(s')
  }

  /**
   * While nobody owns the lock a thread that tries gets it by its own steps:
   * one to stop spinning, if it spins, and three to take the semaphore, write
   * LOCKED and write its pid.
   */
  lemma FreeIsTaken(states: seq<State>, actions: seq<Action>, n: nat, t: Tid)
    returns (w: State, u: State, v: State, s': State)
    requires IsRun(states, actions) && n < |states| && Owners(states[n]) == {}
    requires states[n].Has(t) && (states[n].pcs[t].Waiting? || states[n].pcs[t].Spinning?)
    ensures if states[n].pcs[t].Spinning? then Apply(states[n], Step(t, false)) == Some(w) else w == states[n]
    ensures ThreeSteps(w, t, u, v, s')
    ensures s'.pcs == states[n].pcs[t := Inside] && s'.sem == 0 && s'.flag == LOCKED && s'.pid == states[n].pids[t]
  {
    var s := states[n];
    NobodyOwns(states, actions, n);
    w := if s.pcs[t].Spinning? then s.At(t, Waiting(s.pcs[t].timed)) else s;
    u := w.At(t, Marking).(sem := 0);
    v := u.At(t, Signing).(flag := LOCKED);
    s' := v.At(t, Inside).(pid := s.pids[t]);
    assert s'.pcs == s.pcs[t := Inside];
  }

  lemma NobodyOwns(states: seq<State>, actions: seq<Action>, n: nat)
    requires IsRun(states, actions) && n < |states| && Owners(states[n]) == {}
    ensures states[n].sem == 1 && states[n].flag == UNLOCKED
  {
    SemaphorePlusOwners(states, actions, n);
    forall t | t in states[n].pcs ensures !Marked(states[n].pcs[t]) {
      assert t !in Owners(states[n]);
    }
  }

  /** The owner can unlock, and three steps later nobody owns the lock. */
  lemma HeldIsReleased(states: seq<State>, actions: seq<Action>, n: nat, t: Tid)
    returns (w: State, u: State, v: State, s': State)
    requires IsRun(states, actions) && n < |states| && states[n].Has(t) && states[n].pcs[t].Inside?
    ensures Apply(states[n], Unlock(t)) == Some(w) && ThreeSteps(w, t, u, v, s')
    ensures s'.pcs == states[n].pcs[t := Outside] && s'.sem == 1 && s'.flag == UNLOCKED
  {
    var m := RunRefinesMutex(states, actions, n);
    var s := states[n];
    assert Owns(s.pcs[t]);
    w := s.At(t, Clearing);
    u := w.At(t, Valuing).(flag := UNLOCKED);
    v := u.At(t, Posting);
    s' := v.At(t, Outside).(sem := 1);
    assert s'.pcs == s.pcs[t := Outside];
  }
}
