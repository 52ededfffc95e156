/** Which CPU usage makes a service grow or shrink, at one tick and over runs (MultiProcessManager.py). */
module ScalingByCpu {
  import opened ScalingController
  import opened TimeSeries
  import opened Wrappers

  /** There are averages with a CPU usage over some processes, and memory is no reason to remove a worker. */
  predicate Plain(c: Config, s: Stats) {
    && s.newAvg.Some? && s.newAvg.value.cpu.Some? && s.newAvg.value.processes > 0.0
    && s.killAvg.Some? && s.killAvg.value.cpu.Some?
    && (c.maxMem.Some? ==> s.last.usage.Some? && s.last.usage.value.mem <= c.maxMem.value)
  }

  /** Nothing has died and no worker is missing. */
  predicate PlainTick(c: Config, s: Ctl, e: Env) {
    e.dead == 0 && s.count >= c.minProc && Plain(c, e.stats)
  }

  /** More than `newCpu` of a CPU is used for each process. */
  predicate Busy(c: Config, s: Stats)
    requires Plain(c, s)
  {
    s.newAvg.value.cpu.value > c.newCpu * 100.0 * s.newAvg.value.processes
  }

  /** Less than `newCpu` of a CPU is used by all processes together. */
  predicate Idle(c: Config, s: Stats)
    requires Plain(c, s)
  {
    s.killAvg.value.cpu.value < c.newCpu * 100.0
  }

  lemma PerProcess(x: real, n: real, y: real)
    requires n > 0.0
    ensures x / n > y <==> x > y * n
  {
    assert x / n * n == x;
    if x / n > y {
      Scaled(y, x / n, n);
    } else {
      Scaled(x / n, y, n);
    }
  }

  lemma Scaled(x: real, y: real, n: real)
    requires n > 0.0
    ensures x < y ==> x * n < y * n
    ensures x <= y ==> x * n <= y * n
  {
  }

  /**
   * A worker is started for the sake of CPU usage if and only if nothing has
   * changed for longer than the averaging period for starts, the processes
   * are busy, and there may be more. One is removed if and only if that is not
   * so, nothing has changed for longer than the period for removals, they are
   * idle, and there may be fewer. Only then is the time of the change noted.
   */
  lemma ChangesIff(c: Config, s: Ctl, e: Env)
    requires PlainTick(c, s, e)
    ensures
      var t, since := Tick(c, s, e), e.now - s.lastOp;
      var starts := since > c.newSecs && Busy(c, e.stats) && s.count < c.maxProc;
      && (t.count > s.count <==> starts)
      && (t.count < s.count <==> !starts && since > c.killSecs && Idle(c, e.stats) && s.count > c.minProc)
      && t.count <= s.count + 1 && s.count <= t.count + 1
      && t.lastOp == if t.count == s.count then s.lastOp else e.now
  {
    var a := e.stats.newAvg.value;
    PerProcess(a.cpu.value, a.processes, c.newCpu * 100.0);
  }

  /** Without averages only a shortfall changes anything. */
  lemma BlindTick(c: Config, s: Ctl, e: Env)
    requires e.dead == 0 && s.count >= c.minProc && (e.stats.newAvg.None? || e.stats.killAvg.None?)
    ensures Tick(c, s, e) == s
  {
  }

  // ---------------------------------------------------------------------
  // Sustained load, and sustained idling
  // ---------------------------------------------------------------------

  /** At ticks `i` to `j`, which come at most `gap` seconds after each other, nothing dies and the processes are busy. */
  ghost predicate Overloaded(c: Config, envs: seq<Env>, gap: real, i: nat, j: nat)
    requires j <= |envs|
  {
    && (forall k {:trigger envs[k]} :: i <= k < j ==>
          envs[k].dead == 0 && Plain(c, envs[k].stats) && Busy(c, envs[k].stats) && !Idle(c, envs[k].stats))
    && Regular(envs, gap, i, j)
  }

  ghost predicate Unloaded(c: Config, envs: seq<Env>, gap: real, i: nat, j: nat)
    requires j <= |envs|
  {
    && (forall k {:trigger envs[k]} :: i <= k < j ==>
          envs[k].dead == 0 && Plain(c, envs[k].stats) && !Busy(c, envs[k].stats) && Idle(c, envs[k].stats))
    && Regular(envs, gap, i, j)
  }

  ghost predicate Regular(envs: seq<Env>, gap: real, i: nat, j: nat)
    requires j <= |envs|
  {
    forall k :: i < k < j ==> envs[k].now <= envs[k - 1].now + gap
  }

  /** `n` times `p`. */
  function Times(n: nat, p: real): real {
    if n == 0 then 0.0 else Times(n - 1, p) + p
  }

  lemma {:induction false} TimesGrows(m: nat, n: nat, p: real)
    requires m <= n && p >= 0.0
    ensures Times(m, p) <= Times(n, p)
  {
    if m < n {
      TimesGrows(m, n - 1, p);
    }
  }

  /** The `n`-th change since `base` came at most `n` periods `p` later. */
  predicate OnTime(n: nat, lastOp: real, base: real, p: real) {
    lastOp <= base + Times(n, p)
  }

  lemma BusyStep(c: Config, s: Ctl, e: Env, gap: real, start: nat, base: real)
    requires PlainTick(c, s, e) && Busy(c, e.stats) && !Idle(c, e.stats) && c.newSecs >= 0.0 && gap >= 0.0
    requires start <= s.count && OnTime(s.count - start, s.lastOp, base, c.newSecs + gap)
    requires s.count < c.maxProc ==> e.now - s.lastOp <= c.newSecs + gap || e.now <= base
    ensures
      var t := Tick(c, s, e);
      && s.count <= t.count && OnTime(t.count - start, t.lastOp, base, c.newSecs + gap)
      && (t.count < c.maxProc ==> e.now - t.lastOp <= c.newSecs)
  {
    ChangesIff(c, s, e);
    TimesGrows(0, s.count - start, c.newSecs + gap);
  }

  /**
   * Under sustained load the number of workers never falls, and as long as it
   * is below the maximum each further worker comes at most the averaging
   * period and one tick after the one before.
   */
  lemma {:induction false} OverloadGrows(c: Config, states: seq<Ctl>, envs: seq<Env>, gap: real, i: nat, j: nat)
    requires IsRun(c, states, envs) && i < j <= |envs| && Overloaded(c, envs, gap, i, j)
    requires c.minProc <= states[i].count && states[i].lastOp <= envs[i].now && c.newSecs >= 0.0 && gap >= 0.0
    ensures states[i].count <= states[j - 1].count <= states[j].count
    ensures OnTime(states[j].count - states[i].count, states[j].lastOp, envs[i].now, c.newSecs + gap)
    ensures states[j].count < c.maxProc ==> envs[j - 1].now - states[j].lastOp <= c.newSecs
    decreases j
  {
    var n, e := j - 1, envs[j - 1];
    assert states[j] == Tick(c, states[n], e);
    if i < n {
      OverloadGrows(c, states, envs, gap, i, n);
    }
    BusyStep(c, states[n], e, gap, states[i].count, envs[i].now);
  }

  /** So after a period and a tick for each worker that may still come, there are as many as there may be. */
  lemma OverloadReachesMax(c: Config, states: seq<Ctl>, envs: seq<Env>, gap: real, i: nat, j: nat)
    requires IsRun(c, states, envs) && i < j <= |envs| && Overloaded(c, envs, gap, i, j)
    requires c.minProc <= states[i].count <= c.maxProc && states[i].lastOp <= envs[i].now
    requires c.newSecs >= 0.0 && gap >= 0.0
    requires envs[j - 1].now > envs[i].now + Times(c.maxProc - states[i].count, c.newSecs + gap) + c.newSecs
    ensures states[j].count == c.maxProc
  {
    OverloadGrows(c, states, envs, gap, i, j);
    NeverTooMany(c, states, envs, j);
    TimesGrows(states[j].count - states[i].count, c.maxProc - states[i].count, c.newSecs + gap);
  }

  lemma IdleStep(c: Config, s: Ctl, e: Env, gap: real, start: nat, base: real)
    requires PlainTick(c, s, e) && !Busy(c, e.stats) && Idle(c, e.stats) && c.killSecs >= 0.0 && gap >= 0.0
    requires s.count <= start && OnTime(start - s.count, s.lastOp, base, c.killSecs + gap)
    requires s.count > c.minProc ==> e.now - s.lastOp <= c.killSecs + gap || e.now <= base
    ensures
      var t := Tick(c, s, e);
      && c.minProc <= t.count <= s.count && OnTime(start - t.count, t.lastOp, base, c.killSecs + gap)
      && (t.count > c.minProc ==> e.now - t.lastOp <= c.killSecs)
  {
    ChangesIff(c, s, e);
    TimesGrows(0, start - s.count, c.killSecs + gap);
  }

  /**
   * Under sustained idling the number of workers never rises and never falls
   * below the minimum, and as long as it is above it each further worker goes
   * at most the averaging period and one tick after the one before.
   */
  lemma {:induction false} IdlingShrinks(c: Config, states: seq<Ctl>, envs: seq<Env>, gap: real, i: nat, j: nat)
    requires IsRun(c, states, envs) && i < j <= |envs| && Unloaded(c, envs, gap, i, j)
    requires c.minProc <= states[i].count && states[i].lastOp <= envs[i].now && c.killSecs >= 0.0 && gap >= 0.0
    ensures c.minProc <= states[j].count <= states[j - 1].count <= states[i].count
    ensures OnTime(states[i].count - states[j].count, states[j].lastOp, envs[i].now, c.killSecs + gap)
    ensures states[j].count > c.minProc ==> envs[j - 1].now - states[j].lastOp <= c.killSecs
    decreases j
  {
    var n, e := j - 1, envs[j - 1];
    assert states[j] == Tick(c, states[n], e);
    if i < n {
      IdlingShrinks(c, states, envs, gap, i, n);
    }
    IdleStep(c, states[n], e, gap, states[i].count, envs[i].now);
  }

  /** So after a period and a tick for each worker that may still go, the minimum is left. */
  lemma IdlingReachesMin(c: Config, states: seq<Ctl>, envs: seq<Env>, gap: real, i: nat, j: nat)
    requires IsRun(c, states, envs) && i < j <= |envs| && Unloaded(c, envs, gap, i, j)
    requires c.minProc <= states[i].count && states[i].lastOp <= envs[i].now
    requires c.killSecs >= 0.0 && gap >= 0.0
    requires envs[j - 1].now > envs[i].now + Times(states[i].count - c.minProc, c.killSecs + gap) + c.killSecs
    ensures states[j].count == c.minProc
  {
    IdlingShrinks(c, states, envs, gap, i, j);
    TimesGrows(states[i].count - states[j].count, states[i].count - c.minProc, c.killSecs + gap);
  }
}
