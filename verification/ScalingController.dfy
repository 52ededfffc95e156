/** How many worker processes a service has (MultiProcessManager.py). */
module ScalingController {
  import opened Lists
  import Strings
  import opened TimeSeries
  import opened Wrappers

  datatype Config = Config(
    minProc: nat, maxProc: nat, maxMem: Option<nat>, newCpu: real, newSecs: real, killSecs: real)

  datatype Error = IndexError | KeyError | ZeroDivisionError

  datatype Change = Keep | Add | Remove | Raise(error: Error)

  /** What one tick looks at, once the dead have been removed. */
  datatype Stats = Stats(newAvg: Option<Average>, killAvg: Option<Average>, last: Record)

  function CpuDriven(c: Config, count: nat, sinceOp: real, s: Stats): Change
    requires s.newAvg.Some? && s.killAvg.Some?
  {
    var a, b := s.newAvg.value, s.killAvg.value;
    if sinceOp > c.newSecs && a.cpu.None? then Raise(KeyError)
    else if sinceOp > c.newSecs && a.processes == 0.0 then Raise(ZeroDivisionError)
    else if sinceOp > c.newSecs && a.cpu.value / a.processes > c.newCpu * 100.0 && count < c.maxProc then Add
    else if sinceOp > c.killSecs && b.cpu.None? then Raise(KeyError)
    else if sinceOp > c.killSecs && b.cpu.value < c.newCpu * 100.0 && count > c.minProc then Remove
    else Keep
  }

  /** The branches of `__monitor_process` after its loop. */
  function Decide(c: Config, count: nat, sinceOp: real, s: Stats): (r: Change)
    ensures r.Remove? ==> count > 0
  {
    if count < c.minProc then Add
    else if s.newAvg.None? || s.killAvg.None? then Keep
    else if c.maxMem.Some? && s.last.usage.None? then Raise(KeyError)
    else if c.maxMem.Some? && s.last.usage.value.mem > c.maxMem.value then
      if count == 0 then Raise(IndexError) else Remove
    else CpuDriven(c, count, sinceOp, s)
  }

  /** The averages over the two periods and the newest sample. */
  function StatsAt(c: Config, records: seq<Record>, now: real): Stats
    requires records != []
  {
    Stats(AverageOf(Filter(records, Within(now - c.newSecs, now))),
          AverageOf(Filter(records, Within(now - c.killSecs, now))), records[0])
  }

  predicate MemoryPressure(c: Config, s: Stats) {
    c.maxMem.Some? && s.last.usage.Some? && s.last.usage.value.mem > c.maxMem.value
  }

  /** The loop at pid `i` of its copy, when `kept` is what it has left of those before. */
  lemma NextPid(copy: seq<Pid>, i: nat, kept: seq<Pid>, alive: Pid -> bool)
    requires i < |copy| && kept == Filter(copy[..i], alive)
    ensures copy[i] in kept + copy[i..]
    ensures
      if alive(copy[i]) then
        kept + [copy[i]] == Filter(copy[..i + 1], alive) && kept + copy[i..] == kept + [copy[i]] + copy[i + 1..]
      else
        kept == Filter(copy[..i + 1], alive) && Removed(kept + copy[i..], copy[i]) == kept + copy[i + 1..]
  {
    FilterNext(copy, i, alive);
    assert copy[i..] == [copy[i]] + copy[i + 1..];
    if alive(copy[i]) {
      Strings.Assoc(kept, [copy[i]], copy[i + 1..]);
    } else {
      FilterHas(copy[..i], alive, copy[i]);
      RemovedBehind(kept, copy[i], copy[i + 1..]);
      assert kept + [] == kept;
    }
  }

  class MultiProcessManager {
    const config: Config
    const series: TimeSeriesData
    var pids: seq<Pid>          // LPIDs
    var lastOp: real            // last_proc_op_time

    constructor (config: Config, series: TimeSeriesData)
      ensures this.config == config && this.series == series && pids == [] && lastOp == 0.0
    {
      this.config, this.series, pids, lastOp := config, series, [], 0.0;
    }

    method NewChildProcess(pid: Pid, now: real)
      modifies this
      ensures pids == old(pids) + [pid] && lastOp == now
    {
      lastOp := now;
      pids := pids + [pid];
    }

    /** With a pid; without one the pid is chosen from the list at random, which must not be empty. */
    method RemoveChildProcess(pid: Pid, now: real)
      requires pid in pids
      modifies this
      ensures pids == Removed(old(pids), pid) && lastOp == now
    {
      lastOp := now;
      pids := RemoveFirst(pids, pid);
    }

    /** `start_service`, given the pids of the forks. */
    method StartService(forks: seq<Pid>, now: real)
      requires |forks| == config.minProc
      modifies this
      ensures pids == old(pids) + forks
    {
      for x := 0 to config.minProc
        invariant pids == old(pids) + forks[..x]
      {
        assert forks[..x + 1] == forks[..x] + [forks[x]];
        NewChildProcess(forks[x], now);
      }
      assert forks[..|forks|] == forks;
    }

    /** The loop over a copy of the list: processes that are gone, or zombies, are removed. */
    method RemoveDead(alive: Pid -> bool, now: real)
      modifies this
      ensures pids == Filter(old(pids), alive)
      ensures lastOp == if |pids| == |old(pids)| then old(lastOp) else now
    {
      var copy := pids;
      ghost var kept: seq<Pid> := [];
      for i := 0 to |copy|
        invariant kept == Filter(copy[..i], alive) && pids == kept + copy[i..]
        invariant lastOp == if |pids| == |copy| then old(lastOp) else now
      {
        var pid := copy[i];
        NextPid(copy, i, kept, alive);
        if !alive(pid) {
          RemoveChildProcess(pid, now);
        } else {
          kept := kept + [pid];
        }
      }
      assert copy[..|copy|] == copy;
    }
  
    /**
     * One tick: the dead go, and then at most one process comes or goes, as
     * the statistics `s` decide. With records that each count a process it
     * never divides by zero, and it fails for want of a process to remove
     * exactly when a service that may have none has none and its last sample
     * exceeds the memory limit.
     */
    method MonitorProcess(now: real, alive: Pid -> bool, fork: Pid, choice: nat)
        returns (r: Result<(), Error>, ghost s: Stats)
      requires series.Valid()
      modifies this
      ensures s == StatsAt(config, series.records, now)
      ensures
        var left := Filter(old(pids), alive);
        var e := Env(now, |old(pids)| - |left|, s);
        && Ctl(|pids|, lastOp) == Tick(config, Ctl(|old(pids)|, old(lastOp)), e)
        && Carried(left, pids, fork, Decided(config, Ctl(|old(pids)|, old(lastOp)), e), r)
      ensures Counted(series.records) && now > config.newSecs ==> r != Failure(ZeroDivisionError)
      ensures r == Failure(IndexError) <==> |Filter(old(pids), alive)| == 0 && NothingToReap(config, s)
    {
      RemoveDead(alive, now);
      ghost var left, since := pids, now - lastOp;
      r, s := Scale(now, fork, choice);
      StatsErrors(config, series.records, now, |left|, since);
    }

    method ReadStats(now: real) returns (s: Stats)
      requires series.Valid()
      ensures s == StatsAt(config, series.records, now)
    {
      var newAvg := series.GetAverageOver(now - config.newSecs, now);
      var killAvg := series.GetAverageOver(now - config.killSecs, now);
      var last := series.GetLastRecord();
      return Stats(newAvg, killAvg, last);
    }

    /** What follows the loop over the dead. */
    method Scale(now: real, fork: Pid, choice: nat) returns (r: Result<(), Error>, ghost s: Stats)
      requires series.Valid()
      modifies this
      ensures s == StatsAt(config, series.records, now)
      ensures
        var d := Decide(config, |old(pids)|, now - old(lastOp), s);
        && Carried(old(pids), pids, fork, d, r)
        && lastOp == if d.Add? || d.Remove? then now else old(lastOp)
    {
      if |pids| < config.minProc {
        NewChildProcess(fork, now);
        return Success(()), StatsAt(config, series.records, now);
      }
      var stats := ReadStats(now);
      r := ScaleByStats(now, fork, choice, stats);
      s := stats;
    }

    method ScaleByStats(now: real, fork: Pid, choice: nat, s: Stats) returns (r: Result<(), Error>)
      requires |pids| >= config.minProc
      modifies this
      ensures
        var d := Decide(config, |old(pids)|, now - old(lastOp), s);
        && Carried(old(pids), pids, fork, d, r)
        && lastOp == if d.Add? || d.Remove? then now else old(lastOp)
    {
      if s.newAvg.None? || s.killAvg.None? {
        return Success(());
      }
      if config.maxMem.Some? && s.last.usage.None? {
        return Failure(KeyError);
      }
      if config.maxMem.Some? && s.last.usage.value.mem > config.maxMem.value {
        if pids == [] {
          return Failure(IndexError);
        }
        RemoveChildProcess(pids[choice % |pids|], now);
        return Success(());
      }
      r := ScaleByCpu(now, fork, choice, s);
    }

    method ScaleByCpu(now: real, fork: Pid, choice: nat, s: Stats) returns (r: Result<(), Error>)
      requires s.newAvg.Some? && s.killAvg.Some?
      modifies this
      ensures
        var d := CpuDriven(config, |old(pids)|, now - old(lastOp), s);
        && Carried(old(pids), pids, fork, d, r)
        && lastOp == if d.Add? || d.Remove? then now else old(lastOp)
    {
      var newAvg, killAvg := s.newAvg.value, s.killAvg.value;
      var sinceOp := now - lastOp;
      if sinceOp > config.newSecs {
        if newAvg.cpu.None? {
          return Failure(KeyError);
        }
        if newAvg.processes == 0.0 {
          return Failure(ZeroDivisionError);
        }
        if newAvg.cpu.value / newAvg.processes > config.newCpu * 100.0 && |pids| < config.maxProc {
          NewChildProcess(fork, now);
          return Success(());
        }
      }
      if sinceOp > config.killSecs {
        if killAvg.cpu.None? {
          return Failure(KeyError);
        }
        if killAvg.cpu.value < config.newCpu * 100.0 && |pids| > config.minProc {
          RemoveChildProcess(pids[choice % |pids|], now);
        }
      }
      return Success(());
    }
  }

  /** The change `d` to the pids `before`, with any one of them removed, and its outcome. */
  predicate Carried(before: seq<Pid>, after: seq<Pid>, fork: Pid, d: Change, r: Result<(), Error>) {
    match d
    case Keep => r == Success(()) && after == before
    case Add => r == Success(()) && after == before + [fork]
    case Remove => r == Success(()) && exists pid :: pid in before && after == Removed(before, pid)
    case Raise(error) => r == Failure(error) && after == before
  }

  // ---------------------------------------------------------------------
  // Runs
  // ---------------------------------------------------------------------

  /** What the controller keeps between ticks, but for which pids there are. */
  datatype Ctl = Ctl(count: nat, lastOp: real)

  datatype Env = Env(now: real, dead: nat, stats: Stats)

  function Cleaned(s: Ctl, e: Env): Ctl {
    if e.dead == 0 then s else Ctl(if e.dead <= s.count then s.count - e.dead else 0, e.now)
  }

  function Decided(c: Config, s: Ctl, e: Env): Change {
    Decide(c, Cleaned(s, e).count, e.now - Cleaned(s, e).lastOp, e.stats)
  }

  function Tick(c: Config, s: Ctl, e: Env): Ctl {
    var t := Cleaned(s, e);
    match Decide(c, t.count, e.now - t.lastOp, e.stats)
    case Add => Ctl(t.count + 1, e.now)
    case Remove => Ctl(t.count - 1, e.now)
    case _ => t
  }

  /** A run from `start_service` on, with a clock that does not go back. */
  ghost predicate IsRun(c: Config, states: seq<Ctl>, envs: seq<Env>) {
    && |states| == |envs| + 1
    && states[0].count == c.minProc
    && (forall i {:trigger envs[i]} :: 0 <= i < |envs| ==> states[i + 1] == Tick(c, states[i], envs[i]))
    && (forall i, j :: 0 <= i <= j < |envs| ==> envs[i].now <= envs[j].now)
  }

  /** There are never more workers than the larger of the two limits. */
  lemma {:induction false} NeverTooMany(c: Config, states: seq<Ctl>, envs: seq<Env>, n: nat)
    requires IsRun(c, states, envs) && n < |states|
    ensures states[n].count <= if c.minProc < c.maxProc then c.maxProc else c.minProc
  {
    if n > 0 {
      NeverTooMany(c, states, envs, n - 1);
      assert states[n] == Tick(c, states[n - 1], envs[n - 1]);
    }
  }

  ghost predicate Calm(c: Config, envs: seq<Env>, i: nat, j: nat) {
    forall k :: i <= k < j && k < |envs| ==> envs[k].dead == 0 && !MemoryPressure(c, envs[k].stats)
  }

  /**
   * While nothing dies and memory suffices, a shortfall of `m` workers is
   * repaired in exactly `m` ticks, one a tick, and does not come back.
   */
  lemma {:induction false} ShortfallRepaired(c: Config, states: seq<Ctl>, envs: seq<Env>, i: nat, k: nat)
    requires IsRun(c, states, envs) && i + k < |states| && Calm(c, envs, i, i + k)
    ensures states[i].count + k <= c.minProc ==> states[i + k].count == states[i].count + k
    ensures states[i].count + k >= c.minProc ==> states[i + k].count >= c.minProc
  {
    if k > 0 {
      ShortfallRepaired(c, states, envs, i, k - 1);
      var e := envs[i + k - 1];
      assert e.dead == 0 && !MemoryPressure(c, e.stats);
      assert states[i + k] == Tick(c, states[i + k - 1], e);
    }
  }

  predicate OpAt(c: Config, s: Ctl, e: Env) {
    e.dead > 0 || Decided(c, s, e).Add? || Decided(c, s, e).Remove?
  }

  /** A change made for the sake of CPU usage: neither a shortfall nor memory is the reason. */
  predicate CpuChange(c: Config, s: Ctl, e: Env) {
    && Cleaned(s, e).count >= c.minProc && !MemoryPressure(c, e.stats)
    && (Decided(c, s, e).Add? || Decided(c, s, e).Remove?)
  }

  lemma {:induction false} LastOpIsLast(c: Config, states: seq<Ctl>, envs: seq<Env>, i: nat, j: nat)
    requires IsRun(c, states, envs) && i < j < |states|
    requires OpAt(c, states[i], envs[i])
    ensures envs[i].now <= states[j].lastOp
    decreases j
  {
    assert states[j] == Tick(c, states[j - 1], envs[j - 1]);
    if i < j - 1 {
      LastOpIsLast(c, states, envs, i, j - 1);
      assert envs[i].now <= envs[j - 1].now;
    }
  }

  /**
   * After any change a CPU-driven start of a worker waits for more than the
   * averaging period for starts, and a CPU-driven removal for more than the
   * one for removals.
   */
  lemma QuietPeriods(c: Config, states: seq<Ctl>, envs: seq<Env>, i: nat, j: nat)
    requires IsRun(c, states, envs) && i < j < |envs|
    requires OpAt(c, states[i], envs[i]) && CpuChange(c, states[j], envs[j])
    ensures envs[j].now - envs[i].now > if Decided(c, states[j], envs[j]).Add? then c.newSecs else c.killSecs
  {
    LastOpIsLast(c, states, envs, i, j);
    assert envs[i].now <= envs[j].now;
  }

  /** Every sample has measured some process. */
  predicate AllMeasured(records: seq<Record>) {
    forall i :: 0 <= i < |records| ==> records[i].usage.Some?
  }

  /** Some sample lies within the times, both ends included. */
  ghost predicate SomeWithin(records: seq<Record>, from: real, to: real) {
    exists i :: 0 <= i < |records| && from <= records[i].timestamp as real <= to
  }

  lemma AverageIff(records: seq<Record>, from: real, to: real)
    ensures AverageOf(Filter(records, Within(from, to))).Some? <==> SomeWithin(records, from, to)
  {
    var w := Filter(records, Within(from, to));
    forall i | 0 <= i < |records| ensures records[i] in w <==> from <= records[i].timestamp as real <= to {
      FilterHas(records, Within(from, to), records[i]);
    }
    if w != [] {
      FilterHas(records, Within(from, to), w[0]);
    }
  }

  /** The controller looks at the samples of two periods up to now. */
  lemma NewPeriod(c: Config, records: seq<Record>, now: real)
    requires records != []
    ensures StatsAt(c, records, now).newAvg.Some? <==> SomeWithin(records, now - c.newSecs, now)
  {
    AverageIff(records, now - c.newSecs, now);
  }

  lemma KillPeriod(c: Config, records: seq<Record>, now: real)
    requires records != []
    ensures StatsAt(c, records, now).killAvg.Some? <==> SomeWithin(records, now - c.killSecs, now)
  {
    AverageIff(records, now - c.killSecs, now);
  }

  predicate HasCpu(a: Option<Average>) {
    a.Some? ==> a.value.cpu.Some?
  }

  lemma AverageHasCpu(records: seq<Record>, from: real, to: real)
    requires AllMeasured(records)
    ensures HasCpu(AverageOf(Filter(records, Within(from, to))))
  {
    var w := Filter(records, Within(from, to));
    if w != [] {
      FilterHas(records, Within(from, to), w[|w| - 1]);
    }
  }

  /** Every sample counts at least one process, and the blank ones lie before the averaged period. */
  lemma AveragesCount(c: Config, records: seq<Record>, now: real)
    requires records != [] && Counted(records) && now > c.newSecs
    ensures var a := StatsAt(c, records, now).newAvg; a.Some? ==> a.value.processes >= 1.0
  {
    AverageCounts(records, now - c.newSecs, now);
  }

  lemma AveragesHaveCpu(c: Config, records: seq<Record>, now: real)
    requires records != [] && AllMeasured(records)
    ensures Measured(StatsAt(c, records, now))
  {
    AverageHasCpu(records, now - c.newSecs, now);
    AverageHasCpu(records, now - c.killSecs, now);
  }

  /** No key that the controller asks for is missing. */
  predicate Measured(s: Stats) {
    && HasCpu(s.newAvg)
    && HasCpu(s.killAvg)
    && s.last.usage.Some?
  }

  /** A service that is allowed to have no workers exceeds the memory limit according to its last sample. */
  predicate NothingToReap(c: Config, s: Stats) {
    c.minProc == 0 && s.newAvg.Some? && s.killAvg.Some? && MemoryPressure(c, s)
  }

  lemma DecideErrors(c: Config, count: nat, sinceOp: real, s: Stats)
    ensures s.newAvg.Some? && s.newAvg.value.processes >= 1.0 ==>
      Decide(c, count, sinceOp, s) != Raise(ZeroDivisionError)
    ensures Decide(c, count, sinceOp, s) == Raise(IndexError) <==> count == 0 && NothingToReap(c, s)
    ensures Measured(s) ==> Decide(c, count, sinceOp, s) != Raise(KeyError)
  {
  }

  /** The errors of a decision on the averages of samples that each count a process. */
  lemma StatsErrors(c: Config, records: seq<Record>, now: real, count: nat, sinceOp: real)
    requires records != []
    ensures
      var d := Decide(c, count, sinceOp, StatsAt(c, records, now));
      && (Counted(records) && now > c.newSecs ==> d != Raise(ZeroDivisionError))
      && (d == Raise(IndexError) <==> count == 0 && NothingToReap(c, StatsAt(c, records, now)))
  {
    DecideErrors(c, count, sinceOp, StatsAt(c, records, now));
    if Counted(records) && now > c.newSecs {
      AveragesCount(c, records, now);
    }
  }

  /** The controller of a run looks at the samples `series` of its ticks, later than an averaging period after 0. */
  ghost predicate Sampled(c: Config, envs: seq<Env>, series: seq<seq<Record>>) {
    && |series| == |envs|
    && forall i :: 0 <= i < |envs| ==>
         && series[i] != [] && Counted(series[i]) && envs[i].now > c.newSecs
         && envs[i].stats == StatsAt(c, series[i], envs[i].now)
  }

  /**
   * No tick of any run divides by zero. A tick has no process to remove
   * exactly if none is left, none is required and the last sample exceeds the
   * memory limit, so never with a positive minimum. Where every sample has
   * measured a process no key is missing.
   */
  lemma RunErrors(c: Config, states: seq<Ctl>, envs: seq<Env>, series: seq<seq<Record>>, i: nat)
    requires IsRun(c, states, envs) && Sampled(c, envs, series) && i < |envs|
    ensures
      var d := Decided(c, states[i], envs[i]);
      && d != Raise(ZeroDivisionError)
      && (d == Raise(IndexError) <==> Cleaned(states[i], envs[i]).count == 0 && NothingToReap(c, envs[i].stats))
      && (c.minProc > 0 ==> d != Raise(IndexError))
      && (AllMeasured(series[i]) ==> d != Raise(KeyError))
  {
    TickErrors(c, states[i], envs[i], series[i]);
  }

  lemma TickErrors(c: Config, s: Ctl, e: Env, records: seq<Record>)
    requires records != [] && Counted(records) && e.now > c.newSecs && e.stats == StatsAt(c, records, e.now)
    ensures
      var d := Decided(c, s, e);
      && d != Raise(ZeroDivisionError)
      && (d == Raise(IndexError) <==> Cleaned(s, e).count == 0 && NothingToReap(c, e.stats))
      && (c.minProc > 0 ==> d != Raise(IndexError))
      && (AllMeasured(records) ==> d != Raise(KeyError))
  {
    var left := Cleaned(s, e);
    AveragesCount(c, records, e.now);
    DecideErrors(c, left.count, e.now - left.lastOp, e.stats);
    if AllMeasured(records) {
      AveragesHaveCpu(c, records, e.now);
    }
  }

  // ---------------------------------------------------------------------
  // Falling below the minimum
  // ---------------------------------------------------------------------

  /** A worker is reaped although no more than the required ones are left. */
  predicate ReapsRequired(c: Config, count: nat, s: Stats) {
    count == c.minProc >= 1 && s.newAvg.Some? && s.killAvg.Some? && MemoryPressure(c, s)
  }

  /**
   * After a tick there are too few workers exactly if so many have died that
   * one start does not make up for it, or the last required one is reaped for
   * the memory of the last sample.
   */
  lemma TooFewIff(c: Config, s: Ctl, e: Env)
    ensures Tick(c, s, e).count < c.minProc <==>
      var left := Cleaned(s, e).count;
      left + 1 < c.minProc || ReapsRequired(c, left, e.stats)
  {
  }

  ghost predicate NoneDie(envs: seq<Env>) {
    forall i :: 0 <= i < |envs| ==> envs[i].dead == 0
  }

  /** A run in which nothing dies falls below the minimum if and only if at some tick memory costs a required worker. */
  lemma {:induction false} FallsShortIff(c: Config, states: seq<Ctl>, envs: seq<Env>, n: nat)
    requires IsRun(c, states, envs) && NoneDie(envs) && n <= |envs|
    ensures (exists i :: 0 <= i <= n && states[i].count < c.minProc)
       <==> exists i :: 0 <= i < n && ReapsRequired(c, states[i].count, envs[i].stats)
  {
    if n > 0 {
      var e := envs[n - 1];
      FallsShortIff(c, states, envs, n - 1);
      assert e.dead == 0 && states[n] == Tick(c, states[n - 1], e);
      TooFewIff(c, states[n - 1], e);
    }
  }

  /** At ticks `i` to `j` nothing dies, there are averages, and the last sample exceeds the memory limit. */
  ghost predicate Pressed(c: Config, envs: seq<Env>, i: nat, j: nat) {
    forall k :: i <= k < j && k < |envs| ==>
      && envs[k].dead == 0 && MemoryPressure(c, envs[k].stats)
      && envs[k].stats.newAvg.Some? && envs[k].stats.killAvg.Some?
  }

  /**
   * For as long as the memory limit stays exceeded, a service at its minimum
   * has one worker too few after every other tick, and gets it back after the
   * ticks in between: more ticks do not make it smaller.
   */
  lemma {:induction false} MemoryPressureFlaps(c: Config, states: seq<Ctl>, envs: seq<Env>, i: nat, k: nat)
    requires IsRun(c, states, envs) && i + k < |states| && Pressed(c, envs, i, i + k)
    requires states[i].count == c.minProc >= 1
    ensures states[i + k].count == if k % 2 == 0 then c.minProc else c.minProc - 1
  {
    if k > 0 {
      MemoryPressureFlaps(c, states, envs, i, k - 1);
      var e := envs[i + k - 1];
      assert e.dead == 0 && MemoryPressure(c, e.stats);
      assert states[i + k] == Tick(c, states[i + k - 1], e);
    }
  }

  /** Above its minimum such a service loses a worker at every tick, down to the minimum. */
  lemma {:induction false} MemoryPressureReaps(c: Config, states: seq<Ctl>, envs: seq<Env>, i: nat, k: nat)
    requires IsRun(c, states, envs) && i + k < |states| && Pressed(c, envs, i, i + k)
    requires states[i].count >= c.minProc + k
    ensures states[i + k].count == states[i].count - k
  {
    if k > 0 {
      MemoryPressureReaps(c, states, envs, i, k - 1);
      var e := envs[i + k - 1];
      assert e.dead == 0 && MemoryPressure(c, e.stats);
      assert states[i + k] == Tick(c, states[i + k - 1], e);
    }
  }
}
