/** Samples of a service's processes and their averages (logger/time_series_data). */
module TimeSeries {
  import opened Lists
  import opened Wrappers

  type Pid = nat

  /** What is added up over the processes of a sample. */
  datatype Usage = Usage(cpu: nat, mem: nat)

  /** The keys of `usage` are missing when no process of the sample could be looked at. */
  datatype Record = Record(timestamp: int, processes: nat, usage: Option<Usage>)

  const BLANK: Record := Record(0, 0, Some(Usage(0, 0)))

  /** `get_average_over`; the empty dict is None, a missing key makes `cpu` None. */
  datatype Average = Average(processes: real, cpu: Option<real>)

  function Within(from: real, to: real): Record -> bool {
    (r: Record) => from <= r.timestamp as real <= to
  }

  function Processes(w: seq<Record>): nat {
    if w == [] then 0 else Processes(w[..|w| - 1]) + w[|w| - 1].processes
  }

  function Cpu(w: seq<Record>): nat {
    if w == [] then 0
    else Cpu(w[..|w| - 1]) + match w[|w| - 1].usage case Some(u) => u.cpu case None => 0
  }

  predicate HasUsage(w: seq<Record>) {
    w != [] && (HasUsage(w[..|w| - 1]) || w[|w| - 1].usage.Some?)
  }

  function AverageOf(w: seq<Record>): Option<Average> {
    if w == [] then None
    else Some(Average(Processes(w) as real / |w| as real,
                      if HasUsage(w) then Some(Cpu(w) as real / |w| as real) else None))
  }

  lemma PushRecord(w: seq<Record>, r: Record)
    ensures Processes(w + [r]) == Processes(w) + r.processes
    ensures Cpu(w + [r]) == Cpu(w) + match r.usage case Some(u) => u.cpu case None => 0
    ensures HasUsage(w + [r]) <==> HasUsage(w) || r.usage.Some?
  {
    var v := w + [r];
    assert v[..|v| - 1] == w;
  }

  lemma {:induction false} AtLeastOneEach(w: seq<Record>)
    requires forall i :: 0 <= i < |w| ==> w[i].processes >= 1
    ensures Processes(w) >= |w|
  {
    if w != [] {
      AtLeastOneEach(w[..|w| - 1]);
    }
  }

  lemma Quotient(x: int, n: int)
    requires x >= n > 0
    ensures x as real / n as real >= 1.0
  {
  }

  /** The CPU usage of each record lies between `lo` and `hi`. */
  predicate CpuWithin(w: seq<Record>, lo: nat, hi: nat) {
    forall i :: 0 <= i < |w| ==> w[i].usage.Some? && lo <= w[i].usage.value.cpu <= hi
  }

  lemma {:induction false} SumsBetween(w: seq<Record>, lo: nat, hi: nat)
    requires CpuWithin(w, lo, hi)
    ensures |w| * lo <= Cpu(w) <= |w| * hi
    ensures w != [] ==> HasUsage(w)
  {
    if w != [] {
      var n := |w| - 1;
      SumsBetween(w[..n], lo, hi);
      OneMore(n, lo);
      OneMore(n, hi);
    }
  }

  lemma OneMore(n: nat, x: nat)
    ensures (n + 1) * x == n * x + x
  {
  }

  lemma QuotientBetween(x: nat, n: nat, lo: nat, hi: nat)
    requires n > 0 && n * lo <= x <= n * hi
    ensures lo as real <= x as real / n as real <= hi as real
  {
    QuotientTimes(x, n);
    assert (n * lo) as real == n as real * lo as real && (n * hi) as real == n as real * hi as real;
  }

  lemma QuotientTimes(x: nat, n: nat)
    requires n > 0
    ensures x as real / n as real * n as real == x as real
  {
  }

  /**
   * An average lies between the least and the greatest of its samples, so
   * equal samples have themselves as their average; and times their number it
   * is their sum.
   */
  lemma AverageBetween(w: seq<Record>, lo: nat, hi: nat)
    requires w != [] && CpuWithin(w, lo, hi)
    ensures
      var a := AverageOf(w);
      && a.Some? && a.value.cpu.Some? && lo as real <= a.value.cpu.value <= hi as real
      && a.value.cpu.value * |w| as real == Cpu(w) as real
      && a.value.processes * |w| as real == Processes(w) as real
  {
    SumsBetween(w, lo, hi);
    QuotientBetween(Cpu(w), |w|, lo, hi);
    AverageTimesNumber(w);
  }

  lemma AverageTimesNumber(w: seq<Record>)
    requires w != []
    ensures
      var a := AverageOf(w);
      && a.Some? && a.value.processes * |w| as real == Processes(w) as real
      && (a.value.cpu.Some? ==> a.value.cpu.value * |w| as real == Cpu(w) as real)
  {
    QuotientTimes(Cpu(w), |w|);
    QuotientTimes(Processes(w), |w|);
  }

  /** There is no average of nothing, and none of the CPU usage where no sample has one. */
  lemma NoAverage(w: seq<Record>)
    ensures AverageOf(w).None? <==> w == []
    ensures w != [] ==> (AverageOf(w).value.cpu.Some? <==> exists i :: 0 <= i < |w| && w[i].usage.Some?)
  {
    HasUsageIff(w);
  }

  lemma {:induction false} HasUsageIff(w: seq<Record>)
    ensures HasUsage(w) <==> exists i :: 0 <= i < |w| && w[i].usage.Some?
  {
    if w != [] {
      var n := |w| - 1;
      var init := w[..n];
      HasUsageIff(init);
      assert w[n].usage.Some? || forall i :: 0 <= i < |w| && w[i].usage.Some? ==> i < n && init[i].usage.Some?;
    }
  }

  /** Every record counts at least one process, but for the blanks dated 0. */
  predicate Counted(records: seq<Record>) {
    forall i :: 0 <= i < |records| ==> records[i] == BLANK || records[i].processes >= 1
  }

  /** An average over any time after 0 is over at least one process. */
  lemma AverageCounts(records: seq<Record>, from: real, to: real)
    requires Counted(records) && from > 0.0
    ensures
      var a := AverageOf(Filter(records, Within(from, to)));
      a.Some? ==> a.value.processes >= 1.0
  {
    var w := Filter(records, Within(from, to));
    forall i | 0 <= i < |w| ensures w[i].processes >= 1 {
      FilterHas(records, Within(from, to), w[i]);
    }
    AtLeastOneEach(w);
    if w != [] {
      Quotient(Processes(w), |w|);
    }
  }

  class TimeSeriesData {
    const cacheLen: nat
    var records: seq<Record>    // newest first

    ghost predicate Valid()
      reads this
    {
      cacheLen > 0 && |records| == cacheLen
    }

    constructor (cacheLen: nat)
      requires cacheLen > 0
      ensures Valid() && this.cacheLen == cacheLen && Counted(records)
    {
      this.cacheLen := cacheLen;
      records := seq(cacheLen, i => BLANK);
    }

    /** `appendleft` to a deque of bounded length. */
    method AddSample(r: Record)
      requires Valid()
      modifies this
      ensures Valid()
      ensures records == [r] + old(records)[..cacheLen - 1]
      ensures Counted(old(records)) && r.processes >= 1 ==> Counted(records)
    {
      records := [r] + records[..cacheLen - 1];
    }

    method GetAverageOver(from: real, to: real) returns (a: Option<Average>)
      ensures a == AverageOf(Filter(records, Within(from, to)))
    {
      var processes, cpu, n, hasUsage := 0, 0, 0, false;
      ghost var w: seq<Record> := [];
      for i := 0 to |records|
        invariant w == Filter(records[..i], Within(from, to))
        invariant n == |w| && processes == Processes(w) && cpu == Cpu(w) && hasUsage == HasUsage(w)
      {
        var r := records[i];
        FilterNext(records, i, Within(from, to));
        if from <= r.timestamp as real <= to {
          PushRecord(w, r);
          processes, n := processes + r.processes, n + 1;
          if r.usage.Some? {
            cpu, hasUsage := cpu + r.usage.value.cpu, true;
          }
          w := w + [r];
        }
      }
      assert records[..|records|] == records;
      if n == 0 {
        return None;
      }
      return Some(Average(processes as real / n as real, if hasUsage then Some(cpu as real / n as real) else None));
    }

    method GetLastRecord() returns (r: Record)
      requires Valid()
      ensures r == records[0]
    {
      r := records[0];
    }
  }

  function Plus(t: Option<Usage>, u: Usage): Option<Usage> {
    match t
    case None => Some(u)
    case Some(v) => Some(Usage(v.cpu + u.cpu, v.mem + u.mem))
  }

  /** The usage of some processes added up; a Counter stays empty without any. */
  function Total(L: seq<Pid>, usage: Pid -> Usage): Option<Usage> {
    if L == [] then None else Plus(Total(L[..|L| - 1], usage), usage(L[|L| - 1]))
  }

  lemma TotalPush(L: seq<Pid>, p: Pid, usage: Pid -> Usage)
    ensures Total(L + [p], usage) == Plus(Total(L, usage), usage(p))
  {
    assert (L + [p])[..|L|] == L;
  }

  function Sum(L: seq<Pid>, f: Pid -> nat): nat {
    if L == [] then 0 else f(L[0]) + Sum(L[1..], f)
  }

  lemma {:induction false} SumLast(L: seq<Pid>, f: Pid -> nat)
    requires L != []
    ensures Sum(L, f) == Sum(L[..|L| - 1], f) + f(L[|L| - 1])
  {
    if |L| > 1 {
      SumLast(L[1..], f);
      assert L[1..][..|L| - 2] == L[..|L| - 1][1..];
    }
  }

  /** The total is that of CPU and that of memory, each by itself. */
  lemma {:induction false} TotalIs(L: seq<Pid>, usage: Pid -> Usage, cpu: Pid -> nat, mem: Pid -> nat)
    requires forall p :: usage(p) == Usage(cpu(p), mem(p))
    ensures Total(L, usage) == if L == [] then None else Some(Usage(Sum(L, cpu), Sum(L, mem)))
  {
    if L != [] {
      TotalIs(L[..|L| - 1], usage, cpu, mem);
      SumLast(L, cpu);
      SumLast(L, mem);
    }
  }

  /** What comes of looking at a process: it is gone, cannot be opened, or raises when it is measured. */
  datatype Look = Gone | Unopened | Seen(usage: Usage) | Denied | Broken

  datatype Error = AccessDenied | OtherError

  predicate Raises(l: Look) {
    l.Denied? || l.Broken?
  }

  function Exists(look: Pid -> Look): Pid -> bool {
    (p: Pid) => !look(p).Gone?
  }

  function IsSeen(look: Pid -> Look): Pid -> bool {
    (p: Pid) => look(p).Seen?
  }

  function UsageOf(look: Pid -> Look): Pid -> Usage {
    (p: Pid) => if look(p).Seen? then look(p).usage else Usage(0, 0)
  }

  /** How many processes are looked at before one raises. */
  function Reached(L: seq<Pid>, look: Pid -> Look): (k: nat)
    ensures k <= |L|
    ensures k < |L| ==> Raises(look(L[k]))
    ensures forall i :: 0 <= i < k ==> !Raises(look(L[i]))
  {
    if L == [] || Raises(look(L[0])) then 0 else 1 + Reached(L[1..], look)
  }

  lemma ReachedIs(L: seq<Pid>, look: Pid -> Look, k: nat)
    requires k < |L| && Raises(look(L[k])) && forall i :: 0 <= i < k ==> !Raises(look(L[i]))
    ensures Reached(L, look) == k
  {
  }

  /** The first `k` pids but for those that are gone. */
  function LeftOf(L: seq<Pid>, look: Pid -> Look, k: nat): seq<Pid>
    requires k <= |L|
  {
    Filter(L[..k], Exists(look))
  }

  /** The usage of the first `k` processes, of those that can be looked at. */
  function UsageOfFirst(L: seq<Pid>, look: Pid -> Look, k: nat): Option<Usage>
    requires k <= |L|
  {
    Total(Filter(L[..k], IsSeen(look)), UsageOf(look))
  }

  /** The pids that are left: those that are gone are dropped, as far as the loop got. */
  function Left(L: seq<Pid>, look: Pid -> Look): seq<Pid> {
    LeftOf(L, look, Reached(L, look)) + L[Reached(L, look)..]
  }

  /** The usage of all, or what the first process that cannot be measured raises. */
  function Sampled(L: seq<Pid>, look: Pid -> Look): Result<Option<Usage>, Error> {
    var k := Reached(L, look);
    if k == |L| then Success(Total(Filter(L, IsSeen(look)), UsageOf(look)))
    else Failure(if look(L[k]).Denied? then AccessDenied else OtherError)
  }

  /** The first `k` processes raise nothing, and process `k` does, if there is one. */
  predicate StopsAt(L: seq<Pid>, look: Pid -> Look, k: nat) {
    && k <= |L|
    && (forall i :: 0 <= i < k ==> look(L[i]) != Denied && look(L[i]) != Broken)
    && (k < |L| ==> look(L[k]) == Denied || look(L[k]) == Broken)
  }

  /** A process is dropped exactly if it is gone and is looked at before one raises; the others keep their order. */
  lemma LeftIff(L: seq<Pid>, look: Pid -> Look, k: nat)
    requires StopsAt(L, look, k) && NoDuplicates(L)
    ensures forall i :: 0 <= i < |L| ==> (L[i] !in Left(L, look) <==> i < k && look(L[i]) == Gone)
    ensures L[k..] <= Left(L, look)[|Left(L, look)| - (|L| - k)..]
  {
    StopIsReached(L, look, k);
    forall i | 0 <= i < |L| ensures L[i] !in Left(L, look) <==> i < k && look(L[i]) == Gone {
      FilterHas(L[..k], Exists(look), L[i]);
      assert L[i] in L[..k] <==> i < k;
      assert L[i] in L[k..] <==> i >= k by {
        assert i >= k ==> L[k..][i - k] == L[i];
      }
    }
  }

  lemma StopIsReached(L: seq<Pid>, look: Pid -> Look, k: nat)
    requires StopsAt(L, look, k)
    ensures Reached(L, look) == k
  {
  }

  /**
   * A sample fails exactly if a process raises, with what the first of them
   * raises; otherwise it adds up CPU and memory of those that could be opened.
   */
  lemma SampledIs(L: seq<Pid>, look: Pid -> Look, k: nat, cpu: Pid -> nat, mem: Pid -> nat)
    requires StopsAt(L, look, k)
    requires forall p :: UsageOf(look)(p) == Usage(cpu(p), mem(p))
    ensures
      var seen := Filter(L, IsSeen(look));
      Sampled(L, look) ==
        if k < |L| then Failure(if look(L[k]) == Denied then AccessDenied else OtherError)
        else Success(if seen == [] then None else Some(Usage(Sum(seen, cpu), Sum(seen, mem))))
  {
    StopIsReached(L, look, k);
    TotalIs(Filter(L, IsSeen(look)), UsageOf(look), cpu, mem);
  }

  /** `iter_processes`, and the usage of what it yields. */
  method Measure(L: seq<Pid>, look: Pid -> Look) returns (left: seq<Pid>, r: Result<Option<Usage>, Error>)
    ensures left == Left(L, look)
    ensures r == Sampled(L, look)
  {
    var total: Option<Usage> := None;
    left := [];
    for i := 0 to |L|
      invariant forall j :: 0 <= j < i ==> !Raises(look(L[j]))
      invariant left == LeftOf(L, look, i) && total == UsageOfFirst(L, look, i)
    {
      if Raises(look(L[i])) {
        ReachedIs(L, look, i);
        return left + L[i..], Failure(if look(L[i]).Denied? then AccessDenied else OtherError);
      }
      LookNext(L, i, look);
      if !look(L[i]).Gone? {
        left := left + [L[i]];
      }
      if look(L[i]).Seen? {
        total := Plus(total, look(L[i]).usage);
      }
    }
    assert L[..|L|] == L;
    assert left + L[|L|..] == left;
    return left, Success(total);
  }

  lemma LookNext(L: seq<Pid>, i: nat, look: Pid -> Look)
    requires i < |L|
    ensures LeftOf(L, look, i + 1) == if look(L[i]).Gone? then LeftOf(L, look, i) else LeftOf(L, look, i) + [L[i]]
    ensures UsageOfFirst(L, look, i + 1)
         == if look(L[i]).Seen? then Plus(UsageOfFirst(L, look, i), look(L[i]).usage) else UsageOfFirst(L, look, i)
  {
    FilterNext(L, i, Exists(look));
    FilterNext(L, i, IsSeen(look));
    var seen := Filter(L[..i], IsSeen(look));
    TotalPush(seen, L[i], UsageOf(look));
    assert seen + [] == seen;
    assert LeftOf(L, look, i) + [] == LeftOf(L, look, i);
  }

  lemma LeftUnique(L: seq<Pid>, look: Pid -> Look)
    requires NoDuplicates(L)
    ensures NoDuplicates(Left(L, look))
  {
    var k := Reached(L, look);
    var front := Filter(L[..k], Exists(look));
    FilterUnique(L[..k], Exists(look));
    forall i | 0 <= i < |front| ensures front[i] !in L[k..] {
      FilterHas(L[..k], Exists(look), front[i]);
    }
  }

  class ServiceTimeSeriesData {
    const series: TimeSeriesData
    var pids: seq<Pid>    // SPIDs, in the order of iteration
    var collecting: bool

    ghost predicate Valid()
      reads this, series
    {
      series.Valid() && Counted(series.records) && NoDuplicates(pids)
    }

    constructor (series: TimeSeriesData)
      requires series.Valid() && Counted(series.records)
      ensures Valid() && this.series == series && pids == [] && !collecting
    {
      this.series, pids, collecting := series, [], false;
    }

    method AddPid(pid: Pid)
      requires Valid()
      modifies this`pids
      ensures Valid() && pids == if pid in old(pids) then old(pids) else old(pids) + [pid]
    {
      if pid !in pids {
        pids := pids + [pid];
      }
    }

    /** `sample_data`: all registered processes are counted, and those that are gone are dropped on the way. */
    method SampleData(time: int, look: Pid -> Look) returns (r: Result<Option<Record>, Error>)
      requires Valid()
      modifies this`pids
      ensures Valid()
      ensures pids == Left(old(pids), look)
      ensures r ==
        if old(pids) == [] then Success(None)
        else match Sampled(old(pids), look)
             case Failure(e) => Failure(e)
             case Success(usage) => Success(Some(Record(time, |old(pids)|, usage)))
    {
      if pids == [] {
        return Success(None);
      }
      var L := pids;
      var left, usage := Measure(L, look);
      LeftUnique(L, look);
      pids := left;
      match usage
      case Failure(e) => return Failure(e);
      case Success(total) => return Success(Some(Record(time, |L|, total)));
    }

    /**
     * `sample_data_loop`: a sample that raises nothing becomes the newest
     * record, so every record counts a process; one that is denied access
     * ends the collecting.
     */
    method SampleDataLoop(time: int, look: Pid -> Look)
      requires Valid()
      modifies this`pids, this`collecting, series
      ensures Valid()
      ensures
        var L, usage := old(pids), Sampled(old(pids), look);
        && pids == (if old(collecting) then Left(L, look) else L)
        && collecting == (old(collecting) && (L == [] || usage != Failure(AccessDenied)))
        && series.records ==
             if !old(collecting) || L == [] || usage.Failure? then old(series.records)
             else [Record(time, |L|, usage.value)] + old(series.records)[..series.cacheLen - 1]
    {
      if collecting {
        var r := SampleData(time, look);
        match r
        case Success(Some(record)) => series.AddSample(record);
        case Failure(AccessDenied) => collecting := false;
        case _ =>
      }
    }
  }
}
