/**
 * The per-CPU bookkeeping of utils/aperf.c: the table of baselines
 * (struct avg_perf_cpu_info), get_measure_start_info, and the sampling passes
 * of do_measure_all_cpus and do_measuring_on_cpu.
 *
 * The hardware-limits query, the MSR reads and the clock are inputs: a pass
 * supplies the elapsed interval and, per CPU, the APERF/MPERF reading or
 * `None` when the read failed. The endless sampling loop is modelled over the
 * finite sequence of passes it is given.
 */
module AperfSampler {
  import opened CTypes
  import opened AperfMath

  /** An APERF and an MPERF reading of one CPU. */
  datatype CounterPair = CounterPair(aperf: u64, mperf: u64)

  /** struct avg_perf_cpu_info. */
  datatype CpuInfo = CpuInfo(maxFreq: u64, savedAperf: u64, savedMperf: u64, isValid: bool)

  /** An entry before get_measure_start_info has run on it. */
  const Blank: CpuInfo := CpuInfo(0, 0, 0, false)

  /**
   * get_measure_start_info: validity is cleared first; the maximum frequency
   * is stored once the limits are known; the baseline is stored and the entry
   * marked valid only when the counters were read too.
   */
  function StartInfo(info: CpuInfo, limit: Option<u64>, counters: Option<CounterPair>): (r: CpuInfo)
    ensures r.isValid <==> limit.Some? && counters.Some?
    ensures limit.None? ==> r == info.(isValid := false)
    ensures limit.Some? ==> r.maxFreq == limit.value
    ensures counters.None? ==> r.savedAperf == info.savedAperf && r.savedMperf == info.savedMperf
    ensures r.isValid ==> r.savedAperf == counters.value.aperf && r.savedMperf == counters.value.mperf
  {
    var cleared := info.(isValid := false);
    if limit.None? then cleared
    else
      var withMax := cleared.(maxFreq := limit.value);
      if counters.None? then withMax
      else withMax.(savedAperf := counters.value.aperf, savedMperf := counters.value.mperf, isValid := true)
  }

  /** The table after the start-up loop of do_measure_all_cpus: each CPU on its own reads. */
  function StartInfos(limits: seq<Option<u64>>, counters: seq<Option<CounterPair>>): (r: seq<CpuInfo>)
    requires |limits| == |counters|
    ensures |r| == |limits|
    ensures forall k :: 0 <= k < |r| ==> r[k] == StartInfo(Blank, limits[k], counters[k])
    ensures forall k :: 0 <= k < |r| ==> (r[k].isValid <==> limits[k].Some? && counters[k].Some?)
  {
    seq(|limits|, k requires 0 <= k < |limits| => StartInfo(Blank, limits[k], counters[k]))
  }

  /** current - saved on uint64_t: the counter's advance modulo 2^64. */
  function Delta(saved: u64, now: u64): (d: u64)
    ensures d == if saved <= now then now - saved else now - saved + TWO64
    ensures (saved + d) % TWO64 == now
  {
    WrapDifference(now - saved);
    Wrap64(now - saved)
  }

  lemma WrapDifference(x: int)
    requires -TWO64 < x < TWO64
    ensures Wrap64(x) == if x >= 0 then x else x + TWO64
  {
  }

  /** Deltas taken against successive baselines add up, modulo 2^64, to the overall delta. */
  lemma DeltasCompose(a: u64, b: u64, c: u64)
    ensures (Delta(a, b) + Delta(b, c)) % TWO64 == Delta(a, c)
  {
    var sum := Delta(a, b) + Delta(b, c);
    if sum >= TWO64 {
      assert sum - TWO64 == Delta(a, c);
    } else {
      assert sum == Delta(a, c);
    }
  }

  /** What one CPU's line of a pass reports: the average frequency and the C-state split. */
  datatype Sample = Sample(average: u64, cstate: CState)

  /** A CPU is sampled when it is valid and its counters were read. */
  predicate Samples(info: CpuInfo, reading: Option<CounterPair>)
  {
    info.isValid && reading.Some?
  }

  /** The divisions of a sample are defined: the tool does not guard them. */
  predicate CanSample(info: CpuInfo, now: CounterPair, elapsed: Timeval)
  {
    ElapsedOk(elapsed)
    && ExpectedTicks(info.maxFreq, OverallMsecs(elapsed)) != 0
    && ShiftDiffs(Delta(info.savedAperf, now.aperf), Delta(info.savedMperf, now.mperf)).1 != 0
  }

  /**
   * One CPU in one pass: skipped (no line of figures, baseline untouched) when
   * invalid or unreadable; otherwise measured against the baseline, which
   * then moves to the reading. Validity and the maximum never change.
   */
  function SampleCpu(info: CpuInfo, reading: Option<CounterPair>, elapsed: Timeval): (r: (Option<Sample>, CpuInfo))
    requires Samples(info, reading) ==> CanSample(info, reading.value, elapsed)
    ensures r.1.isValid == info.isValid && r.1.maxFreq == info.maxFreq
    ensures r.0.Some? <==> Samples(info, reading)
    ensures !Samples(info, reading) ==> r.1 == info
    ensures Samples(info, reading) ==> r.1.savedAperf == reading.value.aperf && r.1.savedMperf == reading.value.mperf
    ensures r.0.Some? ==>
              var mperfDiff := Delta(info.savedMperf, reading.value.mperf);
              r.0.value == Sample(AveragePerf(info.maxFreq, Delta(info.savedAperf, reading.value.aperf), mperfDiff),
                                  CStateTime(elapsed, mperfDiff, info.maxFreq))
  {
    if !Samples(info, reading) then (None, info)
    else
      var now := reading.value;
      var mperfDiff := Delta(info.savedMperf, now.mperf);
      var aperfDiff := Delta(info.savedAperf, now.aperf);
      (Some(Sample(AveragePerf(info.maxFreq, aperfDiff, mperfDiff), CStateTime(elapsed, mperfDiff, info.maxFreq))),
       info.(savedMperf := now.mperf, savedAperf := now.aperf))
  }

  /**
   * Two successive samples of a CPU measure the second reading against the
   * first: the baseline a sample leaves is the one the next sample uses.
   */
  lemma SuccessiveSamples(info: CpuInfo, first: CounterPair, second: CounterPair, e1: Timeval, e2: Timeval)
    requires info.isValid && CanSample(info, first, e1)
    requires CanSample(SampleCpu(info, Some(first), e1).1, second, e2)
    ensures var next := SampleCpu(info, Some(first), e1).1;
            var s := SampleCpu(next, Some(second), e2).0.value;
            s.cstate == CStateTime(e2, Delta(first.mperf, second.mperf), info.maxFreq)
            && s.average == AveragePerf(info.maxFreq, Delta(first.aperf, second.aperf), Delta(first.mperf, second.mperf))
  {
  }

  /** The inputs of one pass: the interval slept and each CPU's reading. */
  datatype PassInput = PassInput(elapsed: Timeval, readings: seq<Option<CounterPair>>)

  predicate PassOk(infos: seq<CpuInfo>, p: PassInput)
  {
    |p.readings| == |infos|
    && forall k :: 0 <= k < |infos| && Samples(infos[k], p.readings[k]) ==>
         CanSample(infos[k], p.readings[k].value, p.elapsed)
  }

  /** One pass of do_measure_all_cpus: every CPU in turn. */
  function PassResult(infos: seq<CpuInfo>, p: PassInput): (r: (seq<Option<Sample>>, seq<CpuInfo>))
    requires PassOk(infos, p)
    ensures |r.0| == |infos| && |r.1| == |infos|
    ensures forall k :: 0 <= k < |infos| ==> (r.0[k], r.1[k]) == SampleCpu(infos[k], p.readings[k], p.elapsed)
  {
    (seq(|infos|, k requires 0 <= k < |infos| => SampleCpu(infos[k], p.readings[k], p.elapsed).0),
     seq(|infos|, k requires 0 <= k < |infos| => SampleCpu(infos[k], p.readings[k], p.elapsed).1))
  }

  /** Every pass a run reaches is defined. */
  predicate RunOk(infos: seq<CpuInfo>, passes: seq<PassInput>, once: bool)
    decreases |passes|
  {
    passes == []
    || (PassOk(infos, passes[0]) && (once || RunOk(PassResult(infos, passes[0]).1, passes[1..], once)))
  }

  /** The sampling loop of do_measure_all_cpus: one report per pass, one pass only with `once`. */
  function AllRun(infos: seq<CpuInfo>, passes: seq<PassInput>, once: bool): seq<seq<Option<Sample>>>
    requires RunOk(infos, passes, once)
    decreases |passes|
  {
    if passes == [] then []
    else
      var r := PassResult(infos, passes[0]);
      if once then [r.0] else [r.0] + AllRun(r.1, passes[1..], once)
  }

  /** A run reports on every CPU in every pass it makes; `once` makes at most one pass. */
  lemma {:induction false} AllRunShape(infos: seq<CpuInfo>, passes: seq<PassInput>, once: bool)
    requires RunOk(infos, passes, once)
    ensures var reports := AllRun(infos, passes, once);
            |reports| == (if once && passes != [] then 1 else |passes|)
            && forall p :: 0 <= p < |reports| ==> |reports[p]| == |infos|
    decreases |passes|
  {
    if passes != [] && !once {
      var r := PassResult(infos, passes[0]);
      AllRunShape(r.1, passes[1..], once);
    }
  }

  /**
   * A CPU whose start-up failed is never re-initialised: it reports nothing
   * in any pass, while the other CPUs go on being sampled.
   */
  lemma {:induction false} InvalidCpuStaysSilent(infos: seq<CpuInfo>, passes: seq<PassInput>, once: bool, cpu: nat)
    requires RunOk(infos, passes, once)
    requires cpu < |infos| && !infos[cpu].isValid
    ensures var reports := AllRun(infos, passes, once);
            forall p :: 0 <= p < |reports| ==> cpu < |reports[p]| && reports[p][cpu].None?
    decreases |passes|
  {
    AllRunShape(infos, passes, once);
    if passes != [] && !once {
      var r := PassResult(infos, passes[0]);
      InvalidCpuStaysSilent(r.1, passes[1..], once, cpu);
      AllRunShape(r.1, passes[1..], once);
      var reports: seq<seq<Option<Sample>>> := AllRun(infos, passes, once);
      assert reports == [r.0] + AllRun(r.1, passes[1..], once);
      forall p | 1 <= p < |reports|
        ensures cpu < |reports[p]| && reports[p][cpu].None?
      {
        assert reports[p] == AllRun(r.1, passes[1..], once)[p - 1];
      }
    }
  }

  /** The table of baselines do_measure_all_cpus allocates, one entry per configured CPU. */
  class Sampler {
    const cpuList: array<CpuInfo>

    constructor (cpus: nat)
      ensures fresh(cpuList) && cpuList.Length == cpus
      ensures forall k :: 0 <= k < cpus ==> cpuList[k] == Blank
    {
      cpuList := new CpuInfo[cpus](_ => Blank);
    }

    /** get_measure_start_info on entry `cpu`: 0, or -EINVAL when either read failed. */
    method MeasureStartInfo(cpu: nat, limit: Option<u64>, counters: Option<CounterPair>) returns (ret: int)
      requires cpu < cpuList.Length
      modifies cpuList
      ensures cpuList[cpu] == StartInfo(old(cpuList[cpu]), limit, counters)
      ensures forall k :: 0 <= k < cpuList.Length && k != cpu ==> cpuList[k] == old(cpuList[k])
      ensures ret == 0 <==> cpuList[cpu].isValid
      ensures ret == 0 || ret == -EINVAL
    {
      cpuList[cpu] := cpuList[cpu].(isValid := false);
      if limit.None? {
        return -EINVAL;
      }
      cpuList[cpu] := cpuList[cpu].(maxFreq := limit.value);
      if counters.None? {
        return -EINVAL;
      }
      cpuList[cpu] := cpuList[cpu].(savedAperf := counters.value.aperf);
      cpuList[cpu] := cpuList[cpu].(savedMperf := counters.value.mperf);
      cpuList[cpu] := cpuList[cpu].(isValid := true);
      return 0;
    }

    /** The start-up loop of do_measure_all_cpus: a failure on one CPU does not stop the others. */
    method Init(limits: seq<Option<u64>>, counters: seq<Option<CounterPair>>)
      requires |limits| == cpuList.Length && |counters| == cpuList.Length
      modifies cpuList
      ensures forall k :: 0 <= k < cpuList.Length ==> cpuList[k] == StartInfo(old(cpuList[k]), limits[k], counters[k])
    {
      for cpu := 0 to cpuList.Length
        invariant forall k :: 0 <= k < cpu ==> cpuList[k] == StartInfo(old(cpuList[k]), limits[k], counters[k])
        invariant forall k :: cpu <= k < cpuList.Length ==> cpuList[k] == old(cpuList[k])
      {
        var ret := MeasureStartInfo(cpu, limits[cpu], counters[cpu]);
      }
    }

    /** The body of the per-CPU loop: measure against the baseline, then move the baseline. */
    method SampleAt(cpu: nat, elapsed: Timeval, reading: Option<CounterPair>) returns (sample: Option<Sample>)
      requires cpu < cpuList.Length
      requires Samples(cpuList[cpu], reading) ==> CanSample(cpuList[cpu], reading.value, elapsed)
      modifies cpuList
      ensures (sample, cpuList[cpu]) == SampleCpu(old(cpuList[cpu]), reading, elapsed)
      ensures forall k :: 0 <= k < cpuList.Length && k != cpu ==> cpuList[k] == old(cpuList[k])
    {
      if reading.None? || !cpuList[cpu].isValid {
        return None;
      }
      var now := reading.value;
      var info := cpuList[cpu];
      var mperfDiff := Delta(info.savedMperf, now.mperf);
      var aperfDiff := Delta(info.savedAperf, now.aperf);
      var cstate := CStateTime(elapsed, mperfDiff, info.maxFreq);
      var average := AveragePerf(info.maxFreq, aperfDiff, mperfDiff);
      cpuList[cpu] := cpuList[cpu].(savedMperf := now.mperf);
      cpuList[cpu] := cpuList[cpu].(savedAperf := now.aperf);
      return Some(Sample(average, cstate));
    }

    /** One pass of do_measure_all_cpus over every CPU. */
    method Pass(p: PassInput) returns (samples: seq<Option<Sample>>)
      requires PassOk(cpuList[..], p)
      modifies cpuList
      ensures (samples, cpuList[..]) == PassResult(old(cpuList[..]), p)
    {
      ghost var before := cpuList[..];
      samples := [];
      for cpu := 0 to cpuList.Length
        invariant |samples| == cpu
        invariant forall k :: 0 <= k < cpu ==>
                    (samples[k], cpuList[k]) == SampleCpu(before[k], p.readings[k], p.elapsed)
        invariant forall k :: cpu <= k < cpuList.Length ==> cpuList[k] == before[k]
      {
        var s := SampleAt(cpu, p.elapsed, p.readings[cpu]);
        samples := samples + [s];
      }
      assert samples == PassResult(before, p).0;
      assert cpuList[..] == PassResult(before, p).1;
    }

    /**
     * One pass of the sampling loop: sample, keep the sample, and say whether
     * `once` ends the loop here; the loop's account of the run is carried over.
     */
    method WatchPass(cpu: nat, ticks: seq<Tick>, once: bool, used: nat, samples: seq<Sample>,
                     ghost run: (seq<Sample>, nat), ghost final: CpuInfo)
      returns (samples': seq<Sample>, done: bool)
      requires cpu < cpuList.Length && used < |ticks|
      requires WatchAccount(cpuList[cpu], ticks, once, used, samples, run, final)
      modifies cpuList
      ensures forall k :: 0 <= k < cpuList.Length && k != cpu ==> cpuList[k] == old(cpuList[k])
      ensures done ==> (samples', used + 1) == run && cpuList[cpu] == final
      ensures !done ==> WatchAccount(cpuList[cpu], ticks, once, used + 1, samples', run, final)
    {
      ghost var info := cpuList[cpu];
      SingleOkHead(info, ticks, once, used);
      var s := SampleAt(cpu, ticks[used].elapsed, ticks[used].reading);
      WatchStep(info, ticks, once, used, samples, run, s, cpuList[cpu]);
      EntryStep(info, ticks, once, used, final, s, cpuList[cpu]);
      samples' := if s.Some? then samples + [s.value] else samples;
      done := once && s.Some?;
    }

    /** The sampling loop of do_measuring_on_cpu on entry `cpu`. */
    method Watch(cpu: nat, ticks: seq<Tick>, once: bool) returns (samples: seq<Sample>, used: nat)
      requires cpu < cpuList.Length && SingleOk(cpuList[cpu], ticks, once)
      modifies cpuList
      ensures (samples, used) == SingleRun(old(cpuList[cpu]), ticks, once)
      ensures cpuList[cpu] == SingleRunEntry(old(cpuList[cpu]), ticks, once)
      ensures forall k :: 0 <= k < cpuList.Length && k != cpu ==> cpuList[k] == old(cpuList[k])
    {
      ghost var run := SingleRun(cpuList[cpu], ticks, once);
      ghost var final := SingleRunEntry(cpuList[cpu], ticks, once);
      ghost var cur := cpuList[cpu];
      samples := [];
      used := 0;
      WatchStart(cur, ticks, once);
      while used < |ticks|
        invariant cpuList[cpu] == cur
        invariant WatchAccount(cur, ticks, once, used, samples, run, final)
        invariant forall k :: 0 <= k < cpuList.Length && k != cpu ==> cpuList[k] == old(cpuList[k])
        decreases |ticks| - used
      {
        var done;
        samples, done := WatchPass(cpu, ticks, once, used, samples, run, final);
        cur := cpuList[cpu];
        used := used + 1;
        if done {
          return;
        }
      }
      WatchDone(cur, ticks, once, used, samples, run, final);
    }
  }

  /**
   * do_measure_all_cpus: start every CPU, then run the sampling passes; with
   * `once`, stop after the first pass.
   */
  method MeasureAllCpus(limits: seq<Option<u64>>, counters: seq<Option<CounterPair>>,
                        passes: seq<PassInput>, once: bool) returns (reports: seq<seq<Option<Sample>>>)
    requires |limits| == |counters|
    requires RunOk(StartInfos(limits, counters), passes, once)
    ensures reports == AllRun(StartInfos(limits, counters), passes, once)
  {
    var sampler := new Sampler(|limits|);
    sampler.Init(limits, counters);
    ghost var start := StartInfos(limits, counters);
    assert sampler.cpuList[..] == start;
    reports := [];
    var i := 0;
    while i < |passes|
      invariant 0 <= i <= |passes|
      invariant once ==> i == 0
      invariant RunOk(sampler.cpuList[..], passes[i..], once)
      invariant reports + AllRun(sampler.cpuList[..], passes[i..], once) == AllRun(start, passes, once)
      decreases |passes| - i
    {
      ghost var r := PassResult(sampler.cpuList[..], passes[i]);
      var samples := sampler.Pass(passes[i]);
      reports := reports + [samples];
      if once {
        return;
      }
      assert passes[i..][1..] == passes[i + 1..];
      i := i + 1;
    }
  }

  /** The inputs of one pass of do_measuring_on_cpu. */
  datatype Tick = Tick(elapsed: Timeval, reading: Option<CounterPair>)

  /** Every pass a single-CPU run reaches is defined. */
  predicate SingleOk(info: CpuInfo, ticks: seq<Tick>, once: bool)
    decreases |ticks|
  {
    ticks == []
    || ((Samples(info, ticks[0].reading) ==> CanSample(info, ticks[0].reading.value, ticks[0].elapsed))
        && var r := SampleCpu(info, ticks[0].reading, ticks[0].elapsed);
           (once && r.0.Some?) || SingleOk(r.1, ticks[1..], once))
  }

  /**
   * The sampling loop of do_measuring_on_cpu: the samples printed and the
   * number of passes made. A failed read goes on to the next pass without
   * looking at `once`.
   */
  function SingleRun(info: CpuInfo, ticks: seq<Tick>, once: bool): (r: (seq<Sample>, nat))
    requires SingleOk(info, ticks, once)
    ensures |r.0| <= r.1 <= |ticks|
    decreases |ticks|
  {
    if ticks == [] then ([], 0)
    else
      var s := SampleCpu(info, ticks[0].reading, ticks[0].elapsed);
      if once && s.0.Some? then ([s.0.value], 1)
      else
        var rest := SingleRun(s.1, ticks[1..], once);
        ((if s.0.Some? then [s.0.value] else []) + rest.0, rest.1 + 1)
  }

  /**
   * With `once`, a valid CPU's loop ends at the first pass whose read
   * succeeds, after printing exactly that sample; if no read succeeds it
   * prints nothing and keeps going.
   */
  lemma {:induction false} OnceStopsAfterFirstSample(info: CpuInfo, ticks: seq<Tick>)
    requires info.isValid && SingleOk(info, ticks, true)
    ensures var (samples, used) := SingleRun(info, ticks, true);
            |samples| <= 1
            && (samples != [] ==> 0 < used && ticks[used - 1].reading.Some?)
            && (samples == [] ==> used == |ticks|)
            && forall j :: 0 <= j < used - 1 ==> ticks[j].reading.None?
    decreases |ticks|
  {
    if ticks != [] {
      var s := SampleCpu(info, ticks[0].reading, ticks[0].elapsed);
      if s.0.None? {
        OnceStopsAfterFirstSample(s.1, ticks[1..]);
        var (samples, used) := SingleRun(s.1, ticks[1..], true);
        forall j | 1 <= j < used
          ensures ticks[j].reading.None?
        {
          assert ticks[j] == ticks[1..][j - 1];
        }
      }
    }
  }

  /** The entry the sampling loop of do_measuring_on_cpu leaves behind. */
  function SingleRunEntry(info: CpuInfo, ticks: seq<Tick>, once: bool): (r: CpuInfo)
    requires SingleOk(info, ticks, once)
    ensures r.isValid == info.isValid && r.maxFreq == info.maxFreq
    ensures !info.isValid ==> r == info
    decreases |ticks|
  {
    if ticks == [] then info
    else
      var s := SampleCpu(info, ticks[0].reading, ticks[0].elapsed);
      if once && s.0.Some? then s.1 else SingleRunEntry(s.1, ticks[1..], once)
  }

  /** The most recent successful reading among the passes. */
  function LastReading(ticks: seq<Tick>): Option<CounterPair>
  {
    if ticks == [] then None
    else
      var later := LastReading(ticks[1..]);
      if later.Some? then later else ticks[0].reading
  }

  /** The entry with its baseline moved to `reading`, when there is one. */
  function Rebased(info: CpuInfo, reading: Option<CounterPair>): CpuInfo
  {
    match reading
    case None => info
    case Some(c) => info.(savedAperf := c.aperf, savedMperf := c.mperf)
  }

  /**
   * After the loop a valid CPU's baseline is the last reading taken in the
   * passes it made, or the start-up baseline when every read failed.
   */
  lemma {:induction false} RunEntryBaseline(info: CpuInfo, ticks: seq<Tick>, once: bool)
    requires info.isValid && SingleOk(info, ticks, once)
    ensures SingleRunEntry(info, ticks, once) == Rebased(info, LastReading(ticks[..SingleRun(info, ticks, once).1]))
    decreases |ticks|
  {
    if ticks != [] {
      var s := SampleCpu(info, ticks[0].reading, ticks[0].elapsed);
      assert s.1 == Rebased(info, ticks[0].reading);
      var used := SingleRun(info, ticks, once).1;
      if once && s.0.Some? {
        assert ticks[..used] == [ticks[0]];
        assert LastReading(ticks[..used]) == ticks[0].reading by {
          assert ticks[..used][1..] == [];
        }
      } else {
        RunEntryBaseline(s.1, ticks[1..], once);
        var later := LastReading(ticks[1..][..used - 1]);
        assert ticks[..used][1..] == ticks[1..][..used - 1];
        assert LastReading(ticks[..used]) == if later.Some? then later else ticks[0].reading;
        RebasedTwice(info, ticks[0].reading, later);
      }
    }
  }

  lemma RebasedTwice(info: CpuInfo, first: Option<CounterPair>, second: Option<CounterPair>)
    ensures Rebased(Rebased(info, first), second) == Rebased(info, if second.Some? then second else first)
  {
  }

  /** One pass of the single-CPU loop keeps the entry the loop will leave. */
  lemma EntryStep(info: CpuInfo, ticks: seq<Tick>, once: bool, used: nat, final: CpuInfo,
                  s: Option<Sample>, next: CpuInfo)
    requires used < |ticks| && SingleOk(info, ticks[used..], once)
    requires SingleRunEntry(info, ticks[used..], once) == final
    requires Samples(info, ticks[used].reading) ==> CanSample(info, ticks[used].reading.value, ticks[used].elapsed)
    requires (s, next) == SampleCpu(info, ticks[used].reading, ticks[used].elapsed)
    ensures once && s.Some? ==> next == final
    ensures !(once && s.Some?) ==> SingleOk(next, ticks[used + 1..], once)
                                   && SingleRunEntry(next, ticks[used + 1..], once) == final
  {
    var t := ticks[used..];
    assert t[0] == ticks[used] && t[1..] == ticks[used + 1..];
  }

  /** The number of passes whose read succeeds. */
  function Readable(ticks: seq<Tick>): nat
  {
    if ticks == [] then 0 else (if ticks[0].reading.Some? then 1 else 0) + Readable(ticks[1..])
  }

  /** Without `once`, a valid CPU is sampled once per successful read and every pass is made. */
  lemma {:induction false} ContinuousRunSamplesEveryRead(info: CpuInfo, ticks: seq<Tick>)
    requires info.isValid && SingleOk(info, ticks, false)
    ensures SingleRun(info, ticks, false).1 == |ticks|
    ensures |SingleRun(info, ticks, false).0| == Readable(ticks)
    decreases |ticks|
  {
    if ticks != [] {
      var s := SampleCpu(info, ticks[0].reading, ticks[0].elapsed);
      ContinuousRunSamplesEveryRead(s.1, ticks[1..]);
    }
  }

  /** SingleRun unfolded once. */
  lemma SingleRunStep(info: CpuInfo, ticks: seq<Tick>, once: bool)
    requires ticks != [] && SingleOk(info, ticks, once)
    ensures var s := SampleCpu(info, ticks[0].reading, ticks[0].elapsed);
            (once && s.0.Some? ==> SingleRun(info, ticks, once) == ([s.0.value], 1))
            && (!(once && s.0.Some?) ==>
                  SingleOk(s.1, ticks[1..], once)
                  && SingleRun(info, ticks, once).0
                     == (if s.0.Some? then [s.0.value] else []) + SingleRun(s.1, ticks[1..], once).0
                  && SingleRun(info, ticks, once).1 == SingleRun(s.1, ticks[1..], once).1 + 1)
  {
  }

  /** One pass of the single-CPU loop keeps the loop's account of the run. */
  lemma WatchStep(info: CpuInfo, ticks: seq<Tick>, once: bool, used: nat, samples: seq<Sample>,
                  run: (seq<Sample>, nat), s: Option<Sample>, next: CpuInfo)
    requires used < |ticks| && SingleOk(info, ticks[used..], once)
    requires samples + SingleRun(info, ticks[used..], once).0 == run.0
    requires used + SingleRun(info, ticks[used..], once).1 == run.1
    requires Samples(info, ticks[used].reading) ==> CanSample(info, ticks[used].reading.value, ticks[used].elapsed)
    requires (s, next) == SampleCpu(info, ticks[used].reading, ticks[used].elapsed)
    ensures once && s.Some? ==> (samples + [s.value], used + 1) == run
    ensures !(once && s.Some?) ==>
              var samples' := if s.Some? then samples + [s.value] else samples;
              SingleOk(next, ticks[used + 1..], once)
              && samples' + SingleRun(next, ticks[used + 1..], once).0 == run.0
              && used + 1 + SingleRun(next, ticks[used + 1..], once).1 == run.1
  {
    var t := ticks[used..];
    assert t[0] == ticks[used] && t[1..] == ticks[used + 1..];
    SingleRunStep(info, t, once);
    if !(once && s.Some?) {
      var rest := SingleRun(next, ticks[used + 1..], once).0;
      var head := if s.Some? then [s.value] else [];
      assert SingleRun(info, t, once).0 == head + rest;
      ConcatAssoc(samples, head, rest);
    }
  }

  /**
   * The single-CPU loop's account after `used` passes: running the rest from
   * the current entry completes the whole run and leaves its final entry.
   */
  predicate WatchAccount(cur: CpuInfo, ticks: seq<Tick>, once: bool, used: nat, samples: seq<Sample>,
                         run: (seq<Sample>, nat), final: CpuInfo)
  {
    used <= |ticks| && SingleOk(cur, ticks[used..], once)
    && samples + SingleRun(cur, ticks[used..], once).0 == run.0
    && used + SingleRun(cur, ticks[used..], once).1 == run.1
    && SingleRunEntry(cur, ticks[used..], once) == final
  }

  /** Before the first pass, the loop's account is the whole run still to come. */
  lemma WatchStart(info: CpuInfo, ticks: seq<Tick>, once: bool)
    requires SingleOk(info, ticks, once)
    ensures WatchAccount(info, ticks, once, 0, [], SingleRun(info, ticks, once), SingleRunEntry(info, ticks, once))
  {
    assert ticks[0..] == ticks;
  }

  /** With every pass made, the loop's account is the whole run. */
  lemma WatchDone(cur: CpuInfo, ticks: seq<Tick>, once: bool, used: nat, samples: seq<Sample>,
                  run: (seq<Sample>, nat), final: CpuInfo)
    requires used == |ticks| && WatchAccount(cur, ticks, once, used, samples, run, final)
    ensures (samples, used) == run && cur == final
  {
    assert ticks[used..] == [];
    assert samples + [] == samples;
  }

  /** The first pass left to the single-CPU loop is defined. */
  lemma SingleOkHead(info: CpuInfo, ticks: seq<Tick>, once: bool, used: nat)
    requires used < |ticks| && SingleOk(info, ticks[used..], once)
    ensures Samples(info, ticks[used].reading) ==> CanSample(info, ticks[used].reading.value, ticks[used].elapsed)
  {
    assert ticks[used..][0] == ticks[used];
  }

  /**
   * do_measuring_on_cpu: a failed start-up is returned at once; otherwise the
   * sampling loop runs, with the CPU's baseline kept in a one-entry table.
   */
  method MeasureOneCpu(limit: Option<u64>, counters: Option<CounterPair>, ticks: seq<Tick>, once: bool)
    returns (rc: int, samples: seq<Sample>, used: nat)
    requires StartInfo(Blank, limit, counters).isValid ==> SingleOk(StartInfo(Blank, limit, counters), ticks, once)
    ensures rc == 0 || rc == -EINVAL
    ensures rc == -EINVAL <==> limit.None? || counters.None?
    ensures rc != 0 ==> samples == [] && used == 0
    ensures rc == 0 ==> (samples, used) == SingleRun(StartInfo(Blank, limit, counters), ticks, once)
  {
    var sampler := new Sampler(1);
    rc := sampler.MeasureStartInfo(0, limit, counters);
    if rc != 0 {
      return rc, [], 0;
    }
    samples, used := sampler.Watch(0, ticks, once);
  }
}
