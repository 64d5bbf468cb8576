/** What the numbers of a thread's summary mean, over any sequence of samples. */
module FerretLaws {
  import opened Bytes
  import opened FerretTrace
  import C = FerretCpp

  /** One sample of a thread, as `FerretProcess::add` gets it. */
  datatype Observation = Observation(comm: string, ts: real, ustime: int, mhz: real, cpu: int)

  function Total(cpus: seq<int>, period: real, obs: seq<Observation>): C.Process
    decreases |obs|
  {
    if obs == [] then C.NewProcess(cpus)
    else
      var last := |obs| - 1;
      var o := obs[last];
      C.Added(Total(cpus, period, obs[..last]), period, o.comm, o.ts, o.ustime, o.mhz, o.cpu)
  }

  /** The sample from which jiffies are counted: the first with a time other than zero, or else the last. */
  function Base(obs: seq<Observation>): (b: nat)
    requires obs != []
    ensures b < |obs| && (obs[b].ts != 0.0 || b == |obs| - 1)
    ensures forall i :: 0 <= i < b ==> obs[i].ts == 0.0
    decreases |obs|
  {
    if |obs| == 1 then 0
    else
      var b := Base(obs[..|obs| - 1]);
      if obs[b].ts != 0.0 then b else |obs| - 1
  }

  predicate OnListed(cpus: seq<int>, obs: seq<Observation>) {
    forall i :: 0 <= i < |obs| ==> obs[i].cpu in cpus
  }

  /** The jiffies counted per processor add up to the running total, and that is the last counter minus the base one:
      none is lost or counted twice, however the thread moves between processors. */
  lemma {:induction false} JiffiesAddUp(cpus: seq<int>, period: real, obs: seq<Observation>)
    requires Distinct(cpus) && OnListed(cpus, obs) && obs != []
    ensures var p := Total(cpus, period, obs);
            && p.total == Sum(p.totJiffies, cpus) == obs[|obs| - 1].ustime - obs[Base(obs)].ustime
            && p.comm == obs[|obs| - 1].comm && p.jiffies == obs[|obs| - 1].ustime && p.first == obs[Base(obs)].ts && p.last == obs[|obs| - 1].ts
            && p.totJiffies.Keys == set k | k in cpus
    decreases |obs|
  {
    var last, o := |obs| - 1, obs[|obs| - 1];
    var q, p := Total(cpus, period, obs[..last]), Total(cpus, period, obs);
    if last > 0 {
      JiffiesAddUp(cpus, period, obs[..last]);
    } else {
      SumOfZeros(q.totJiffies, cpus);
    }
    assert o.cpu in cpus;
    SumUpdate(q.totJiffies, cpus, o.cpu, p.totJiffies[o.cpu]);
  }

  // ---- Per processor ----

  /** Some observation before number `i` has a time other than 0. */
  predicate Counting(obs: seq<Observation>, i: nat) {
    exists j :: 0 <= j < i && j < |obs| && obs[j].ts != 0.0
  }

  /** What observation `i` counts: its counter minus the one before, once counting. */
  function Share(obs: seq<Observation>, i: nat): int
    requires i < |obs|
  {
    if i > 0 && Counting(obs, i) then obs[i].ustime - obs[i - 1].ustime else 0
  }

  /** The counts of the first `n` observations that are on processor `k`; and the cycles they stand for, each count times
      the period of a tick times the frequency. */
  function JiffiesOn(obs: seq<Observation>, k: int, n: nat): int
    requires n <= |obs|
  {
    if n == 0 then 0 else JiffiesOn(obs, k, n - 1) + if obs[n - 1].cpu == k then Share(obs, n - 1) else 0
  }

  function CyclesOn(obs: seq<Observation>, period: real, k: int, n: nat): real
    requires n <= |obs|
  {
    if n == 0 then 0.0
    else
      CyclesOn(obs, period, k, n - 1)
      + if obs[n - 1].cpu == k then Weigh(Share(obs, n - 1), period, obs[n - 1].mhz) else 0.0
  }

  /** A number of ticks times the period of a tick times a frequency. */
  function Weigh(ticks: int, period: real, mhz: real): real { ticks as real * period * mhz }

  /** In the units of the rows: the cycles of some ticks at a frequency in kHz, with `tick` ticks per second. */
  lemma WeighMeans(ticks: int, tick: int, kHz: int)
    requires tick != 0
    ensures Weigh(ticks, C.Period(tick), MHz(kHz)) * 1000.0 * tick as real == (ticks * kHz) as real
  {
    var d, f, t, period := ticks as real, MHz(kHz), tick as real, C.Period(tick);
    PeriodMeans(tick);
    Units(kHz);
    Regrouped(d, period, f, t);
    assert d * (f * 1000.0) == (ticks * kHz) as real;
  }

  lemma Regrouped(d: real, period: real, f: real, t: real)
    requires period * t == 1.0
    ensures d * period * f * 1000.0 * t == d * (f * 1000.0)
  {
    assert d * period * f * 1000.0 * t == d * (f * 1000.0) * (period * t);
  }

  lemma {:induction false} OnPrefix(obs: seq<Observation>, period: real, k: int, n: nat, m: nat)
    requires n <= m <= |obs|
    ensures JiffiesOn(obs[..m], k, n) == JiffiesOn(obs, k, n)
    ensures CyclesOn(obs[..m], period, k, n) == CyclesOn(obs, period, k, n)
  {
    if n > 0 {
      OnPrefix(obs, period, k, n - 1, m);
      SharePrefix(obs, n - 1, m);
    }
  }

  lemma SharePrefix(obs: seq<Observation>, i: nat, m: nat)
    requires i < m <= |obs|
    ensures Share(obs[..m], i) == Share(obs, i)
  {
    assert forall j :: 0 <= j < m ==> obs[..m][j] == obs[j];
    assert Counting(obs[..m], i) <==> Counting(obs, i);
  }

  /** What the last observation adds. */
  lemma LastShare(cpus: seq<int>, period: real, obs: seq<Observation>)
    requires Distinct(cpus) && OnListed(cpus, obs) && obs != []
    ensures var last := |obs| - 1;
            var q, o := Total(cpus, period, obs[..last]), obs[last];
            o.ustime - (if q.first == 0.0 then o.ustime else q.jiffies) == Share(obs, last)
  {
    var last := |obs| - 1;
    if last > 0 {
      var front := obs[..last];
      JiffiesAddUp(cpus, period, front);
      var b := Base(front);
      assert front[b] == obs[b];
      if front[b].ts != 0.0 {
        assert Counting(obs, last);
      } else {
        assert forall j :: 0 <= j < last ==> front[j] == obs[j] && (j < b ==> front[j].ts == 0.0);
        assert !Counting(obs, last);
      }
    }
  }

  /** The period of a tick is the part of a second that it takes at `tick` ticks per second. */
  lemma PeriodMeans(tick: int)
    requires tick != 0
    ensures C.Period(tick) * tick as real == 1.0
    ensures tick > 0 ==> C.Period(tick) > 0.0
  {
  }

  /** A thread's jiffies on processor `k` are the counts of its observations there, and its megacycles there the cycles
      that they stand for. */
  lemma {:induction false} PerProcessor(cpus: seq<int>, period: real, obs: seq<Observation>, k: int)
    requires Distinct(cpus) && OnListed(cpus, obs) && k in cpus
    ensures HasOn(Total(cpus, period, obs), k, JiffiesOn(obs, k, |obs|), CyclesOn(obs, period, k, |obs|))
    decreases |obs|
  {
    if obs != [] {
      var last := |obs| - 1;
      var front, o := obs[..last], obs[last];
      PerProcessor(cpus, period, front, k);
      OnPrefix(obs, period, k, last, last);
      LastShare(cpus, period, obs);
      var q, jiffies, cycles := Total(cpus, period, front), JiffiesOn(obs, k, last), CyclesOn(obs, period, k, last);
      AddedOn(q, period, o, k, Share(obs, last), jiffies, cycles);
      assert Total(cpus, period, obs) == C.Added(q, period, o.comm, o.ts, o.ustime, o.mhz, o.cpu);
    }
  }

  /** What a process has on processor `k`. */
  predicate HasOn(p: C.Process, k: int, jiffies: int, cycles: real) {
    k in p.totJiffies && p.totJiffies[k] == jiffies && k in p.mcyc && p.mcyc[k] == cycles
  }

  /** What an observation adds on each processor. */
  lemma AddedOn(q: C.Process, period: real, o: Observation, k: int, diff: int, jiffies: int, cycles: real)
    requires HasOn(q, k, jiffies, cycles) && diff == o.ustime - if q.first == 0.0 then o.ustime else q.jiffies
    ensures var here := o.cpu == k;
            HasOn(C.Added(q, period, o.comm, o.ts, o.ustime, o.mhz, o.cpu), k, jiffies + (if here then diff else 0),
                  cycles + if here then Weigh(diff, period, o.mhz) else 0.0)
  {
    assert Weigh(diff, period, o.mhz) == Megacycles(diff, period, o.mhz);
    if o.mhz == 0.0 { assert Weigh(diff, period, o.mhz) == 0.0; }
  }

  /** The counts of the first `n` observations on processor `k`, each times its frequency. */
  function TicksOn(obs: seq<Observation>, k: int, n: nat): real
    requires n <= |obs|
  {
    if n == 0 then 0.0
    else TicksOn(obs, k, n - 1) + if obs[n - 1].cpu == k then Share(obs, n - 1) as real * obs[n - 1].mhz else 0.0
  }

  /** The cycles are that sum divided by the ticks per second. */
  lemma {:induction false} CyclesInTicks(obs: seq<Observation>, period: real, tick: real, k: int, n: nat)
    requires period * tick == 1.0 && n <= |obs|
    ensures CyclesOn(obs, period, k, n) * tick == TicksOn(obs, k, n)
  {
    if n > 0 {
      CyclesInTicks(obs, period, tick, k, n - 1);
      if obs[n - 1].cpu == k {
        var d, f := Share(obs, n - 1), obs[n - 1].mhz;
        OneTick(d as real, period, f, tick);
        Spread(CyclesOn(obs, period, k, n - 1), Weigh(d, period, f), tick);
      }
    }
  }

  lemma Spread(a: real, b: real, t: real)
    ensures (a + b) * t == a * t + b * t
  {
  }

  /** Processors on which the thread was never observed have nothing. */
  lemma {:induction false} NeverOn(obs: seq<Observation>, period: real, k: int, n: nat)
    requires n <= |obs| && forall i :: 0 <= i < n ==> obs[i].cpu != k
    ensures JiffiesOn(obs, k, n) == 0 && CyclesOn(obs, period, k, n) == 0.0
  {
    if n > 0 { NeverOn(obs, period, k, n - 1); }
  }

  /** If it was observed there only, the processor has all jiffies; at one frequency also all cycles. */
  lemma {:induction false} OnlyOn(obs: seq<Observation>, period: real, k: int, mhz: real, n: nat)
    requires 0 < n <= |obs| && obs[0].ts != 0.0 && forall i :: 0 <= i < n ==> obs[i].cpu == k && obs[i].mhz == mhz
    ensures JiffiesOn(obs, k, n) == obs[n - 1].ustime - obs[0].ustime
    ensures CyclesOn(obs, period, k, n) == Weigh(obs[n - 1].ustime - obs[0].ustime, period, mhz)
  {
    if n > 1 {
      OnlyOn(obs, period, k, mhz, n - 1);
      assert Counting(obs, n - 1);
      var a, b := obs[n - 2].ustime - obs[0].ustime, obs[n - 1].ustime - obs[n - 2].ustime;
      WeighAdd(a, b, period, mhz);
    }
  }

  lemma WeighAdd(a: int, b: int, period: real, mhz: real)
    ensures Weigh(a + b, period, mhz) == Weigh(a, period, mhz) + Weigh(b, period, mhz)
  {
    assert (a + b) as real * period == a as real * period + b as real * period;
  }

  // ---- Megacycles ----

  function RealSum(m: map<int, real>, cpus: seq<int>): real {
    if cpus == [] then 0.0 else (if cpus[0] in m then m[cpus[0]] else 0.0) + RealSum(m, cpus[1..])
  }

  lemma {:induction false} RealSumElsewhere(m: map<int, real>, cpus: seq<int>, k: int, v: real)
    requires k !in cpus
    ensures RealSum(m[k := v], cpus) == RealSum(m, cpus)
    decreases |cpus|
  {
    if cpus != [] {
      RealSumElsewhere(m, cpus[1..], k, v);
    }
  }

  lemma {:induction false} RealSumUpdate(m: map<int, real>, cpus: seq<int>, k: int, v: real)
    requires k in cpus && k in m && Distinct(cpus)
    ensures RealSum(m[k := v], cpus) == RealSum(m, cpus) - m[k] + v
    decreases |cpus|
  {
    assert forall i :: 1 <= i < |cpus| ==> cpus[0] != cpus[i];
    if cpus[0] == k {
      assert k !in cpus[1..];
      RealSumElsewhere(m, cpus[1..], k, v);
    } else {
      RealSumUpdate(m, cpus[1..], k, v);
    }
  }

  lemma {:induction false} RealSumOfZeros(m: map<int, real>, cpus: seq<int>)
    requires forall k <- m :: m[k] == 0.0
    ensures RealSum(m, cpus) == 0.0
    decreases |cpus|
  {
    if cpus != [] {
      RealSumOfZeros(m, cpus[1..]);
    }
  }

  predicate Rising(obs: seq<Observation>) {
    forall i :: 0 < i < |obs| ==> obs[i - 1].ustime <= obs[i].ustime
  }

  predicate Within(obs: seq<Observation>, top: real) {
    forall i :: 0 <= i < |obs| ==> 0.0 <= obs[i].mhz <= top
  }

  lemma MegacyclesBound(diff: int, period: real, mhz: real, top: real)
    requires diff >= 0 && period >= 0.0 && 0.0 <= mhz <= top
    ensures 0.0 <= Megacycles(diff, period, mhz) <= Megacycles(diff, period, top)
  {
    var x := diff as real * period;
    assert x >= 0.0;
    assert x * mhz <= x * top;
  }

  /** What one sample adds to a thread's megacycles. */
  lemma CyclesAdded(cpus: seq<int>, q: C.Process, period: real, o: Observation)
    requires Distinct(cpus) && o.cpu in cpus && q.mcyc.Keys == set k | k in cpus
    ensures var p := C.Added(q, period, o.comm, o.ts, o.ustime, o.mhz, o.cpu);
            && RealSum(p.mcyc, cpus) == RealSum(q.mcyc, cpus) + Megacycles(p.total - q.total, period, o.mhz)
            && p.mcyc.Keys == set k | k in cpus
  {
    var p := C.Added(q, period, o.comm, o.ts, o.ustime, o.mhz, o.cpu);
    if o.mhz != 0.0 {
      RealSumUpdate(q.mcyc, cpus, o.cpu, p.mcyc[o.cpu]);
    }
  }

  /** Counters that do not fall give every sample a share that is not negative. */
  lemma ShareNotNegative(cpus: seq<int>, period: real, obs: seq<Observation>)
    requires Distinct(cpus) && OnListed(cpus, obs) && Rising(obs) && obs != []
    ensures Total(cpus, period, obs).total >= Total(cpus, period, obs[..|obs| - 1]).total
  {
    var last := |obs| - 1;
    if last > 0 {
      JiffiesAddUp(cpus, period, obs[..last]);
      assert obs[last - 1].ustime <= obs[last].ustime;
    }
  }

  /** With counters that do not fall and frequencies within [0, top], a thread's megacycles are at most `top` times the
      time of its jiffies. */
  lemma MegacyclesWithinTop(cpus: seq<int>, period: real, obs: seq<Observation>, top: real)
    requires Distinct(cpus) && OnListed(cpus, obs) && Rising(obs) && Within(obs, top) && period >= 0.0
    ensures var p := Total(cpus, period, obs);
            0.0 <= RealSum(p.mcyc, cpus) <= Weigh(p.total, period, top)
  {
    MegacyclesBelow(cpus, period, obs, top);
    WeighsTheSame(Total(cpus, period, obs).total, period, top);
  }

  lemma WeighsTheSame(diff: int, period: real, mhz: real)
    ensures Megacycles(diff, period, mhz) == Weigh(diff, period, mhz)
  {
  }

  lemma {:induction false} MegacyclesBelow(cpus: seq<int>, period: real, obs: seq<Observation>, top: real)
    requires Distinct(cpus) && OnListed(cpus, obs) && Rising(obs) && Within(obs, top) && period >= 0.0
    ensures var p := Total(cpus, period, obs);
            && 0.0 <= RealSum(p.mcyc, cpus) <= Megacycles(p.total, period, top)
            && p.mcyc.Keys == set k | k in cpus
    decreases |obs|
  {
    var p := Total(cpus, period, obs);
    if obs == [] {
      RealSumOfZeros(p.mcyc, cpus);
    } else {
      var last := |obs| - 1;
      var o, q := obs[last], Total(cpus, period, obs[..last]);
      MegacyclesBelow(cpus, period, obs[..last], top);
      ShareNotNegative(cpus, period, obs);
      assert o.cpu in cpus;
      CyclesAdded(cpus, q, period, o);
      MegacyclesBound(p.total - q.total, period, o.mhz, top);
      MegacyclesAdd(q.total, p.total - q.total, period, top);
    }
  }

  lemma MegacyclesAdd(a: int, b: int, period: real, mhz: real)
    ensures Megacycles(a + b, period, mhz) == Megacycles(a, period, mhz) + Megacycles(b, period, mhz)
  {
    assert (a + b) as real == a as real + b as real;
    assert (a + b) as real * period == a as real * period + b as real * period;
  }

  // ---- Whole traces ----

  /** What a sample says about a thread. */
  function Seen(s: Sample, info: Info): Observation {
    Observation(info.comm, C.TimeOf(s), info.ustime, C.FreqOf(s, info.processor), info.processor)
  }

  /** The observation of a thread in a sample, unless it has none there or is banned. */
  function SeenIn(banned: seq<string>, s: Sample, pid: Pid): seq<Observation> {
    var threads := C.Counted(banned, s);
    if pid in threads then [Seen(s, threads[pid])] else []
  }

  /** The observations of a thread in a trace, one for each sample that a time stamp ends and that counts the thread;
      `s` is the sample under construction. */
  function Observations(banned: seq<string>, s: Sample, rows: seq<Row>, pid: Pid): seq<Observation>
    decreases |rows|
  {
    if rows == [] then []
    else if rows[0].Time? then
      SeenIn(banned, s, pid) + Observations(banned, NOTHING.(time := Some(Seconds(rows[0].us))), rows[1..], pid)
    else Observations(banned, Fill(s, rows[0]), rows[1..], pid)
  }

  /** The history of a thread is that of the observations `obs`. */
  ghost predicate HasTotal(y: C.Tally, pid: Pid, obs: seq<Observation>) {
    && (pid in y.history <==> obs != [])
    && (obs != [] ==> y.init && OnListed(y.cpus, obs) && y.history[pid] == Total(y.cpus, C.Period(y.tick), obs))
    && (y.init ==> Distinct(y.cpus))
  }

  lemma TotalSnoc(cpus: seq<int>, period: real, obs: seq<Observation>, o: Observation)
    ensures Total(cpus, period, obs + [o])
         == C.Added(Total(cpus, period, obs), period, o.comm, o.ts, o.ustime, o.mhz, o.cpu)
  {
    assert (obs + [o])[..|obs|] == obs;
  }

  lemma ConsumeTotals(banned: seq<string>, y: C.Tally, props: Properties, s: Sample, pid: Pid, obs: seq<Observation>)
    requires HasTotal(y, pid, obs) && (props.cpus.Some? ==> Distinct(props.cpus.value))
    requires C.Consume(banned, y, props, s).Some?
    ensures HasTotal(C.Consume(banned, y, props, s).value, pid, obs + SeenIn(banned, s, pid))
  {
    var z, threads := C.Initialized(y, props).value, C.Counted(banned, s);
    assert HasTotal(z, pid, obs);
    var w := C.Consume(banned, y, props, s).value;
    assert w.history == C.Histories(z, s, threads) && w.cpus == z.cpus && w.tick == z.tick && w.init;
    if pid in threads {
      ThreadTotal(z, s, pid, threads[pid], obs);
      assert w.history[pid] == C.AddThread(z, s, pid, threads[pid]);
    } else {
      assert obs + [] == obs;
    }
  }

  lemma ThreadTotal(y: C.Tally, s: Sample, pid: Pid, info: Info, obs: seq<Observation>)
    requires HasTotal(y, pid, obs) && info.processor in y.cpus
    ensures C.AddThread(y, s, pid, info) == Total(y.cpus, C.Period(y.tick), obs + [Seen(s, info)])
    ensures OnListed(y.cpus, obs + [Seen(s, info)])
  {
    var p, o := Total(y.cpus, C.Period(y.tick), obs), Seen(s, info);
    assert p == if pid in y.history then y.history[pid] else C.NewProcess(y.cpus);
    TotalSnoc(y.cpus, C.Period(y.tick), obs, o);
    assert C.AddThread(y, s, pid, info) == C.Added(p, C.Period(y.tick), o.comm, o.ts, o.ustime, o.mhz, o.cpu);
    ListedSnoc(y.cpus, obs, o);
  }

  lemma ListedSnoc(cpus: seq<int>, obs: seq<Observation>, o: Observation)
    requires OnListed(cpus, obs) && o.cpu in cpus
    ensures OnListed(cpus, obs + [o])
  {
  }

  lemma {:induction false} RowsTotals(banned: seq<string>, st: C.State, rows: seq<Row>, pid: Pid, obs: seq<Observation>)
    requires HasTotal(st.tally, pid, obs) && (st.props.cpus.Some? ==> Distinct(st.props.cpus.value))
    requires C.OnRows(banned, st, rows).Some?
    ensures HasTotal(C.OnRows(banned, st, rows).value.tally, pid, obs + Observations(banned, st.sample, rows, pid))
    decreases |rows|
  {
    if rows == [] {
      assert obs + [] == obs;
    } else {
      var seen := obs;
      if rows[0].Time? {
        seen := obs + SeenIn(banned, st.sample, pid);
        StampTotals(banned, st, pid, obs);
      }
      RowsTotals(banned, C.OnRow(banned, st, rows[0]).value, rows[1..], pid, seen);
      if rows[0].Time? {
        ObsAssoc(obs, SeenIn(banned, st.sample, pid),
                 Observations(banned, NOTHING.(time := Some(Seconds(rows[0].us))), rows[1..], pid));
      }
    }
  }

  /** A sample that holds nothing is not consumed, and shows no thread. */
  lemma StampTotals(banned: seq<string>, st: C.State, pid: Pid, obs: seq<Observation>)
    requires HasTotal(st.tally, pid, obs) && (st.props.cpus.Some? ==> Distinct(st.props.cpus.value))
    ensures st.sample == NOTHING ==> HasTotal(st.tally, pid, obs + SeenIn(banned, st.sample, pid))
    ensures st.sample != NOTHING && C.Consume(banned, st.tally, st.props, st.sample).Some? ==>
      HasTotal(C.Consume(banned, st.tally, st.props, st.sample).value, pid, obs + SeenIn(banned, st.sample, pid))
  {
    if st.sample == NOTHING {
      assert obs + [] == obs;
    } else if C.Consume(banned, st.tally, st.props, st.sample).Some? {
      ConsumeTotals(banned, st.tally, st.props, st.sample, pid, obs);
    }
  }

  lemma ObsAssoc(a: seq<Observation>, b: seq<Observation>, c: seq<Observation>)
    ensures a + b + c == a + (b + c)
  {
  }

  /** For every trace that is accepted, the threads with a history are those that some sample counts, and each one's
      history is that of its own observations. */
  lemma HistoriesAreTotals(banned: seq<string>, rows: seq<Row>, pid: Pid)
    requires C.Run(banned, rows).Some?
    ensures HasTotal(C.Run(banned, rows).value.tally, pid, Observations(banned, NOTHING, rows, pid))
  {
    RowsTotals(banned, C.START, rows, pid, []);
    assert [] + Observations(banned, NOTHING, rows, pid) == Observations(banned, NOTHING, rows, pid);
  }

  /** So in every accepted trace, a thread's jiffies per processor add up to its last counter minus its first, the
      first being that of its first observation at a time other than 0. */
  lemma TraceJiffies(banned: seq<string>, rows: seq<Row>, pid: Pid)
    requires C.Run(banned, rows).Some? && pid in C.Run(banned, rows).value.tally.history
    ensures var y, obs := C.Run(banned, rows).value.tally, Observations(banned, NOTHING, rows, pid);
            var p := y.history[pid];
            && obs != [] && p.first == obs[Base(obs)].ts && p.last == obs[|obs| - 1].ts
            && p.total == Sum(p.totJiffies, y.cpus) == obs[|obs| - 1].ustime - obs[Base(obs)].ustime
            && (obs[0].ts != 0.0 ==> p.total == obs[|obs| - 1].ustime - obs[0].ustime)
  {
    HistoriesAreTotals(banned, rows, pid);
    var y, obs := C.Run(banned, rows).value.tally, Observations(banned, NOTHING, rows, pid);
    JiffiesAddUp(y.cpus, C.Period(y.tick), obs);
  }

  /** A process has the counts of the observations on processor `k`, and as megacycles those counts times their
      frequencies, divided by the ticks per second. */
  predicate CountsOn(p: C.Process, tick: int, obs: seq<Observation>, k: int) {
    && k in p.totJiffies && p.totJiffies[k] == JiffiesOn(obs, k, |obs|)
    && k in p.mcyc && (tick != 0 ==> p.mcyc[k] * tick as real == TicksOn(obs, k, |obs|))
  }

  /** In every accepted trace, each thread has this of its own observations on each processor. */
  lemma TraceProcessors(banned: seq<string>, rows: seq<Row>, pid: Pid, k: int)
    requires C.Run(banned, rows).Some? && pid in C.Run(banned, rows).value.tally.history
    requires k in C.Run(banned, rows).value.tally.cpus
    ensures var y, obs := C.Run(banned, rows).value.tally, Observations(banned, NOTHING, rows, pid);
            CountsOn(y.history[pid], y.tick, obs, k)
  {
    HistoriesAreTotals(banned, rows, pid);
    var y, obs := C.Run(banned, rows).value.tally, Observations(banned, NOTHING, rows, pid);
    TotalOn(y, pid, obs, k);
  }

  lemma TotalOn(y: C.Tally, pid: Pid, obs: seq<Observation>, k: int)
    requires HasTotal(y, pid, obs) && pid in y.history && k in y.cpus
    ensures CountsOn(y.history[pid], y.tick, obs, k)
  {
    PerProcessor(y.cpus, C.Period(y.tick), obs, k);
    HasCounts(y.history[pid], y.tick, obs, k);
  }

  lemma HasCounts(p: C.Process, tick: int, obs: seq<Observation>, k: int)
    requires HasOn(p, k, JiffiesOn(obs, k, |obs|), CyclesOn(obs, C.Period(tick), k, |obs|))
    ensures CountsOn(p, tick, obs, k)
  {
    if tick != 0 {
      PeriodMeans(tick);
      CyclesInTicks(obs, C.Period(tick), tick as real, k, |obs|);
    }
  }

  /** And with counters that do not fall and frequencies within [0, top], its megacycles are at most
      `top` times the time of its jiffies, with `tick` jiffies a second. */
  lemma TraceMegacycles(banned: seq<string>, rows: seq<Row>, pid: Pid, top: real)
    requires C.Run(banned, rows).Some? && pid in C.Run(banned, rows).value.tally.history
    requires C.Run(banned, rows).value.tally.tick > 0
    requires Rising(Observations(banned, NOTHING, rows, pid)) && Within(Observations(banned, NOTHING, rows, pid), top)
    ensures var y := C.Run(banned, rows).value.tally;
            var p := y.history[pid];
            0.0 <= RealSum(p.mcyc, y.cpus) * y.tick as real <= top * p.total as real
  {
    HistoriesAreTotals(banned, rows, pid);
    var y, obs := C.Run(banned, rows).value.tally, Observations(banned, NOTHING, rows, pid);
    TotalWithinTop(y, pid, obs, top);
  }

  lemma TotalWithinTop(y: C.Tally, pid: Pid, obs: seq<Observation>, top: real)
    requires HasTotal(y, pid, obs) && pid in y.history && y.tick > 0 && Rising(obs) && Within(obs, top)
    ensures var p := y.history[pid];
            0.0 <= RealSum(p.mcyc, y.cpus) * y.tick as real <= top * p.total as real
  {
    var p := y.history[pid];
    PeriodMeans(y.tick);
    MegacyclesWithinTop(y.cpus, C.Period(y.tick), obs, top);
    BoundInTicks(RealSum(p.mcyc, y.cpus), p.total, y.tick, top);
  }

  /** A bound in ticks: at `tick` ticks per second, the cycles times `tick` are at most the frequency times the ticks. */
  lemma BoundInTicks(cycles: real, ticks: int, tick: int, top: real)
    requires tick > 0 && 0.0 <= cycles <= Weigh(ticks, C.Period(tick), top)
    ensures 0.0 <= cycles * tick as real <= top * ticks as real
  {
    var d, t, period := ticks as real, tick as real, C.Period(tick);
    PeriodMeans(tick);
    var most := Weigh(ticks, period, top);
    OneTick(d, period, top, t);
    Ordered(cycles, most, t);
  }

  lemma OneTick(d: real, period: real, f: real, t: real)
    requires period * t == 1.0
    ensures d * period * f * t == f * d
  {
    assert d * period * f * t == f * d * (period * t);
  }

  lemma Ordered(a: real, b: real, t: real)
    requires 0.0 <= a <= b && t > 0.0
    ensures 0.0 <= a * t <= b * t
  {
  }

  predicate IsHeader(row: Row) { row.Tick? || row.Cpus? }

  /** The ticks per second and the processors are those of the header. */
  lemma {:induction false} HeaderTaken(banned: seq<string>, st: C.State, rows: seq<Row>, hz: int, cpus: seq<int>)
    requires st.props == Properties(Some(hz), Some(cpus)) && C.OnRows(banned, st, rows).Some?
    requires st.tally.init ==> st.tally.tick == hz && st.tally.cpus == cpus
    requires forall i :: 0 <= i < |rows| ==> !IsHeader(rows[i])
    ensures var y := C.OnRows(banned, st, rows).value.tally;
      y.init ==> y.tick == hz && y.cpus == cpus
    decreases |rows|
  {
    if rows != [] {
      assert !IsHeader(rows[0]);
      HeaderTaken(banned, C.OnRow(banned, st, rows[0]).value, rows[1..], hz, cpus);
    }
  }

  lemma TraceHeader(banned: seq<string>, hz: int, cpus: seq<int>, rows: seq<Row>)
    requires Distinct(cpus) && forall i :: 0 <= i < |rows| ==> !IsHeader(rows[i])
    requires C.Run(banned, [Tick(hz)] + ([Cpus(cpus)] + rows)).Some?
    ensures var y := C.Run(banned, [Tick(hz)] + ([Cpus(cpus)] + rows)).value.tally;
      y.init ==> y.tick == hz && y.cpus == cpus
  {
    var a := C.START.(props := Properties(Some(hz), None));
    var b := C.START.(props := Properties(Some(hz), Some(cpus)));
    C.FirstRow(banned, C.START, Tick(hz), [Cpus(cpus)] + rows);
    C.FirstRow(banned, a, Cpus(cpus), rows);
    HeaderTaken(banned, b, rows, hz, cpus);
  }

  /** What an observation takes from its sample, in the units of the rows. */
  lemma SeenMeans(banned: seq<string>, s: Sample, us: int, pid: Pid)
    requires s.time == Some(Seconds(us)) && pid in C.PidsOf(s) && C.PidsOf(s)[pid].comm !in banned
    ensures var info := C.PidsOf(s)[pid];
      && |SeenIn(banned, s, pid)| == 1
      && var o := SeenIn(banned, s, pid)[0];
      && o.comm == info.comm && o.ustime == info.ustime && o.cpu == info.processor && o.ts * 1000000.0 == us as real
      && o.mhz * 1000.0 == if s.kHz.Some? && o.cpu in s.kHz.value then s.kHz.value[o.cpu] as real else 0.0
  {
    Units(us);
    var cpu := C.PidsOf(s)[pid].processor;
    if s.kHz.Some? && cpu in s.kHz.value { Units(s.kHz.value[cpu]); }
  }

  // ---- The summary ----

  /** The threads kept, in the order in which the map of histories lists them. */
  function Kept(y: C.Tally, order: seq<Pid>): seq<Pid> {
    if order == [] then []
    else
      var last := |order| - 1;
      Kept(y, order[..last])
      + if IsKept(y, order[last]) then [order[last]] else []
  }

  predicate IsKept(y: C.Tally, pid: Pid) {
    pid in y.history && C.Keeps(y, y.history[pid])
  }

  /** A thread is kept if it used any jiffies and was there for more than a hundredth of the trace. */
  lemma KeptIf(y: C.Tally, p: C.Process)
    ensures C.Keeps(y, p) <==> p.total > 0 && 100.0 * (p.last - p.first) > y.traceEnd - y.traceStart
  {
  }

  function Cycles(y: C.Tally, pid: Pid): real {
    if pid in y.history then RealSum(y.history[pid].mcyc, y.cpus) else 0.0
  }

  function AllCycles(y: C.Tally, pids: seq<Pid>): (vs: seq<real>)
    ensures |vs| == |pids|
  {
    if pids == [] then [] else AllCycles(y, pids[..|pids| - 1]) + [Cycles(y, pids[|pids| - 1])]
  }

  lemma AllCyclesStep(y: C.Tally, pids: seq<Pid>, pid: Pid)
    ensures AllCycles(y, pids + [pid]) == AllCycles(y, pids) + [Cycles(y, pid)]
  {
    assert (pids + [pid])[..|pids|] == pids;
  }

  function Added(vs: seq<real>): real {
    if vs == [] then 0.0 else Added(vs[..|vs| - 1]) + vs[|vs| - 1]
  }

  /** `most` is the largest of the values, or 0 when none is positive; `index` is where it first occurs, or 0. */
  ghost predicate FirstMaximum(vs: seq<real>, index: nat, most: real) {
    && most >= 0.0 && (forall i :: 0 <= i < |vs| ==> vs[i] <= most)
    && if most > 0.0 then index < |vs| && vs[index] == most && forall i :: 0 <= i < index ==> vs[i] < most
       else index == 0
  }

  lemma FirstMaximumStep(vs: seq<real>, index: nat, most: real, v: real)
    requires FirstMaximum(vs, index, most)
    ensures if v > most then FirstMaximum(vs + [v], |vs|, v) else FirstMaximum(vs + [v], index, most)
    ensures Added(vs + [v]) == Added(vs) + v
  {
    assert (vs + [v])[..|vs|] == vs;
  }

  /** Whenever some value is positive, the index points at the first of the largest. */
  lemma FirstMaximumMeans(vs: seq<real>, index: nat, most: real, k: nat)
    requires FirstMaximum(vs, index, most) && k < |vs| && vs[k] > 0.0
    ensures index < |vs| && vs[k] <= vs[index] && (k < index ==> vs[k] < vs[index])
  {
  }

  /** One more result: the first maximum and the sum move on. */
  method Consider(index: nat, most: real, sum: real, count: nat, v: real, ghost vs: seq<real>)
    returns (index': nat, most': real, sum': real)
    requires FirstMaximum(vs, index, most) && sum == Added(vs) && count == |vs|
    ensures FirstMaximum(vs + [v], index', most') && sum' == Added(vs + [v])
  {
    FirstMaximumStep(vs, index, most, v);
    index', most', sum' := index, most, sum + v;
    if v > most {
      most', index' := v, count;
    }
  }

  /** `order` lists the threads that have a history, once each. */
  ghost predicate Lists(y: C.Tally, order: seq<Pid>) {
    Distinct(order) && forall pid :: pid in y.history <==> pid in order
  }

  /** The threads kept are in the results once each, in the order of the list, and no others. */
  lemma {:induction false} KeptMeans(y: C.Tally, order: seq<Pid>)
    requires Distinct(order)
    ensures Distinct(Kept(y, order))
    ensures forall pid :: pid in Kept(y, order) <==> pid in order && IsKept(y, pid)
  {
    if order != [] {
      var last := |order| - 1;
      KeptMeans(y, order[..last]);
      assert order == order[..last] + [order[last]];
      assert order[last] !in order[..last];
    }
  }

  /** The results array, the index and megacycles of the main thread, and the sum of all megacycles. */
  method Summarize(y: C.Tally, order: seq<Pid>) returns (results: seq<Pid>, index: nat, most: real, sum: real)
    requires Lists(y, order)
    ensures results == Kept(y, order) && Distinct(results)
    ensures forall pid :: pid in results <==> IsKept(y, pid)
    ensures FirstMaximum(AllCycles(y, results), index, most)
    ensures sum == Added(AllCycles(y, results))
    ensures forall i :: 0 <= i < |results| ==> results[i] in y.history
    ensures forall i :: 0 <= i < |results| ==>
      AllCycles(y, results)[i] == RealSum(y.history[results[i]].mcyc, y.cpus)
  {
    results, index, most, sum := [], 0, 0.0, 0.0;
    for i := 0 to |order|
      invariant results == Kept(y, order[..i])
      invariant FirstMaximum(AllCycles(y, results), index, most) && sum == Added(AllCycles(y, results))
    {
      KeptStep(y, order, i);
      if IsKept(y, order[i]) {
        AllCyclesStep(y, results, order[i]);
        index, most, sum := Consider(index, most, sum, |results|, Cycles(y, order[i]), AllCycles(y, results));
        results := results + [order[i]];
      }
    }
    assert order[..|order|] == order;
    KeptMeans(y, order);
    forall i | 0 <= i < |results|
      ensures results[i] in y.history && AllCycles(y, results)[i] == RealSum(y.history[results[i]].mcyc, y.cpus)
    {
      AllCyclesAt(y, results, i);
    }
  }

  lemma {:induction false} AllCyclesAt(y: C.Tally, pids: seq<Pid>, i: nat)
    requires i < |pids|
    ensures AllCycles(y, pids)[i] == Cycles(y, pids[i])
  {
    if i < |pids| - 1 { AllCyclesAt(y, pids[..|pids| - 1], i); }
  }

  lemma KeptStep(y: C.Tally, order: seq<Pid>, i: nat)
    requires i < |order|
    ensures Kept(y, order[..i + 1]) == Kept(y, order[..i]) + if IsKept(y, order[i]) then [order[i]] else []
  {
    assert order[..i + 1][..i] == order[..i];
  }
}
