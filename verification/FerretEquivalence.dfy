/** The C++ post-processor gives, thread by thread, what ferret.py gives. */
module FerretEquivalence {
  import opened Bytes
  import opened FerretTrace
  import P = FerretPy
  import C = FerretCpp

  /** One thread's history in both. */
  ghost predicate SameThread(c: C.Process, p: P.Process, cpus: seq<int>) {
    && c.comm == p.comm && c.last == p.last && c.totJiffies == p.totJiffies && c.mcyc == p.mcyc
    && (if p.first == None then c.first == 0.0 else c.first == p.first.value && c.jiffies == p.jiffies)
    && c.total == Sum(p.totJiffies, cpus)
    && p.totJiffies.Keys == p.mcyc.Keys == set k | k in cpus
  }

  ghost predicate SameThreads(c: map<Pid, C.Process>, p: map<Pid, P.Process>, cpus: seq<int>) {
    c.Keys == p.Keys && forall pid <- p :: SameThread(c[pid], p[pid], cpus) && p[pid].first.Some?
  }

  ghost predicate SameTally(c: C.Tally, p: P.Tally) {
    && c.init == p.init
    && (if p.init then c.tick == p.tick && c.cpus == p.cpus && Distinct(p.cpus) else p.history == map[])
    && (c.started <==> p.traceStart.Some?) && c.traceEnd == p.traceEnd
    && SameThreads(c.history, p.history, p.cpus)
  }

  ghost predicate Same(c: C.State, p: P.State) {
    && c.sample == p.sample && c.props == p.props
    && (p.props.cpus.Some? ==> Distinct(p.props.cpus.value))
    && SameTally(c.tally, p.tally)
  }

  lemma NewThread(cpus: seq<int>)
    ensures SameThread(C.NewProcess(cpus), P.NewProcess(cpus), cpus)
  {
    SumOfZeros(P.NewProcess(cpus).totJiffies, cpus);
  }

  lemma SameAdd(c: C.Process, p: P.Process, cpus: seq<int>, period: real, comm: string, ts: real, ustime: int,
                mhz: real, cpu: int)
    requires SameThread(c, p, cpus) && Distinct(cpus)
    requires P.Add(p, period, comm, ts, ustime, mhz, cpu).Some?
    ensures SameThread(C.Added(c, period, comm, ts, ustime, mhz, cpu),
                       P.Add(p, period, comm, ts, ustime, mhz, cpu).value, cpus)
  {
    var p' := P.Add(p, period, comm, ts, ustime, mhz, cpu).value;
    SumUpdate(p.totJiffies, cpus, cpu, p'.totJiffies[cpu]);
    if mhz < 0.0 {
      // An unplugged processor is let through only when no time was spent on it, and then it adds nothing.
      assert Megacycles(0, period, mhz) == 0.0;
      assert c.mcyc[cpu := c.mcyc[cpu] + 0.0] == c.mcyc;
    }
  }

  lemma SameThreadAdded(c: C.Tally, p: P.Tally, s: Sample, pid: Pid)
    requires p.tick != 0 && c.tick == p.tick && c.cpus == p.cpus && Distinct(p.cpus)
    requires s.time.Some? && s.pids.Some? && pid in s.pids.value && P.AddThread(p, s, pid).Some?
    requires SameThreads(c.history, p.history, p.cpus)
    ensures s.pids.value[pid].processor in p.cpus
    ensures SameThread(C.AddThread(c, s, pid, s.pids.value[pid]), P.AddThread(p, s, pid).value, p.cpus)
    ensures P.AddThread(p, s, pid).value.first.Some?
  {
    var info := s.pids.value[pid];
    NewThread(p.cpus);
    var cp := if pid in c.history then c.history[pid] else C.NewProcess(c.cpus);
    var pp := if pid in p.history then p.history[pid] else P.NewProcess(p.cpus);
    SameAdd(cp, pp, p.cpus, 1.0 / p.tick as real, info.comm, s.time.value, info.ustime,
            MHz(s.kHz.value[info.processor]), info.processor);
  }

  lemma SameHistories(c: C.Tally, p: P.Tally, s: Sample)
    requires c.tick == p.tick && c.cpus == p.cpus && Distinct(p.cpus) && P.Acceptable(p, s)
    requires SameThreads(c.history, p.history, p.cpus)
    ensures C.Acceptable(c, s.pids.value)
    ensures SameThreads(C.Histories(c, s, s.pids.value), P.Histories(p, s), p.cpus)
  {
    forall pid | pid in s.pids.value
      ensures s.pids.value[pid].processor in c.cpus && P.AddThread(p, s, pid).value.first.Some?
      ensures SameThread(C.AddThread(c, s, pid, s.pids.value[pid]), P.AddThread(p, s, pid).value, p.cpus)
    {
      SameThreadAdded(c, p, s, pid);
    }
  }

  /** The sample that a time stamp ends: if the script accepts it, so does the port. */
  lemma SameConsume(c: C.Tally, p: P.Tally, props: Properties, s: Sample)
    requires SameTally(c, p) && (props.cpus.Some? ==> Distinct(props.cpus.value))
    requires P.Consume(p, props, s).Some?
    ensures C.Consume([], c, props, s).Some?
    ensures SameTally(C.Consume([], c, props, s).value, P.Consume(p, props, s).value)
    ensures C.Consume([], c, props, s).value.started
  {
    assert C.Counted([], s) == s.pids.value;
    SameHistories(C.Initialized(c, props).value, P.Initialized(p, props).value, s);
  }

  // ---- The start of the trace ----

  /** The time stamps of some rows, in microseconds. */
  function Stamps(rows: seq<Row>): seq<int> {
    if rows == [] then [] else (if rows[0].Time? then [rows[0].us] else []) + Stamps(rows[1..])
  }

  /** The first stamp other than 0, or 0 without one. */
  function FirstSet(stamps: seq<int>): int {
    if stamps == [] then 0 else if stamps[0] != 0 then stamps[0] else FirstSet(stamps[1..])
  }

  lemma {:induction false} FirstSetSnoc(stamps: seq<int>, x: int)
    ensures FirstSet(stamps + [x]) == if FirstSet(stamps) != 0 then FirstSet(stamps) else x
    decreases |stamps|
  {
    if stamps == [] {
      assert [] + [x] == [x] && [x][1..] == [];
    } else {
      assert (stamps + [x])[1..] == stamps[1..] + [x];
      FirstSetSnoc(stamps[1..], x);
    }
  }

  lemma {:induction false} FirstSetZero(stamps: seq<int>)
    ensures FirstSet(stamps) == 0 <==> forall i :: 0 <= i < |stamps| ==> stamps[i] == 0
    decreases |stamps|
  {
    if stamps != [] {
      FirstSetZero(stamps[1..]);
      assert forall i :: 1 <= i < |stamps| ==> stamps[i] == stamps[1..][i - 1];
    }
  }

  lemma SecondsApart(a: int, b: int)
    ensures Seconds(a) == Seconds(b) <==> a == b
  {
    assert Seconds(a) * 1000000.0 == a as real && Seconds(b) * 1000000.0 == b as real;
  }

  /** Where the two have the trace start after samples with these stamps: the port at the first stamp, the script, which
      takes 0 for "not yet set", at the first stamp other than 0; both have it end at the last one. */
  ghost predicate StartsAt(c: C.Tally, p: P.Tally, stamps: seq<int>) {
    if stamps == [] then !c.started && p.traceStart == None
    else
      && c.started && c.traceStart == Seconds(stamps[0])
      && p.traceStart == Some(Seconds(FirstSet(stamps)))
      && c.traceEnd == p.traceEnd == Seconds(stamps[|stamps| - 1])
  }

  lemma ConsumeStarts(c: C.Tally, p: P.Tally, props: Properties, s: Sample, stamps: seq<int>, x: int)
    requires StartsAt(c, p, stamps) && s.time == Some(Seconds(x))
    requires P.Consume(p, props, s).Some? && C.Consume([], c, props, s).Some?
    ensures StartsAt(C.Consume([], c, props, s).value, P.Consume(p, props, s).value, stamps + [x])
  {
    FirstSetSnoc(stamps, x);
    SecondsApart(FirstSet(stamps), 0);
    assert Seconds(0) == 0.0;
  }

  /** All stamps so far but the last belong to samples that were read. */
  ghost predicate Stamped(c: C.State, p: P.State, stamps: seq<int>) {
    if stamps == [] then c.sample.time == None && StartsAt(c.tally, p.tally, [])
    else
      var n := |stamps| - 1;
      c.sample.time == Some(Seconds(stamps[n])) && StartsAt(c.tally, p.tally, stamps[..n])
  }

  // ---- Rows ----

  lemma SameTime(c: C.State, p: P.State, row: Row, stamps: seq<int>)
    requires row.Time? && Same(c, p) && Stamped(c, p, stamps) && P.OnRow(p, row).Some?
    ensures C.OnRow([], c, row).Some?
    ensures Same(C.OnRow([], c, row).value, P.OnRow(p, row).value)
    ensures Stamped(C.OnRow([], c, row).value, P.OnRow(p, row).value, stamps + [row.us])
  {
    assert (stamps + [row.us])[..|stamps|] == stamps;
    if c.sample != NOTHING {
      var n := |stamps| - 1;
      assert n >= 0;
      SameConsume(c.tally, p.tally, p.props, p.sample);
      ConsumeStarts(c.tally, p.tally, p.props, p.sample, stamps[..n], stamps[n]);
      assert stamps[..n] + [stamps[n]] == stamps;
    }
  }

  lemma SameRow(c: C.State, p: P.State, row: Row, stamps: seq<int>)
    requires Same(c, p) && Stamped(c, p, stamps) && P.OnRow(p, row).Some?
    ensures C.OnRow([], c, row).Some?
    ensures Same(C.OnRow([], c, row).value, P.OnRow(p, row).value)
    ensures Stamped(C.OnRow([], c, row).value, P.OnRow(p, row).value, stamps + if row.Time? then [row.us] else [])
  {
    if row.Time? {
      SameTime(c, p, row, stamps);
    } else {
      assert stamps + [] == stamps;
    }
  }

  lemma {:induction false} SameRows(c: C.State, p: P.State, rows: seq<Row>, stamps: seq<int>)
    requires Same(c, p) && Stamped(c, p, stamps) && P.OnRows(p, rows).Some?
    ensures C.OnRows([], c, rows).Some?
    ensures Same(C.OnRows([], c, rows).value, P.OnRows(p, rows).value)
    ensures Stamped(C.OnRows([], c, rows).value, P.OnRows(p, rows).value, stamps + Stamps(rows))
    decreases |rows|
  {
    if rows == [] {
      assert stamps + [] == stamps;
    } else {
      var now := if rows[0].Time? then [rows[0].us] else [];
      SameRow(c, p, rows[0], stamps);
      SameRows(C.OnRow([], c, rows[0]).value, P.OnRow(p, rows[0]).value, rows[1..], stamps + now);
      StampsAssoc(stamps, now, Stamps(rows[1..]));
    }
  }

  lemma StampsAssoc(a: seq<int>, b: seq<int>, c: seq<int>)
    ensures a + b + c == a + (b + c)
  {
  }

  /** Whenever ferret.py accepts a trace, the port accepts it with a closing time stamp added, and finds the same threads
      with the same jiffies and megacycles per processor, the same duration and the same end; its running total is the
      sum that the script takes at the end. The port has the trace start at the first stamp, the script at the first
      stamp other than 0. */
  lemma PortAgrees(rows: seq<Row>, closing: int)
    requires P.Run(rows).Some?
    ensures C.Run([], rows + [Time(closing)]).Some? && Stamps(rows) != []
    ensures SameTally(C.Run([], rows + [Time(closing)]).value.tally, P.Run(rows).value)
    ensures StartsAt(C.Run([], rows + [Time(closing)]).value.tally, P.Run(rows).value, Stamps(rows))
  {
    SameRows(C.START, P.START, rows, []);
    var stamps := Stamps(rows);
    assert [] + stamps == stamps;
    C.RowsAppend([], C.START, rows, [Time(closing)]);
    assert [Time(closing)][1..] == [];
    var c, p := C.OnRows([], C.START, rows).value, P.OnRows(P.START, rows).value;
    LastSample(c, p, stamps);
  }

  lemma LastSample(c: C.State, p: P.State, stamps: seq<int>)
    requires Same(c, p) && Stamped(c, p, stamps) && P.Consume(p.tally, p.props, p.sample).Some?
    ensures stamps != [] && c.sample != NOTHING && C.Consume([], c.tally, c.props, c.sample).Some?
    ensures SameTally(C.Consume([], c.tally, c.props, c.sample).value, P.Consume(p.tally, p.props, p.sample).value)
    ensures StartsAt(C.Consume([], c.tally, c.props, c.sample).value, P.Consume(p.tally, p.props, p.sample).value, stamps)
  {
    assert c.sample.time.Some?;
    var n := |stamps| - 1;
    SameConsume(c.tally, p.tally, p.props, p.sample);
    ConsumeStarts(c.tally, p.tally, p.props, p.sample, stamps[..n], stamps[n]);
    assert stamps[..n] + [stamps[n]] == stamps;
  }

  /** The two agree on the start of the trace exactly when the first stamp is not 0 or all are 0. */
  lemma StartsAgree(c: C.Tally, p: P.Tally, stamps: seq<int>)
    requires StartsAt(c, p, stamps) && stamps != []
    ensures p.traceStart.Some?
    ensures c.traceStart == p.traceStart.value <==> stamps[0] != 0 || forall i :: 0 <= i < |stamps| ==> stamps[i] == 0
  {
    SecondsApart(stamps[0], FirstSet(stamps));
    FirstSetZero(stamps);
  }

  /** Then the same threads are kept; the durations are the same in any case. */
  lemma KeepsTheSame(c: C.Tally, p: P.Tally, pid: Pid)
    requires SameTally(c, p) && c.started && pid in p.history
    ensures pid in c.history && p.history[pid].first.Some?
    ensures c.history[pid].last - c.history[pid].first == p.history[pid].last - p.history[pid].first.value
    ensures c.traceStart == p.traceStart.value ==> (C.Keeps(c, c.history[pid]) <==> P.Keeps(p, p.history[pid]))
  {
    assert SameThread(c.history[pid], p.history[pid], p.cpus);
  }

  // ---- A trace that starts at 0 ----

  lemma OneRow(st: P.State, row: Row, rest: seq<Row>)
    requires P.OnRow(st, row).Some?
    ensures P.OnRows(st, [row] + rest) == P.OnRows(P.OnRow(st, row).value, rest)
    ensures Stamps([row] + rest) == (if row.Time? then [row.us] else []) + Stamps(rest)
  {
    assert ([row] + rest)[1..] == rest;
  }

  /** The rows of a sample with one thread that does not run. */
  function IdleRows(us: int, rest: seq<Row>): seq<Row> {
    [Time(us)] + ([Freqs([(0, 0)])] + ([Status(1, Info("a", 0, 0))] + rest))
  }

  /** The state of the script after these rows. */
  function Idle(us: int, tally: P.Tally): P.State {
    P.State(Sample(Some(Seconds(us)), Some(map[1 := Info("a", 0, 0)]), Some(map[0 := 0])),
            Properties(Some(1), Some([0])), tally)
  }

  lemma IdleSample(st: P.State, y: P.Tally, us: int, rest: seq<Row>)
    requires st.props == Properties(Some(1), Some([0]))
    requires if st.sample == NOTHING then y == st.tally else P.Consume(st.tally, st.props, st.sample) == Some(y)
    ensures P.OnRows(st, IdleRows(us, rest)) == P.OnRows(Idle(us, y), rest)
    ensures Stamps(IdleRows(us, rest)) == [us] + Stamps(rest)
  {
    var freqs, status := Freqs([(0, 0)]), Status(1, Info("a", 0, 0));
    var a := P.OnRow(st, Time(us)).value;
    OneRow(st, Time(us), [freqs] + ([status] + rest));
    assert [(0, 0)][..0] == [];
    assert FreqMap([(0, 0)]) == map[0 := 0];
    OneRow(a, freqs, [status] + rest);
    OneRow(P.OnRow(a, freqs).value, status, rest);
  }

  const HEADER := Properties(Some(1), Some([0]))

  /** What is known of the thread after such samples. */
  ghost predicate IdleTally(y: P.Tally) {
    && (if y.init then y.tick == 1 && y.cpus == [0] && y.history.Keys == {1} else y.history == map[])
    && (1 in y.history ==> y.history[1].mcyc.Keys == y.history[1].totJiffies.Keys == {0})
  }

  lemma IdleConsumed(y: P.Tally, us: int)
    requires IdleTally(y)
    ensures var r := P.Consume(y, HEADER, Idle(us, y).sample);
      r.Some? && IdleTally(r.value) && r.value.init
  {
    var z, s := P.Initialized(y, HEADER).value, Idle(us, y).sample;
    IdleAdded(z, us);
    assert P.Acceptable(z, s);
    assert P.Histories(z, s).Keys == {1};
  }

  lemma IdleAdded(z: P.Tally, us: int)
    requires IdleTally(z.(init := true)) || (z.history == map[] && z.tick == 1 && z.cpus == [0])
    ensures z.tick == 1 && z.cpus == [0]
    ensures var r := P.AddThread(z, Idle(us, z).sample, 1);
      r.Some? && r.value.mcyc.Keys == r.value.totJiffies.Keys == {0}
  {
    var p := if 1 in z.history then z.history[1] else P.NewProcess([0]);
    assert p.mcyc.Keys == p.totJiffies.Keys == {0};
    assert MHz(0) == 0.0;
  }

  /** A trace that the script accepts, with a first stamp of 0. */
  lemma IdleTrace() returns (rows: seq<Row>)
    ensures P.Run(rows).Some? && Stamps(rows) == [0, 1]
  {
    var tail := IdleRows(0, IdleRows(1, []));
    rows := [Tick(1)] + ([Cpus([0])] + tail);
    var a := P.START.(props := Properties(Some(1), None));
    OneRow(P.START, Tick(1), [Cpus([0])] + tail);
    OneRow(a, Cpus([0]), tail);
    var b := P.START.(props := HEADER);
    assert P.OnRow(a, Cpus([0])).value == b;
    IdleTail(b);
  }

  lemma IdleTail(b: P.State)
    requires b == P.START.(props := HEADER)
    ensures Stamps(IdleRows(0, IdleRows(1, []))) == [0, 1]
    ensures var r := P.OnRows(b, IdleRows(0, IdleRows(1, [])));
      r.Some? && P.Consume(r.value.tally, r.value.props, r.value.sample).Some?
  {
    IdleSample(b, b.tally, 0, IdleRows(1, []));
    IdleConsumed(b.tally, 0);
    var y := P.Consume(b.tally, HEADER, Idle(0, b.tally).sample).value;
    IdleSample(Idle(0, b.tally), y, 1, []);
    IdleConsumed(y, 1);
  }

  /** There is a trace that the script accepts and for which the two have different starts. */
  lemma StartsDiffer() returns (rows: seq<Row>)
    ensures P.Run(rows).Some? && C.Run([], rows + [Time(2)]).Some? && P.Run(rows).value.traceStart.Some?
    ensures P.Run(rows).value.traceStart.value != C.Run([], rows + [Time(2)]).value.tally.traceStart
  {
    rows := IdleTrace();
    assert Stamps(rows)[0] == 0 && Stamps(rows)[1] != 0;
    PortAgrees(rows, 2);
    StartsAgree(C.Run([], rows + [Time(2)]).value.tally, P.Run(rows).value, Stamps(rows));
  }
}
