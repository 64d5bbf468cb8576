/** The C++ post-processor as it runs: the process objects that `add` updates, and the loop over the rows. */
module FerretPost {
  import opened Bytes
  import opened FerretTrace
  import C = FerretCpp

  /** `diff` ticks on processor `cpu` go to the total and to the processor, and with a frequency their megacycles too;
      what the other processors have stays. */
  ghost predicate Counted(p: C.Process, q: C.Process, diff: int, mhz: real, cpu: int, period: real) {
    && q.total == p.total + diff
    && q.totJiffies == p.totJiffies[cpu := (if cpu in p.totJiffies then p.totJiffies[cpu] else 0) + diff]
    && q.mcyc.Keys == p.mcyc.Keys + (if mhz == 0.0 then {} else {cpu})
    && (forall k :: k in p.mcyc && (k != cpu || mhz == 0.0) ==> q.mcyc[k] == p.mcyc[k])
    && (mhz != 0.0 ==> q.mcyc[cpu] == (if cpu in p.mcyc then p.mcyc[cpu] else 0.0) + diff as real * period * mhz)
  }

  lemma AddedCounts(p: C.Process, comm: string, ts: real, ustime: int, mhz: real, cpu: int, period: real)
    ensures var diff := if p.first == 0.0 then 0 else ustime - p.jiffies;
      Counted(p, C.Added(p, period, comm, ts, ustime, mhz, cpu), diff, mhz, cpu, period)
  {
  }

  class FerretProcess {
    var comm: string
    var first: real
    var last: real
    var jiffies: int
    var total: int
    var totJiffies: map<int, int>
    var mcyc: map<int, real>

    function View(): C.Process
      reads this
    {
      C.Process(comm, first, last, jiffies, total, totJiffies, mcyc)
    }

    constructor (cpus: seq<int>)
      ensures View() == C.NewProcess(cpus)
    {
      comm, first, last, jiffies, total := "", 0.0, 0.0, 0, 0;
      totJiffies := map k | k in cpus :: 0;
      mcyc := map k | k in cpus :: 0.0;
    }

    method Add(ncomm: string, ts: real, ustime: int, mhz: real, cpu: int, period: real)
      modifies this
      ensures View() == C.Added(old(View()), period, ncomm, ts, ustime, mhz, cpu)
      ensures comm == ncomm && last == ts && jiffies == ustime
      ensures first == if old(first) == 0.0 then ts else old(first)
      ensures Counted(old(View()), View(), if old(first) == 0.0 then 0 else ustime - old(jiffies), mhz, cpu, period)
    {
      comm := ncomm;
      if first == 0.0 {
        first := ts;
        jiffies := ustime;
      }
      last := ts;
      var diff := ustime - jiffies;
      jiffies := ustime;
      total := total + diff;
      totJiffies := totJiffies[cpu := (if cpu in totJiffies then totJiffies[cpu] else 0) + diff];
      if mhz != 0.0 {
        mcyc := mcyc[cpu := (if cpu in mcyc then mcyc[cpu] else 0.0) + Megacycles(diff, period, mhz)];
      }
      AddedCounts(old(View()), ncomm, ts, ustime, mhz, cpu, period);
    }
  }

  /** The map of processes; different threads have different objects. */
  ghost predicate Apart(objects: map<Pid, FerretProcess>) {
    forall a, b :: a in objects && b in objects && a != b ==> objects[a] != objects[b]
  }

  ghost function Views(objects: map<Pid, FerretProcess>): map<Pid, C.Process>
    reads objects.Values
  {
    map pid | pid in objects :: objects[pid].View()
  }

  /** Every object of `now` is one of `before` or new. */
  twostate predicate Grown(before: map<Pid, FerretProcess>, new now: map<Pid, FerretProcess>) {
    forall p <- now :: (p in before && now[p] == before[p]) || fresh(now[p])
  }

  /** One thread of a sample: its process is created if need be, then updated. */
  method AddThread(objects: map<Pid, FerretProcess>, y: C.Tally, s: Sample, pid: Pid, info: Info)
    returns (objects': map<Pid, FerretProcess>)
    requires Apart(objects)
    modifies objects.Values
    ensures Apart(objects') && Grown(objects, objects')
    ensures Views(objects') == old(Views(objects))[pid := C.AddThread(y.(history := old(Views(objects))), s, pid, info)]
  {
    objects' := objects;
    if pid !in objects' {
      var p := new FerretProcess(y.cpus);
      objects' := objects'[pid := p];
    }
    objects'[pid].Add(info.comm, C.TimeOf(s), info.ustime, C.FreqOf(s, info.processor), info.processor, C.Period(y.tick));
  }

  /** The threads of a sample, in any order. */
  method AddThreads(objects: map<Pid, FerretProcess>, y: C.Tally, s: Sample, threads: map<Pid, Info>)
    returns (objects': map<Pid, FerretProcess>)
    requires Apart(objects)
    modifies objects.Values
    ensures Apart(objects') && Grown(objects, objects')
    ensures Views(objects') == C.Histories(y.(history := old(Views(objects))), s, threads)
  {
    ghost var z := y.(history := Views(objects));
    objects' := objects;
    var left := threads.Keys;
    while left != {}
      invariant left <= threads.Keys
      invariant Apart(objects') && Grown(objects, objects')
      invariant Views(objects') == C.Histories(z, s, threads - left)
    {
      var pid :| pid in left;
      HistoriesStep(z, s, threads, left, pid);
      objects' := AddThread(objects', y, s, pid, threads[pid]);
      left := left - {pid};
    }
    assert threads - {} == threads;
  }

  /** Threads of one sample do not affect each other. */
  lemma HistoriesStep(y: C.Tally, s: Sample, threads: map<Pid, Info>, left: set<Pid>, pid: Pid)
    requires pid in left && left <= threads.Keys
    ensures var so_far := C.Histories(y, s, threads - left);
            C.Histories(y, s, threads - (left - {pid}))
            == so_far[pid := C.AddThread(y.(history := so_far), s, pid, threads[pid])]
  {
    var so_far := C.Histories(y, s, threads - left);
    assert pid in so_far <==> pid in y.history;
    assert pid in y.history ==> so_far[pid] == y.history[pid];
  }

  /** What a time stamp does with the sample before it; `y` holds all but the histories, which are in the objects. */
  method ConsumeSample(banned: seq<string>, y: C.Tally, props: Properties, s: Sample, objects: map<Pid, FerretProcess>)
    returns (ok: bool, y': C.Tally, objects': map<Pid, FerretProcess>)
    requires Apart(objects)
    modifies objects.Values
    ensures Apart(objects') && Grown(objects, objects')
    ensures C.Consume(banned, y.(history := old(Views(objects))), props, s)
         == if ok then Some(y'.(history := Views(objects'))) else None
  {
    ghost var before := Views(objects);
    ok, y', objects' := false, y, objects;
    if !y'.init {
      if props.cpus == None {
        return;
      }
      y' := y'.(init := true, tick := if props.tick.Some? then props.tick.value else 0, cpus := props.cpus.value);
    }
    if !y'.started {
      y' := y'.(traceStart := C.TimeOf(s), started := true);
    }
    y' := y'.(traceEnd := C.TimeOf(s));
    var threads := C.Counted(banned, s);
    assert C.Acceptable(y'.(history := before), threads) == C.Acceptable(y', threads);
    if !C.Acceptable(y', threads) {
      return;
    }
    objects' := AddThreads(objects, y', s, threads);
    SameHistories(y', C.Initialized(y.(history := before), props).value, before, s, threads);
    ok := true;
  }

  /** The times of the trace play no part in a thread's history. */
  lemma SameHistories(y: C.Tally, z: C.Tally, before: map<Pid, C.Process>, s: Sample, threads: map<Pid, Info>)
    requires y.tick == z.tick && y.cpus == z.cpus && z.history == before
    ensures C.Histories(y.(history := before), s, threads) == C.Histories(z, s, threads)
  {
    assert forall pid <- threads ::
      C.AddThread(y.(history := before), s, pid, threads[pid]) == C.AddThread(z, s, pid, threads[pid]);
  }

  /** The loop over the rows of a trace. */
  method Postprocess(banned: seq<string>, rows: seq<Row>)
    returns (ok: bool, sample: Sample, props: Properties, y: C.Tally, objects: map<Pid, FerretProcess>)
    ensures C.Run(banned, rows)
         == if ok then Some(C.State(sample, props, y.(history := Views(objects)))) else None
  {
    sample, props, y, objects := NOTHING, Properties(None, None), C.START.tally, map[];
    ok := true;
    var i := 0;
    while i < |rows| && ok
      invariant 0 <= i <= |rows|
      invariant Apart(objects) && forall p <- objects :: fresh(objects[p])
      invariant C.OnRows(banned, C.START, rows[..i])
             == if ok then Some(C.State(sample, props, y.(history := Views(objects)))) else None
    {
      var row := rows[i];
      NextRow(banned, rows, i);
      if row.Time? && sample != NOTHING {
        ok, y, objects := ConsumeSample(banned, y, props, sample, objects);
      }
      if row.Time? {
        sample := NOTHING.(time := Some(Seconds(row.us)));
      } else {
        var noted := Note(props, row);
        if noted == None {
          ok := false;
        } else {
          props, sample := noted.value, Fill(sample, row);
        }
      }
      i := i + 1;
    }
    assert rows == rows[..i] + rows[i..];
    C.RowsAppend(banned, C.START, rows[..i], rows[i..]);
  }

  lemma NextRow(banned: seq<string>, rows: seq<Row>, i: nat)
    requires i < |rows|
    ensures C.OnRows(banned, C.START, rows[..i + 1])
         == (match C.OnRows(banned, C.START, rows[..i])
             case None => None
             case Some(st) => C.OnRow(banned, st, rows[i]))
  {
    assert rows[..i + 1] == rows[..i] + [rows[i]];
    C.RowsAppend(banned, C.START, rows[..i], [rows[i]]);
    assert [rows[i]][1..] == [];
  }
}
