/** The post-processor in the collector, `postprocess_ferret_data`, which ports ferret.py. */
module FerretCpp {
  import opened Bytes
  import opened FerretTrace

  /** The values of a `FerretProcess`. */
  datatype Process = Process(comm: string, first: real, last: real, jiffies: int, total: int,
                             totJiffies: map<int, int>, mcyc: map<int, real>)

  function NewProcess(cpus: seq<int>): Process {
    Process("", 0.0, 0.0, 0, 0, map k | k in cpus :: 0, map k | k in cpus :: 0.0)
  }

  /** The seconds in a tick; a tick of 0, which floating point would turn into infinity, is not modelled. */
  function Period(tick: int): real {
    if tick == 0 then 0.0 else 1.0 / tick as real
  }

  /** What `FerretProcess::add` makes of the values. */
  function Added(p: Process, period: real, comm: string, ts: real, ustime: int, mhz: real, cpu: int): Process {
    var base := if p.first == 0.0 then ustime else p.jiffies;
    var diff := ustime - base;
    Process(comm, if p.first == 0.0 then ts else p.first, ts, ustime, p.total + diff,
            p.totJiffies[cpu := (if cpu in p.totJiffies then p.totJiffies[cpu] else 0) + diff],
            if mhz == 0.0 then p.mcyc
            else p.mcyc[cpu := (if cpu in p.mcyc then p.mcyc[cpu] else 0.0) + Megacycles(diff, period, mhz)])
  }

  /** What is kept across samples. */
  datatype Tally = Tally(init: bool, tick: int, cpus: seq<int>, started: bool, traceStart: real, traceEnd: real,
                         history: map<Pid, Process>)

  datatype State = State(sample: Sample, props: Properties, tally: Tally)

  const START := State(NOTHING, Properties(None, None), Tally(false, 100, [], false, 0.0, 0.0, map[]))

  /** A part of a JSON value that is absent reads as nothing, or as zero. */
  function PidsOf(s: Sample): map<Pid, Info> {
    if s.pids.Some? then s.pids.value else map[]
  }

  function TimeOf(s: Sample): real {
    if s.time.Some? then s.time.value else 0.0
  }

  function FreqOf(s: Sample, cpu: int): real {
    if s.kHz.Some? && cpu in s.kHz.value then MHz(s.kHz.value[cpu]) else 0.0
  }

  /** The threads of a sample that are not banned by name. */
  function Counted(banned: seq<string>, s: Sample): (m: map<Pid, Info>) {
    map pid | pid in PidsOf(s) && PidsOf(s)[pid].comm !in banned :: PidsOf(s)[pid]
  }

  function AddThread(y: Tally, s: Sample, pid: Pid, info: Info): Process {
    var p := if pid in y.history then y.history[pid] else NewProcess(y.cpus);
    Added(p, Period(y.tick), info.comm, TimeOf(s), info.ustime, FreqOf(s, info.processor), info.processor)
  }

  function Initialized(y: Tally, props: Properties): Option<Tally> {
    if y.init then Some(y)
    else if props.cpus == None then None
    else Some(y.(init := true, tick := if props.tick.Some? then props.tick.value else 0, cpus := props.cpus.value))
  }

  /** Every thread ran on a listed processor. */
  predicate Acceptable(y: Tally, threads: map<Pid, Info>) {
    forall pid :: pid in threads ==> threads[pid].processor in y.cpus
  }

  function Histories(y: Tally, s: Sample, threads: map<Pid, Info>): map<Pid, Process> {
    map pid | pid in y.history.Keys + threads.Keys ::
      if pid in threads then AddThread(y, s, pid, threads[pid]) else y.history[pid]
  }

  /** What a time stamp does with the sample before it; None when an assertion fails. */
  function Consume(banned: seq<string>, y: Tally, props: Properties, s: Sample): Option<Tally> {
    match Initialized(y, props)
    case None => None
    case Some(y) =>
      var threads := Counted(banned, s);
      if Acceptable(y, threads) then
        Some(y.(started := true, traceStart := if y.started then y.traceStart else TimeOf(s), traceEnd := TimeOf(s),
                history := Histories(y, s, threads)))
      else None
  }

  function OnRow(banned: seq<string>, st: State, row: Row): Option<State> {
    if row.Time? then
      match if st.sample == NOTHING then Some(st.tally) else Consume(banned, st.tally, st.props, st.sample)
      case None => None
      case Some(y) => Some(State(NOTHING.(time := Some(Seconds(row.us))), st.props, y))
    else
      match Note(st.props, row)
      case None => None
      case Some(props) => Some(State(Fill(st.sample, row), props, st.tally))
  }

  function OnRows(banned: seq<string>, st: State, rows: seq<Row>): Option<State>
    decreases |rows|
  {
    if rows == [] then Some(st)
    else match OnRow(banned, st, rows[0])
      case None => None
      case Some(next) => OnRows(banned, next, rows[1..])
  }

  lemma {:induction false} RowsAppend(banned: seq<string>, st: State, a: seq<Row>, b: seq<Row>)
    ensures OnRows(banned, st, a + b)
         == (match OnRows(banned, st, a) case None => None case Some(mid) => OnRows(banned, mid, b))
    decreases |a|
  {
    if a == [] {
      assert a + b == b;
    } else {
      assert (a + b)[1..] == a[1..] + b;
      if OnRow(banned, st, a[0]).Some? {
        RowsAppend(banned, OnRow(banned, st, a[0]).value, a[1..], b);
      }
    }
  }

  lemma FirstRow(banned: seq<string>, st: State, row: Row, rest: seq<Row>)
    requires OnRow(banned, st, row).Some?
    ensures OnRows(banned, st, [row] + rest) == OnRows(banned, OnRow(banned, st, row).value, rest)
  {
    assert ([row] + rest)[1..] == rest;
  }

  /** All rows of a trace. The last sample stays unread unless a time stamp follows it. */
  function Run(banned: seq<string>, rows: seq<Row>): Option<State> {
    OnRows(banned, START, rows)
  }

  predicate Keeps(y: Tally, p: Process) {
    p.total > 0 && p.last - p.first > 0.01 * (y.traceEnd - y.traceStart)
  }
}
