/** The reference post-processor, ferret.py. */
module FerretPy {
  import opened Bytes
  import opened FerretTrace

  /** `Process`; what is None in the script before the first sample is None here. */
  datatype Process = Process(comm: string, first: Option<real>, last: real, jiffies: int,
                             totJiffies: map<int, int>, mcyc: map<int, real>)

  function NewProcess(cpus: seq<int>): Process {
    Process("", None, 0.0, 0, map k | k in cpus :: 0, map k | k in cpus :: 0.0)
  }

  /** `not x` for a number that may be None. */
  predicate Falsy(x: Option<real>) {
    x == None || x.value == 0.0
  }

  /** `Process.add`; None when one of its assertions fails. A frequency below zero marks an unplugged processor. */
  function Add(p: Process, period: real, comm: string, ts: real, ustime: int, mhz: real, cpu: int): Option<Process> {
    if cpu !in p.mcyc || cpu !in p.totJiffies then None
    else
      var first := if Falsy(p.first) then Some(ts) else p.first;
      var base := if Falsy(p.first) then ustime else p.jiffies;
      var diff := ustime - base;
      if diff != 0 && mhz < 0.0 then None
      else
        var mcyc := if mhz > 0.0 then p.mcyc[cpu := p.mcyc[cpu] + Megacycles(diff, period, mhz)] else p.mcyc;
        Some(Process(comm, first, ts, ustime, p.totJiffies[cpu := p.totJiffies[cpu] + diff], mcyc))
  }

  /** What the body of the loop over samples keeps. */
  datatype Tally = Tally(init: bool, tick: int, cpus: seq<int>, traceStart: Option<real>, traceEnd: real,
                         history: map<Pid, Process>)

  /** The generator's sample and properties, and the loop around it. */
  datatype State = State(sample: Sample, props: Properties, tally: Tally)

  const START := State(NOTHING, Properties(None, None), Tally(false, 0, [], None, 0.0, map[]))

  /** What the sample says about one thread, added to the thread's history. */
  function AddThread(y: Tally, s: Sample, pid: Pid): Option<Process>
    requires y.tick != 0 && s.time.Some? && s.pids.Some? && pid in s.pids.value
  {
    var info := s.pids.value[pid];
    if info.processor !in y.cpus || s.kHz == None || info.processor !in s.kHz.value then None
    else
      var p := if pid in y.history then y.history[pid] else NewProcess(y.cpus);
      Add(p, 1.0 / y.tick as real, info.comm, s.time.value, info.ustime, MHz(s.kHz.value[info.processor]), info.processor)
  }

  /** The properties are read at the first sample. */
  function Initialized(y: Tally, props: Properties): Option<Tally> {
    if y.init then Some(y)
    else if props.tick == None || props.cpus == None then None
    else Some(y.(init := true, tick := props.tick.value, cpus := props.cpus.value))
  }

  predicate Acceptable(y: Tally, s: Sample) {
    && y.tick != 0 && s.time.Some? && s.pids.Some?
    && forall pid :: pid in s.pids.value ==> AddThread(y, s, pid).Some?
  }

  function Histories(y: Tally, s: Sample): map<Pid, Process>
    requires Acceptable(y, s)
  {
    map pid | pid in y.history.Keys + s.pids.value.Keys ::
      if pid in s.pids.value then AddThread(y, s, pid).value else y.history[pid]
  }

  /** The body of the loop over samples. Whatever the script would stop at with an exception gives None: a part of
      the sample that is missing, a processor that is not listed, a tick of 0 (a new thread divides by it). */
  function Consume(y: Tally, props: Properties, s: Sample): Option<Tally> {
    match Initialized(y, props)
    case None => None
    case Some(y) =>
      if Acceptable(y, s) then
        Some(y.(traceStart := if Falsy(y.traceStart) then s.time else y.traceStart, traceEnd := s.time.value,
                history := Histories(y, s)))
      else None
  }

  /** One row: a time stamp ends the sample, which is consumed unless nothing has come yet. */
  function OnRow(st: State, row: Row): Option<State> {
    if row.Time? then
      match if st.sample == NOTHING then Some(st.tally) else Consume(st.tally, st.props, st.sample)
      case None => None
      case Some(y) => Some(State(NOTHING.(time := Some(Seconds(row.us))), st.props, y))
    else
      match Note(st.props, row)
      case None => None
      case Some(props) => Some(State(Fill(st.sample, row), props, st.tally))
  }

  function OnRows(st: State, rows: seq<Row>): Option<State>
    decreases |rows|
  {
    if rows == [] then Some(st)
    else match OnRow(st, rows[0])
      case None => None
      case Some(next) => OnRows(next, rows[1..])
  }

  /** The whole script on one trace: the last sample is consumed when the trace ends. */
  function Run(rows: seq<Row>): Option<Tally> {
    match OnRows(START, rows)
    case None => None
    case Some(st) => Consume(st.tally, st.props, st.sample)
  }

  predicate Keeps(y: Tally, p: Process) {
    p.first.Some? && y.traceStart.Some?
    && Sum(p.totJiffies, y.cpus) > 0
    && p.last - p.first.value > 0.01 * (y.traceEnd - y.traceStart.value)
  }
}
