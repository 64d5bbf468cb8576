/** Banning threads by name is the same as taking their rows out of the trace, and exactly when it is. */
module FerretBan {
  import opened Bytes
  import opened FerretTrace
  import C = FerretCpp

  predicate IsBanned(banned: seq<string>, row: Row) {
    row.Status? && row.info.comm in banned
  }

  function Without(banned: seq<string>, rows: seq<Row>): seq<Row> {
    if rows == [] then []
    else if IsBanned(banned, rows[0]) then Without(banned, rows[1..])
    else [rows[0]] + Without(banned, rows[1..])
  }

  lemma {:induction false} WithoutSnoc(banned: seq<string>, rows: seq<Row>, row: Row)
    ensures Without(banned, rows + [row]) == Without(banned, rows) + if IsBanned(banned, row) then [] else [row]
    decreases |rows|
  {
    if rows == [] {
      assert [] + [row] == [row] && [row][1..] == [];
    } else {
      assert (rows + [row])[1..] == rows[1..] + [row];
      WithoutSnoc(banned, rows[1..], row);
    }
  }

  // ---- One sample ----

  /** The sample that the rows since a time stamp make; before the first stamp there is no time. */
  function Filled(time: Option<real>, rows: seq<Row>): Sample {
    if rows == [] then NOTHING.(time := time)
    else Fill(Filled(time, rows[..|rows| - 1]), rows[|rows| - 1])
  }

  lemma FilledSnoc(time: Option<real>, rows: seq<Row>, row: Row)
    ensures Filled(time, rows + [row]) == Fill(Filled(time, rows), row)
  {
    assert (rows + [row])[..|rows|] == rows;
  }

  /** What the last status row of a thread says. */
  function Last(rows: seq<Row>, pid: Pid): Option<Info> {
    if rows == [] then None
    else
      var row := rows[|rows| - 1];
      if row.Status? && row.pid == pid then Some(row.info) else Last(rows[..|rows| - 1], pid)
  }

  lemma LastSnoc(rows: seq<Row>, row: Row, pid: Pid)
    ensures Last(rows + [row], pid) == if row.Status? && row.pid == pid then Some(row.info) else Last(rows, pid)
  {
    assert (rows + [row])[..|rows|] == rows;
  }

  function Lookup(threads: map<Pid, Info>, pid: Pid): Option<Info> {
    if pid in threads then Some(threads[pid]) else None
  }

  lemma {:induction false} FilledThreads(time: Option<real>, rows: seq<Row>, pid: Pid)
    ensures Lookup(C.PidsOf(Filled(time, rows)), pid) == Last(rows, pid)
  {
    if rows != [] { FilledThreads(time, rows[..|rows| - 1], pid); }
  }

  /** The frequencies of a sample are those of its last row of frequencies. */
  lemma {:induction false} FilledFrequencies(time: Option<real>, rows: seq<Row>, i: nat)
    requires i < |rows| && rows[i].Freqs? && forall j :: i < j < |rows| ==> !rows[j].Freqs?
    ensures Filled(time, rows).kHz == Some(FreqMap(rows[i].kHz))
  {
    var n := |rows| - 1;
    if i < n {
      assert !rows[n].Freqs?;
      FilledFrequencies(time, rows[..n], i);
    }
  }

  /** The thread has a row under a name that is not banned. */
  predicate Counts(banned: seq<string>, rows: seq<Row>, pid: Pid) {
    exists i :: 0 <= i < |rows| && rows[i].Status? && rows[i].pid == pid && rows[i].info.comm !in banned
  }

  /** The thread's last row is banned and follows one that is not. */
  predicate Hides(banned: seq<string>, rows: seq<Row>, pid: Pid) {
    var last := Last(rows, pid);
    last.Some? && last.value.comm in banned && Counts(banned, rows, pid)
  }

  /** Some row leaves something in the sample. */
  predicate Present(rows: seq<Row>) {
    exists i :: 0 <= i < |rows| && (rows[i].Status? || rows[i].Freqs?)
  }

  /** No thread's last row before the time stamp is banned and follows an unbanned one; and rows before the first
      stamp, if they leave anything, leave something without the banned ones. */
  predicate SampleOk(banned: seq<string>, time: Option<real>, rows: seq<Row>) {
    && (forall i :: 0 <= i < |rows| && rows[i].Status? ==> !Hides(banned, rows, rows[i].pid))
    && (time == None && Present(rows) ==> Present(Without(banned, rows)))
  }

  lemma {:induction false} LastIsRow(rows: seq<Row>, pid: Pid)
    requires Last(rows, pid).Some?
    ensures exists i :: 0 <= i < |rows| && rows[i] == Status(pid, Last(rows, pid).value)
  {
    var n := |rows| - 1;
    if !(rows[n].Status? && rows[n].pid == pid) {
      LastIsRow(rows[..n], pid);
      var i :| 0 <= i < n && rows[..n][i] == Status(pid, Last(rows[..n], pid).value);
      assert rows[i] == rows[..n][i];
    }
  }

  lemma CountsSnoc(banned: seq<string>, rows: seq<Row>, row: Row, pid: Pid)
    ensures Counts(banned, rows + [row], pid) <==>
      Counts(banned, rows, pid) || (row.Status? && row.pid == pid && row.info.comm !in banned)
  {
    var all := rows + [row];
    if Counts(banned, rows, pid) {
      var i :| 0 <= i < |rows| && rows[i].Status? && rows[i].pid == pid && rows[i].info.comm !in banned;
      assert all[i] == rows[i];
    } else if row.Status? && row.pid == pid && row.info.comm !in banned {
      assert all[|rows|] == row;
    }
  }

  /** Without the banned rows, a thread's last row is its last unbanned one. */
  lemma {:induction false} LastWithout(banned: seq<string>, rows: seq<Row>, pid: Pid)
    ensures var last, kept := Last(rows, pid), Last(Without(banned, rows), pid);
      && (kept.Some? <==> Counts(banned, rows, pid))
      && (kept.Some? ==> kept.value.comm !in banned)
      && (last.Some? && last.value.comm !in banned ==> kept == last)
      && (last.None? ==> kept.None?)
    decreases |rows|
  {
    if rows != [] {
      var front, row := rows[..|rows| - 1], rows[|rows| - 1];
      assert rows == front + [row];
      LastWithout(banned, front, pid);
      WithoutSnoc(banned, front, row);
      LastSnoc(front, row, pid);
      CountsSnoc(banned, front, row, pid);
      if !IsBanned(banned, row) { LastSnoc(Without(banned, front), row, pid); }
      assert IsBanned(banned, row) ==> Without(banned, rows) == Without(banned, front) + [] == Without(banned, front);
    }
  }

  /** The threads counted with the ban list are those of the sample without the banned rows exactly when nothing is
      hidden. */
  lemma ThreadsExact(banned: seq<string>, time: Option<real>, rows: seq<Row>)
    ensures C.Counted(banned, Filled(time, rows)) == C.PidsOf(Filled(time, Without(banned, rows)))
      <==> forall pid :: !Hides(banned, rows, pid)
  {
    var counted, purged := C.Counted(banned, Filled(time, rows)), C.PidsOf(Filled(time, Without(banned, rows)));
    forall pid: Pid ensures Lookup(counted, pid) == Lookup(purged, pid) <==> !Hides(banned, rows, pid) {
      ThreadExact(banned, time, rows, pid);
    }
    SameLookups(counted, purged);
  }

  lemma SameLookups(a: map<Pid, Info>, b: map<Pid, Info>)
    ensures a == b <==> forall pid :: Lookup(a, pid) == Lookup(b, pid)
  {
    if forall pid :: Lookup(a, pid) == Lookup(b, pid) {
      forall pid: Pid ensures pid in a <==> pid in b { assert Lookup(a, pid) == Lookup(b, pid); }
      forall pid | pid in a ensures a[pid] == b[pid] { assert Lookup(a, pid) == Lookup(b, pid); }
    }
  }

  lemma ThreadExact(banned: seq<string>, time: Option<real>, rows: seq<Row>, pid: Pid)
    ensures Lookup(C.Counted(banned, Filled(time, rows)), pid)
              == Lookup(C.PidsOf(Filled(time, Without(banned, rows))), pid)
      <==> !Hides(banned, rows, pid)
  {
    FilledThreads(time, rows, pid);
    FilledThreads(time, Without(banned, rows), pid);
    LastWithout(banned, rows, pid);
  }

  lemma {:induction false} FilledRest(banned: seq<string>, time: Option<real>, rows: seq<Row>)
    ensures SameRest(Filled(time, rows), Filled(time, Without(banned, rows))) && Filled(time, rows).time == time
    decreases |rows|
  {
    if rows != [] {
      var front, row := rows[..|rows| - 1], rows[|rows| - 1];
      assert rows == front + [row];
      FilledRest(banned, time, front);
      FilledRestNext(banned, time, front, row);
    }
  }

  lemma FilledRestNext(banned: seq<string>, time: Option<real>, front: seq<Row>, row: Row)
    requires SameRest(Filled(time, front), Filled(time, Without(banned, front)))
    ensures SameRest(Filled(time, front + [row]), Filled(time, Without(banned, front + [row])))
    ensures Filled(time, front + [row]).time == Filled(time, front).time
  {
    var s, t := Filled(time, front), Filled(time, Without(banned, front));
    FilledSnoc(time, front, row);
    WithoutSnoc(banned, front, row);
    FillRest(s, t, row);
    if IsBanned(banned, row) {
      assert Without(banned, front) + [] == Without(banned, front);
    } else {
      FilledSnoc(time, Without(banned, front), row);
    }
  }

  /** Two samples that differ in their threads at most. */
  predicate SameRest(s: Sample, t: Sample) { s.time == t.time && s.kHz == t.kHz }

  lemma FillRest(s: Sample, t: Sample, row: Row)
    requires SameRest(s, t)
    ensures SameRest(Fill(s, row), Fill(t, row)) && Fill(s, row).time == s.time
    ensures row.Status? ==> SameRest(Fill(s, row), t)
  {
  }

  lemma {:induction false} FilledNothing(time: Option<real>, rows: seq<Row>)
    ensures Filled(time, rows) == NOTHING <==> time == None && !Present(rows)
    ensures Filled(time, rows).time == time
    decreases |rows|
  {
    if rows != [] {
      var front, row := rows[..|rows| - 1], rows[|rows| - 1];
      assert rows == front + [row];
      FilledNothing(time, front);
      PresentSnoc(front, row);
    }
  }

  lemma PresentSnoc(rows: seq<Row>, row: Row)
    ensures Present(rows + [row]) <==> Present(rows) || row.Status? || row.Freqs?
  {
    var all := rows + [row];
    if Present(rows) {
      var i :| 0 <= i < |rows| && (rows[i].Status? || rows[i].Freqs?);
      assert all[i] == rows[i];
    } else if row.Status? || row.Freqs? {
      assert all[|rows|] == row;
    }
  }

  // ---- What a time stamp makes of it ----

  /** The tally after a time stamp; None when an assertion fails. */
  function AtStamp(banned: seq<string>, y: C.Tally, props: Properties, s: Sample): Option<C.Tally> {
    if s == NOTHING then Some(y) else C.Consume(banned, y, props, s)
  }

  lemma SameThreads(banned: seq<string>, y: C.Tally, props: Properties, s: Sample, t: Sample)
    requires t.time == s.time && t.kHz == s.kHz && C.PidsOf(t) == C.Counted(banned, s)
    ensures C.Consume([], y, props, t) == C.Consume(banned, y, props, s)
  {
    var threads := C.Counted(banned, s);
    assert C.Counted([], t) == threads;
    if C.Initialized(y, props).Some? {
      var z := C.Initialized(y, props).value;
      SameHistories(z, s, t, threads);
    }
  }

  lemma SameHistories(z: C.Tally, s: Sample, t: Sample, threads: map<Pid, Info>)
    requires t.time == s.time && t.kHz == s.kHz
    ensures C.Histories(z, t, threads) == C.Histories(z, s, threads)
  {
    assert forall pid <- threads :: C.AddThread(z, t, pid, threads[pid]) == C.AddThread(z, s, pid, threads[pid]);
  }

  lemma NothingHidden(banned: seq<string>, time: Option<real>, rows: seq<Row>)
    requires SampleOk(banned, time, rows)
    ensures forall pid :: !Hides(banned, rows, pid)
  {
    forall pid: Pid ensures !Hides(banned, rows, pid) {
      if Last(rows, pid).Some? { LastIsRow(rows, pid); }
    }
  }

  /** The banned rows are the only trace of themselves. */
  lemma OkAtStamp(banned: seq<string>, time: Option<real>, rows: seq<Row>, y: C.Tally, props: Properties)
    requires SampleOk(banned, time, rows)
    ensures AtStamp([], y, props, Filled(time, Without(banned, rows))) == AtStamp(banned, y, props, Filled(time, rows))
  {
    NothingHidden(banned, time, rows);
    ThreadsExact(banned, time, rows);
    FilledRest(banned, time, rows);
    FilledNothing(time, rows);
    FilledNothing(time, Without(banned, rows));
    SameThreads(banned, y, props, Filled(time, rows), Filled(time, Without(banned, rows)));
    if Present(Without(banned, rows)) { PresentKept(banned, rows); }
  }

  lemma {:induction false} PresentKept(banned: seq<string>, rows: seq<Row>)
    requires Present(Without(banned, rows))
    ensures Present(rows)
    decreases |rows|
  {
    if rows != [] && !rows[0].Status? && !rows[0].Freqs? {
      var w := Without(banned, rows[1..]);
      var i :| 0 <= i < |[rows[0]] + w| && (([rows[0]] + w)[i].Status? || ([rows[0]] + w)[i].Freqs?);
      assert w[i - 1] == ([rows[0]] + w)[i];
      PresentKept(banned, rows[1..]);
      var j :| 0 <= j < |rows[1..]| && (rows[1..][j].Status? || rows[1..][j].Freqs?);
      assert rows[j + 1] == rows[1..][j];
    }
  }

  /** The processors of the status rows. */
  function Processors(rows: seq<Row>): seq<int> {
    if rows == [] then []
    else (if rows[0].Status? then [rows[0].info.processor] else []) + Processors(rows[1..])
  }

  lemma {:induction false} ProcessorListed(rows: seq<Row>, i: nat)
    requires i < |rows| && rows[i].Status?
    ensures rows[i].info.processor in Processors(rows)
    decreases |rows|
  {
    if i > 0 {
      ProcessorListed(rows[1..], i - 1);
    }
  }

  /** A tally that accepts every thread of `rows`. */
  function Accepting(rows: seq<Row>): C.Tally {
    C.Tally(true, 1, Processors(rows), false, 0.0, 0.0, map[])
  }

  lemma AcceptingAccepts(time: Option<real>, rows: seq<Row>, props: Properties, pid: Pid)
    requires Last(rows, pid).Some?
    ensures var r := AtStamp([], Accepting(rows), props, Filled(time, rows));
      r.Some? && pid in r.value.history
  {
    var s, y := Filled(time, rows), Accepting(rows);
    var threads := C.Counted([], s);
    forall p | p in threads ensures threads[p].processor in y.cpus {
      FilledThreads(time, rows, p);
      LastIsRow(rows, p);
      var i :| 0 <= i < |rows| && rows[i] == Status(p, Last(rows, p).value);
      ProcessorListed(rows, i);
    }
    FilledThreads(time, rows, pid);
  }

  /** A hidden thread is missing with the ban list and there without its banned rows. */
  lemma HiddenDiffers(banned: seq<string>, time: Option<real>, rows: seq<Row>, pid: Pid, props: Properties)
    requires Hides(banned, rows, pid)
    ensures var y := Accepting(Without(banned, rows));
      AtStamp([], y, props, Filled(time, Without(banned, rows))) != AtStamp(banned, y, props, Filled(time, rows))
  {
    var y := Accepting(Without(banned, rows));
    LastWithout(banned, rows, pid);
    AcceptingAccepts(time, Without(banned, rows), props, pid);
    FilledThreads(time, rows, pid);
    assert pid !in C.Counted(banned, Filled(time, rows));
  }

  /** A sample that a time stamp ends counts the same with the ban list as without the banned rows, whatever was
      counted before, if and only if nothing in it is hidden and its banned rows are not all that came before the first
      stamp. */
  lemma SampleExact(banned: seq<string>, time: Option<real>, rows: seq<Row>)
    ensures SampleOk(banned, time, rows) <==>
      forall y, props ::
        AtStamp([], y, props, Filled(time, Without(banned, rows))) == AtStamp(banned, y, props, Filled(time, rows))
  {
    if SampleOk(banned, time, rows) {
      forall y, props
        ensures AtStamp([], y, props, Filled(time, Without(banned, rows))) == AtStamp(banned, y, props, Filled(time, rows))
      {
        OkAtStamp(banned, time, rows, y, props);
      }
    } else {
      var y := Differing(banned, time, rows);
    }
  }

  /** A tally for which they differ. */
  lemma Differing(banned: seq<string>, time: Option<real>, rows: seq<Row>) returns (y: C.Tally)
    requires !SampleOk(banned, time, rows)
    ensures var props := Properties(None, None);
      AtStamp([], y, props, Filled(time, Without(banned, rows))) != AtStamp(banned, y, props, Filled(time, rows))
  {
    y := Accepting(Without(banned, rows));
    if i :| 0 <= i < |rows| && rows[i].Status? && Hides(banned, rows, rows[i].pid) {
      HiddenDiffers(banned, time, rows, rows[i].pid, Properties(None, None));
    } else {
      FilledNothing(time, rows);
      FilledNothing(time, Without(banned, rows));
    }
  }

  /** At most one row per thread, and no banned one before the first stamp, is enough. */
  predicate OnePerThread(rows: seq<Row>) {
    forall i, j :: 0 <= i < j < |rows| && rows[i].Status? && rows[j].Status? ==> rows[i].pid != rows[j].pid
  }

  lemma OnePerThreadIsOk(banned: seq<string>, time: Option<real>, rows: seq<Row>)
    requires OnePerThread(rows)
    requires time == None ==> forall i :: 0 <= i < |rows| ==> !IsBanned(banned, rows[i])
    ensures SampleOk(banned, time, rows)
  {
    forall i | 0 <= i < |rows| && rows[i].Status? ensures !Hides(banned, rows, rows[i].pid) {
      if Last(rows, rows[i].pid).Some? { LastIsRow(rows, rows[i].pid); }
    }
    if time == None { NoneBanned(banned, rows); }
  }

  lemma {:induction false} NoneBanned(banned: seq<string>, rows: seq<Row>)
    requires forall i :: 0 <= i < |rows| ==> !IsBanned(banned, rows[i])
    ensures Without(banned, rows) == rows
    decreases |rows|
  {
    if rows != [] { NoneBanned(banned, rows[1..]); }
  }

  // ---- Whole traces ----

  /** The samples of a trace that a time stamp ends: the stamp before each, and its rows. */
  function Samples(time: Option<real>, before: seq<Row>, rows: seq<Row>): seq<(Option<real>, seq<Row>)>
    decreases |rows|
  {
    if rows == [] then []
    else if rows[0].Time? then [(time, before)] + Samples(Some(Seconds(rows[0].us)), [], rows[1..])
    else Samples(time, before + [rows[0]], rows[1..])
  }

  predicate AllOk(banned: seq<string>, samples: seq<(Option<real>, seq<Row>)>) {
    forall i :: 0 <= i < |samples| ==> SampleOk(banned, samples[i].0, samples[i].1)
  }

  lemma AllOkRest(banned: seq<string>, first: (Option<real>, seq<Row>), rest: seq<(Option<real>, seq<Row>)>)
    requires AllOk(banned, [first] + rest)
    ensures SampleOk(banned, first.0, first.1) && AllOk(banned, rest)
  {
    var all := [first] + rest;
    assert all[0] == first;
    forall i | 0 <= i < |rest| ensures SampleOk(banned, rest[i].0, rest[i].1) {
      assert all[i + 1] == rest[i];
    }
  }

  /** Two states that differ in the banned rows of the sample under construction only. */
  ghost predicate Beside(banned: seq<string>, c: C.State, d: C.State, time: Option<real>, before: seq<Row>) {
    && d.props == c.props && d.tally == c.tally
    && c.sample == Filled(time, before) && d.sample == Filled(time, Without(banned, before))
  }

  /** Both runs fail, or both go on with the same counts. */
  ghost predicate Agree(c: Option<C.State>, d: Option<C.State>) {
    match (c, d)
    case (Some(c), Some(d)) => d.props == c.props && d.tally == c.tally
    case (None, None) => true
    case _ => false
  }

  lemma StampBeside(banned: seq<string>, c: C.State, d: C.State, time: Option<real>, before: seq<Row>, row: Row)
    requires Beside(banned, c, d, time, before) && row.Time? && SampleOk(banned, time, before)
    ensures Agree(C.OnRow(banned, c, row), C.OnRow([], d, row))
    ensures C.OnRow(banned, c, row).Some? ==>
      Beside(banned, C.OnRow(banned, c, row).value, C.OnRow([], d, row).value, Some(Seconds(row.us)), [])
  {
    OkAtStamp(banned, time, before, c.tally, c.props);
  }

  lemma BannedBeside(banned: seq<string>, c: C.State, d: C.State, time: Option<real>, before: seq<Row>, row: Row)
    requires Beside(banned, c, d, time, before) && IsBanned(banned, row)
    ensures C.OnRow(banned, c, row).Some?
    ensures Beside(banned, C.OnRow(banned, c, row).value, d, time, before + [row])
  {
    FilledSnoc(time, before, row);
    WithoutSnoc(banned, before, row);
    assert Without(banned, before) + [] == Without(banned, before);
    assert C.OnRow(banned, c, row).value == c.(sample := Fill(c.sample, row));
  }

  lemma KeptBeside(banned: seq<string>, c: C.State, d: C.State, time: Option<real>, before: seq<Row>, row: Row)
    requires Beside(banned, c, d, time, before) && !row.Time? && !IsBanned(banned, row)
    ensures Agree(C.OnRow(banned, c, row), C.OnRow([], d, row))
    ensures C.OnRow(banned, c, row).Some? ==>
      Beside(banned, C.OnRow(banned, c, row).value, C.OnRow([], d, row).value, time, before + [row])
  {
    FilledSnoc(time, before, row);
    WithoutSnoc(banned, before, row);
    FilledSnoc(time, Without(banned, before), row);
    var props := Note(c.props, row);
    if props.Some? {
      assert C.OnRow(banned, c, row).value == C.State(Fill(c.sample, row), props.value, c.tally);
      assert C.OnRow([], d, row).value == C.State(Fill(d.sample, row), props.value, d.tally);
    }
  }

  /** The two runs side by side. */
  lemma {:induction false} SideBySide(banned: seq<string>, c: C.State, d: C.State, time: Option<real>,
                                      before: seq<Row>, rows: seq<Row>)
    requires Beside(banned, c, d, time, before) && AllOk(banned, Samples(time, before, rows))
    ensures Agree(C.OnRows(banned, c, rows), C.OnRows([], d, Without(banned, rows)))
    decreases |rows|
  {
    if rows != [] {
      var row, rest := rows[0], Without(banned, rows[1..]);
      assert ([row] + rest)[1..] == rest;
      if row.Time? {
        AllOkRest(banned, (time, before), Samples(Some(Seconds(row.us)), [], rows[1..]));
        StampBeside(banned, c, d, time, before, row);
        if C.OnRow(banned, c, row).Some? {
          SideBySide(banned, C.OnRow(banned, c, row).value, C.OnRow([], d, row).value, Some(Seconds(row.us)), [],
                     rows[1..]);
        }
      } else if IsBanned(banned, row) {
        BannedBeside(banned, c, d, time, before, row);
        SideBySide(banned, C.OnRow(banned, c, row).value, d, time, before + [row], rows[1..]);
      } else {
        KeptBeside(banned, c, d, time, before, row);
        if C.OnRow(banned, c, row).Some? {
          SideBySide(banned, C.OnRow(banned, c, row).value, C.OnRow([], d, row).value, time, before + [row], rows[1..]);
        }
      }
    }
  }

  /** Post-processing with a ban list equals post-processing the trace without the banned threads' rows, errors
      included, when every sample that is read meets the condition that is exact for it. */
  lemma BanIsRemoval(banned: seq<string>, rows: seq<Row>)
    requires AllOk(banned, Samples(None, [], rows))
    ensures Agree(C.Run(banned, rows), C.Run([], Without(banned, rows)))
  {
    SideBySide(banned, C.START, C.START, None, [], rows);
  }

  // ---- Traces on which the two differ ----

  /** Header rows and one sample with the status rows of one thread, in a trace with one processor. */
  function OneSample(infos: seq<Info>): C.State {
    C.State(Sample(Some(Seconds(1)), if infos == [] then None else Some(map[1 := infos[|infos| - 1]]), None),
            Properties(None, Some([0])), C.START.tally)
  }

  lemma UpToSample(banned: seq<string>, rest: seq<Row>)
    ensures C.Run(banned, [Cpus([0])] + ([Time(1)] + rest)) == C.OnRows(banned, OneSample([]), rest)
  {
    var a := C.OnRow(banned, C.START, Cpus([0])).value;
    C.FirstRow(banned, C.START, Cpus([0]), [Time(1)] + rest);
    C.FirstRow(banned, a, Time(1), rest);
  }

  lemma OneMore(banned: seq<string>, infos: seq<Info>, info: Info, rest: seq<Row>)
    ensures C.OnRows(banned, OneSample(infos), [Status(1, info)] + rest)
         == C.OnRows(banned, OneSample(infos + [info]), rest)
  {
    C.FirstRow(banned, OneSample(infos), Status(1, info), rest);
    assert C.PidsOf(OneSample(infos).sample)[1 := info] == map[1 := info];
    assert C.OnRow(banned, OneSample(infos), Status(1, info)).value == OneSample(infos + [info]);
  }

  lemma AtEnd(banned: seq<string>, infos: seq<Info>)
    requires infos != [] && infos[|infos| - 1].processor == 0
    ensures var r := C.OnRows(banned, OneSample(infos), [Time(2)]);
      r.Some? && (1 in r.value.tally.history <==> infos[|infos| - 1].comm !in banned)
  {
    C.FirstRow(banned, OneSample(infos), Time(2), []);
    assert [Time(2)] + [] == [Time(2)];
    var threads := C.Counted(banned, OneSample(infos).sample);
    assert 1 in threads <==> infos[|infos| - 1].comm !in banned;
  }

  /** A status row under a banned name hides an earlier one of the same sample, which taking the row out brings
      back. */
  lemma MixedNamesDiffer(a: Info, b: Info)
    requires a.comm != b.comm && a.processor == b.processor == 0
    ensures var rows := [Cpus([0])] + ([Time(1)] + ([Status(1, a)] + ([Status(1, b)] + [Time(2)])));
      && C.Run([b.comm], rows).Some? && 1 !in C.Run([b.comm], rows).value.tally.history
      && C.Run([], Without([b.comm], rows)).Some? && 1 in C.Run([], Without([b.comm], rows)).value.tally.history
  {
    var end := [Status(1, a)] + ([Status(1, b)] + [Time(2)]);
    UpToSample([b.comm], end);
    OneMore([b.comm], [], a, [Status(1, b)] + [Time(2)]);
    assert [] + [a] == [a] && [a] + [b] == [a, b];
    OneMore([b.comm], [a], b, [Time(2)]);
    AtEnd([b.comm], [a, b]);
    UpToSample([], [Status(1, a)] + [Time(2)]);
    OneMore([], [], a, [Time(2)]);
    AtEnd([], [a]);
    WithoutLast([b.comm], a, b);
  }

  lemma WithoutLast(banned: seq<string>, a: Info, b: Info)
    requires a.comm !in banned && b.comm in banned
    ensures Without(banned, [Cpus([0])] + ([Time(1)] + ([Status(1, a)] + ([Status(1, b)] + [Time(2)]))))
         == [Cpus([0])] + ([Time(1)] + ([Status(1, a)] + [Time(2)]))
  {
    var e := [Time(2)];
    WithoutFirst(banned, Time(2), []);
    assert [Time(2)] + [] == e;
    WithoutFirst(banned, Status(1, b), e);
    WithoutFirst(banned, Status(1, a), [Status(1, b)] + e);
    WithoutFirst(banned, Time(1), [Status(1, a)] + ([Status(1, b)] + e));
    WithoutFirst(banned, Cpus([0]), [Time(1)] + ([Status(1, a)] + ([Status(1, b)] + e)));
  }

  lemma WithoutFirst(banned: seq<string>, row: Row, rest: seq<Row>)
    ensures Without(banned, [row] + rest)
         == if IsBanned(banned, row) then Without(banned, rest) else [row] + Without(banned, rest)
  {
    assert ([row] + rest)[1..] == rest;
  }

  /** A banned row before the first time stamp starts the trace, at time 0, one stamp too early. */
  lemma LeadInDiffers(b: Info)
    ensures var with, without := [Cpus([0])] + ([Status(1, b)] + [Time(1)]), [Cpus([0])] + [Time(1)];
      && Without([b.comm], with) == without
      && C.Run([b.comm], with).Some? && C.Run([b.comm], with).value.tally.started
      && C.Run([b.comm], with).value.tally.traceStart == 0.0
      && C.Run([], without).Some? && !C.Run([], without).value.tally.started
  {
    var banned, cpus := [b.comm], C.OnRow([b.comm], C.START, Cpus([0])).value;
    C.FirstRow(banned, C.START, Cpus([0]), [Status(1, b)] + [Time(1)]);
    C.FirstRow(banned, cpus, Status(1, b), [Time(1)]);
    LeadInStarts(banned, b, C.OnRow(banned, cpus, Status(1, b)).value);
    C.FirstRow([], C.START, Cpus([0]), [Time(1)]);
    C.FirstRow([], cpus, Time(1), []);
    assert [Time(1)] + [] == [Time(1)];
    WithoutFirst(banned, Cpus([0]), [Status(1, b)] + [Time(1)]);
    WithoutFirst(banned, Status(1, b), [Time(1)]);
    WithoutFirst(banned, Time(1), []);
  }

  lemma LeadInStarts(banned: seq<string>, b: Info, st: C.State)
    requires b.comm in banned && st.tally == C.START.tally && st.props == Properties(None, Some([0]))
    requires st.sample == Sample(None, Some(map[1 := b]), None)
    ensures var r := C.OnRows(banned, st, [Time(1)]);
      r.Some? && r.value.tally.started && r.value.tally.traceStart == 0.0
  {
    C.FirstRow(banned, st, Time(1), []);
    assert [Time(1)] + [] == [Time(1)];
    assert C.Counted(banned, st.sample) == map[];
  }
}
