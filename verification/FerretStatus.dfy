/**
 * The status protocol between the ferret collector and the process that watches it through a pipe.
 */
module FerretStatus {

  import opened Bytes

  const TIMEOUT := -1
  const ACTIVE := 1
  const FINISHED := 0

  /** No status has been written yet. */
  const NONE := -99

  // ---- the parts of a collect, on values ----

  /** The names still sought after a poll; a positive result is the pid found for a name. */
  function Missing(names: seq<string>, polled: seq<int>, n: nat): seq<string>
    requires n <= |names| && n <= |polled|
  {
    if n == 0 then []
    else Missing(names, polled, n - 1) + if polled[n - 1] > 0 then [] else [names[n - 1]]
  }

  function Found(polled: seq<int>, n: nat): seq<int>
    requires n <= |polled|
  {
    if n == 0 then [] else Found(polled, n - 1) + if polled[n - 1] > 0 then [polled[n - 1]] else []
  }

  /** Taken together, the pids found and the names missing account for every name: the pids are those of the positive
      results, in order; a name is missing if and only if its result is not positive. */
  lemma {:induction false} PollMeans(names: seq<string>, polled: seq<int>, n: nat)
    requires n <= |names| && n <= |polled|
    ensures |Found(polled, n)| + |Missing(names, polled, n)| == n
    ensures forall i :: 0 <= i < n && polled[i] > 0 ==> polled[i] in Found(polled, n)
    ensures forall p :: p in Found(polled, n) ==> exists i :: 0 <= i < n && polled[i] == p && p > 0
    ensures forall i :: 0 <= i < n && polled[i] <= 0 ==> names[i] in Missing(names, polled, n)
    ensures forall s :: s in Missing(names, polled, n) ==> exists i :: 0 <= i < n && names[i] == s && polled[i] <= 0
  {
    if n > 0 { PollMeans(names, polled, n - 1); }
  }

  /** The names sought and the pids watched before and after a poll: the pids of before come first, those of the positive
      results are added and no others, and a name stays if and only if its result is not positive. */
  ghost predicate Polled(names: seq<string>, pids: seq<int>, polled: seq<int>, left: seq<string>, now: seq<int>) {
    && |polled| == |names| && |now| + |left| == |pids| + |names| && pids <= now
    && (forall i :: 0 <= i < |polled| && polled[i] > 0 ==> polled[i] in now)
    && (forall p :: p in now ==> p in pids || exists i :: 0 <= i < |polled| && polled[i] == p && p > 0)
    && (forall i :: 0 <= i < |polled| && polled[i] <= 0 ==> names[i] in left)
    && (forall s :: s in left ==> exists i :: 0 <= i < |polled| && names[i] == s && polled[i] <= 0)
  }

  lemma PolledMeans(names: seq<string>, pids: seq<int>, polled: seq<int>)
    requires |polled| == |names|
    ensures Polled(names, pids, polled, Missing(names, polled, |polled|), pids + Found(polled, |polled|))
  {
    PollMeans(names, polled, |polled|);
  }

  /** The place among the pids found of the `i`-th result: the number of positive ones before it. */
  lemma {:induction false} FoundInOrder(polled: seq<int>, i: nat, n: nat)
    requires i < n <= |polled| && polled[i] > 0
    ensures |Found(polled, i)| < |Found(polled, n)| && Found(polled, n)[|Found(polled, i)|] == polled[i]
  {
    if i < n - 1 { FoundInOrder(polled, i, n - 1); }
  }

  /** A status file is opened only for a pid that is not yet known; a negative descriptor is a failure. */
  function Opened(fds: map<int, int>, pid: int, fd: int): map<int, int> {
    if pid !in fds && fd >= 0 then fds[pid := fd] else fds
  }

  function AllOpened(fds: map<int, int>, files: seq<(int, int)>): map<int, int> {
    if files == [] then fds
    else
      var n := |files| - 1;
      Opened(AllOpened(fds, files[..n]), files[n].0, files[n].1)
  }

  lemma {:induction false} OpenedKeeps(fds: map<int, int>, files: seq<(int, int)>, pid: int)
    requires pid in fds
    ensures pid in AllOpened(fds, files) && AllOpened(fds, files)[pid] == fds[pid]
  {
    if files != [] { OpenedKeeps(fds, files[..|files| - 1], pid); }
  }

  /** After the files have been opened, the pids known are those of before and those with a file that opened; one that was
      known keeps its entry. */
  lemma {:induction false} OpenedMeans(fds: map<int, int>, files: seq<(int, int)>, pid: int)
    ensures pid in AllOpened(fds, files) <==> pid in fds || SomeOpens(files, pid)
    ensures pid in fds ==> AllOpened(fds, files)[pid] == fds[pid]
  {
    if files != [] {
      var n := |files| - 1;
      OpenedMeans(fds, files[..n], pid);
      OpensSnoc(files[..n], files[n], pid);
      assert files == files[..n] + [files[n]];
    }
  }

  /** A pid that was not known gets the first descriptor that was opened for it. */
  lemma {:induction false} FirstOpened(fds: map<int, int>, files: seq<(int, int)>, i: nat, pid: int)
    requires FirstFor(files, i, pid) && pid !in fds
    ensures pid in AllOpened(fds, files) && AllOpened(fds, files)[pid] == files[i].1
  {
    var n := |files| - 1;
    OpenedMeans(fds, files[..n], pid);
    if i < n {
      FirstOpened(fds, files[..n], i, pid);
    } else {
      assert !SomeOpens(files[..n], pid);
    }
  }

  predicate SomeOpens(files: seq<(int, int)>, pid: int) {
    exists i :: 0 <= i < |files| && Opens(files[i], pid)
  }

  lemma OpensSnoc(files: seq<(int, int)>, file: (int, int), pid: int)
    ensures SomeOpens(files + [file], pid) <==> SomeOpens(files, pid) || Opens(file, pid)
  {
    var all := files + [file];
    if SomeOpens(files, pid) {
      var i :| 0 <= i < |files| && Opens(files[i], pid);
      assert Opens(all[i], pid);
    } else if Opens(file, pid) {
      assert Opens(all[|files|], pid);
    }
  }

  predicate Opens(file: (int, int), pid: int) { file.0 == pid && file.1 >= 0 }

  /** File `i` is the first that opened for the pid. */
  predicate FirstFor(files: seq<(int, int)>, i: nat, pid: int) {
    i < |files| && Opens(files[i], pid) && forall j :: 0 <= j < i ==> !Opens(files[j], pid)
  }

  method Any<T>(all: set<T>) returns (one: T)
    requires all != {}
    ensures one in all
  {
    one :| one in all;
  }

  /** Every pid is known and has been marked as gone. */
  predicate AllGone(pids: seq<int>, fds: map<int, int>) {
    forall i :: 0 <= i < |pids| ==> Gone(pids[i], fds)
  }

  predicate Gone(pid: int, fds: map<int, int>) { pid in fds && fds[pid] < 0 }

  /** The pids known after a sample: those known before or opened now; gone are those that were or that could not be
      read. */
  predicate Sampled(before: map<int, int>, files: seq<(int, int)>, readable: set<int>, after: map<int, int>) {
    var all := AllOpened(before, files);
    after.Keys == all.Keys
    && forall p :: p in all ==> after[p] == if all[p] < 0 || p in readable then all[p] else -1
  }

  // ---- the statuses of a run ----

  function Rounds(n: nat): seq<int> {
    if n == 0 then [] else Rounds(n - 1) + [ACTIVE, FINISHED]
  }

  function Warning(timedOut: bool): seq<int> { if timedOut then [TIMEOUT] else [] }

  /** An optional timeout, then nothing, one "active", or repetitions of "active", "finished". */
  ghost predicate IsStatusLog(log: seq<int>) {
    exists timedOut, n ::
      log == Warning(timedOut) + Rounds(n) || (n == 0 && log == Warning(timedOut) + [ACTIVE])
  }

  /** Such a log, entry by entry: after the optional -1, the entries alternate between 1 and 0, and if there is more than
      one then the last is 0. */
  lemma LogEntries(log: seq<int>)
    requires IsStatusLog(log)
    ensures var k := if log != [] && log[0] == -1 then 1 else 0;
      && (forall i :: k <= i < |log| ==> log[i] == if (i - k) % 2 == 0 then 1 else 0)
      && (|log| > k + 1 ==> log[|log| - 1] == 0)
  {
    var timedOut, n :| log == Warning(timedOut) + Rounds(n) || (n == 0 && log == Warning(timedOut) + [ACTIVE]);
    RoundsEntries(n);
  }

  lemma {:induction false} RoundsEntries(n: nat)
    ensures |Rounds(n)| == 2 * n && forall i :: 0 <= i < 2 * n ==> Rounds(n)[i] == if i % 2 == 0 then 1 else 0
  {
    if n > 0 { RoundsEntries(n - 1); }
  }

  function Last(log: seq<int>): int { if log == [] then NONE else log[|log| - 1] }

  /** The log after `notify`: a status is written when it differs from the last one. */
  function Notified(log: seq<int>, status: int): seq<int> {
    if Last(log) == status then log else log + [status]
  }

  /** The log of a run, by whether it timed out, whether tracing has begun and how often all were seen gone. */
  function Expected(timedOut: bool, tracing: bool, rounds: nat): seq<int> {
    Warning(timedOut) + if tracing && rounds == 0 then [ACTIVE] else Rounds(rounds)
  }

  lemma AfterActive(timedOut: bool, tracing: bool, rounds: nat)
    ensures Notified(Expected(timedOut, tracing, rounds), ACTIVE) == Warning(timedOut) + Rounds(rounds) + [ACTIVE]
  {
    if rounds > 0 {
      assert Last(Expected(timedOut, tracing, rounds)) == FINISHED;
    } else {
      assert Rounds(0) == [];
      if tracing { assert Last(Expected(timedOut, tracing, 0)) == ACTIVE; }
    }
  }

  lemma AfterFinished(timedOut: bool, rounds: nat)
    ensures Notified(Warning(timedOut) + Rounds(rounds) + [ACTIVE], FINISHED) == Expected(timedOut, true, rounds + 1)
  {
    assert Rounds(rounds + 1) == Rounds(rounds) + [ACTIVE] + [FINISHED];
  }

  lemma AfterTimeout(timedOut: bool)
    ensures Notified(Expected(timedOut, false, 0), TIMEOUT) == Expected(true, false, 0)
  {
    assert Rounds(0) == [];
  }

  // ---- FerretCollector ----

  /** What a run has come to. */
  datatype Standing = Standing(watchList: seq<string>, pids: seq<int>, fds: map<int, int>, firstCollect: int,
                               timedOut: bool, tracing: bool, rounds: nat)

  /** A collect: what the poll makes of the names and pids; a timeout exactly when names are missing for longer than
      `timeout`; tracing exactly without missing names, with what is then known of every pid; and one more round exactly
      if all pids are then gone. */
  ghost predicate Moved(a: Standing, b: Standing, timeout: int, now: int, polled: seq<int>, files: seq<(int, int)>,
                        readable: set<int>)
  {
    && |polled| == |a.watchList| && b.watchList == Missing(a.watchList, polled, |polled|)
    && b.pids == a.pids + Found(polled, |polled|)
    && b.firstCollect == (if a.firstCollect == 0 then now else a.firstCollect)
    && (b.timedOut <==> a.timedOut || (b.watchList != [] && now - b.firstCollect > timeout))
    && (b.tracing <==> b.watchList == [])
    && (if b.tracing then Sampled(a.fds, files, readable, b.fds) else b.fds == a.fds)
    && b.rounds == a.rounds + if b.tracing && AllGone(b.pids, b.fds) then 1 else 0
  }

  class Ferret {
    const timeout: int
    var watchList: seq<string>
    var pids: seq<int>
    var fds: map<int, int>
    var firstCollect: int
    var lastStatus: int
    var written: seq<int>
    ghost var timedOut: bool
    ghost var tracing: bool
    ghost var rounds: nat

    /** The statuses written so far, by what has happened. */
    ghost predicate Valid()
      reads this
    {
      && lastStatus == Last(written)
      && written == Expected(timedOut, tracing, rounds)
      && (tracing ==> watchList == [])
      && (rounds > 0 <==> tracing && AllGone(pids, fds))
    }

    /** A run as `start` begins it. */
    constructor (names: seq<string>, pids: seq<int>, fds: map<int, int>, timeout: int)
      ensures Valid() && written == [] && !timedOut && !tracing && rounds == 0 && firstCollect == 0
      ensures watchList == names && this.pids == pids && this.fds == fds && this.timeout == timeout
    {
      this.timeout, watchList, this.pids, this.fds := timeout, names, pids, fds;
      firstCollect, lastStatus, written := 0, NONE, [];
      timedOut, tracing, rounds := false, false, 0;
    }

    method Notify(status: int)
      requires lastStatus == Last(written)
      modifies this`written, this`lastStatus
      ensures lastStatus == Last(written) && written == Notified(old(written), status)
    {
      if lastStatus != status {
        written := written + [status];
        lastStatus := status;
      }
    }

    method Poll(polled: seq<int>)
      requires |polled| == |watchList|
      modifies this`watchList, this`pids
      ensures watchList == Missing(old(watchList), polled, |polled|)
      ensures pids == old(pids) + Found(polled, |polled|)
    {
      var left, found := [], pids;
      for i := 0 to |polled|
        invariant left == Missing(watchList, polled, i) && found == pids + Found(polled, i)
        invariant watchList == old(watchList) && pids == old(pids)
      {
        if polled[i] > 0 {
          found := found + [polled[i]];
        } else {
          left := left + [watchList[i]];
        }
      }
      watchList, pids := left, found;
    }

    method Enumerate(files: seq<(int, int)>)
      modifies this`fds
      ensures fds == AllOpened(old(fds), files)
    {
      for i := 0 to |files|
        invariant fds == AllOpened(old(fds), files[..i])
      {
        var (pid, fd) := files[i];
        if pid !in fds && fd >= 0 { fds := fds[pid := fd]; }
        assert files[..i + 1][..i] == files[..i];
      }
      assert files[..|files|] == files;
    }

    /** Files that cannot be read any more mark their pid as gone. */
    method ReadFiles(readable: set<int>)
      modifies this`fds
      ensures fds.Keys == old(fds).Keys
      ensures forall p :: p in fds ==>
        fds[p] == if old(fds)[p] < 0 || p in readable then old(fds)[p] else -1
    {
      var todo: set<int> := fds.Keys;
      while todo != {}
        invariant fds.Keys == old(fds).Keys && todo <= fds.Keys
        invariant forall p :: p in fds ==>
          fds[p] == if old(fds)[p] < 0 || p in readable || p in todo then old(fds)[p] else -1
        decreases todo
      {
        var p := Any(todo);
        if fds[p] >= 0 && p !in readable { fds := fds[p := -1]; }
        todo := todo - {p};
      }
    }

    method Sample(files: seq<(int, int)>, readable: set<int>)
      modifies this`fds
      ensures Sampled(old(fds), files, readable, fds)
      ensures forall p :: Gone(p, old(fds)) ==> Gone(p, fds)
    {
      forall p | p in fds ensures p in AllOpened(fds, files) && AllOpened(fds, files)[p] == fds[p] {
        OpenedKeeps(fds, files, p);
      }
      Enumerate(files);
      ReadFiles(readable);
    }

    method CountActive() returns (active: nat)
      ensures active == 0 <==> AllGone(pids, fds)
    {
      active := |pids|;
      for i := 0 to |pids|
        invariant active >= |pids| - i
        invariant active == |pids| - i <==> forall k :: 0 <= k < i ==> Gone(pids[k], fds)
      {
        if pids[i] in fds && fds[pids[i]] < 0 { active := active - 1; }
      }
    }

    ghost function Now(): Standing
      reads this
    {
      Standing(watchList, pids, fds, firstCollect, timedOut, tracing, rounds)
    }

    method Collect(now: int, polled: seq<int>, files: seq<(int, int)>, readable: set<int>)
      requires Valid() && |polled| == |watchList|
      modifies this
      ensures Valid() && Moved(old(Now()), Now(), timeout, now, polled, files, readable)
      ensures forall p :: Gone(p, old(fds)) ==> Gone(p, fds)
      ensures Polled(old(watchList), old(pids), polled, watchList, pids)
      ensures forall p :: p in pids && p in readable && !Gone(p, old(fds)) ==> 0 !in written
    {
      PolledMeans(watchList, pids, polled);
      Work(now, polled, files, readable);
      ActiveWrite(this, old(fds), files, readable);
    }

    method Work(now: int, polled: seq<int>, files: seq<(int, int)>, readable: set<int>)
      requires Valid() && |polled| == |watchList|
      modifies this
      ensures Valid() && Moved(old(Now()), Now(), timeout, now, polled, files, readable)
      ensures forall p :: Gone(p, old(fds)) ==> Gone(p, fds)
    {
      if firstCollect == 0 { firstCollect := now; }
      Poll(polled);
      if watchList != [] {
        CheckTimeout(now);
      } else {
        Trace(files, readable);
      }
    }

    method CheckTimeout(now: int)
      requires lastStatus == Last(written) && written == Expected(timedOut, false, 0) && !tracing && rounds == 0
      modifies this`written, this`lastStatus, this`timedOut
      ensures Valid() && (timedOut <==> old(timedOut) || now - firstCollect > timeout)
    {
      if now - firstCollect > timeout {
        AfterTimeout(timedOut);
        Notify(TIMEOUT);
        timedOut := true;
      }
    }

    /** The part of a collect once no name is sought any more. */
    method Trace(files: seq<(int, int)>, readable: set<int>)
      requires lastStatus == Last(written) && written == Expected(timedOut, tracing, rounds)
      requires watchList == [] && (rounds > 0 ==> AllGone(pids, fds))
      modifies this`written, this`lastStatus, this`fds, this`tracing, this`rounds
      ensures Valid() && tracing && Sampled(old(fds), files, readable, fds)
      ensures rounds == old(rounds) + if AllGone(pids, fds) then 1 else 0
      ensures forall p :: Gone(p, old(fds)) ==> Gone(p, fds)
    {
      AfterActive(timedOut, tracing, rounds);
      Notify(ACTIVE);
      Sample(files, readable);
      Conclude();
    }

    method Conclude()
      requires lastStatus == Last(written) && written == Warning(timedOut) + Rounds(rounds) + [ACTIVE]
      requires watchList == [] && (rounds > 0 ==> AllGone(pids, fds))
      modifies this`written, this`lastStatus, this`tracing, this`rounds
      ensures Valid() && tracing && rounds == old(rounds) + if AllGone(pids, fds) then 1 else 0
    {
      var active := CountActive();
      if active == 0 {
        AfterFinished(timedOut, rounds);
        Notify(FINISHED);
        rounds := rounds + 1;
      } else {
        assert rounds == 0 && Rounds(0) == [];
      }
      tracing := true;
    }
  }

  // ---- burrow ----

  /** The place of the first status that ends the watch. */
  predicate EndsAt(statuses: seq<int>, k: int) {
    && 0 <= k < |statuses| && (statuses[k] == -1 || statuses[k] == 0)
    && forall j :: 0 <= j < k ==> statuses[j] != -1 && statuses[j] != 0
  }

  /** The watch over the statuses in the pipe: it succeeds or fails at the first status that ends it, and goes on
      waiting without one. */
  method Monitor(statuses: seq<int>) returns (success: Option<bool>)
    ensures success == Some(true) <==> exists k :: EndsAt(statuses, k) && statuses[k] == 0
    ensures success == Some(false) <==> exists k :: EndsAt(statuses, k) && statuses[k] == -1
    ensures success == None <==> forall k :: 0 <= k < |statuses| ==> statuses[k] != -1 && statuses[k] != 0
  {
    var last, i := NONE, 0;
    while i < |statuses|
      invariant 0 <= i <= |statuses| && last != TIMEOUT && last != FINISHED
      invariant forall j :: 0 <= j < i ==> statuses[j] != TIMEOUT && statuses[j] != FINISHED
    {
      var status := statuses[i];
      if status != last {
        last := status;
        if status == TIMEOUT {
          assert EndsAt(statuses, i);
          return Some(false);
        } else if status == FINISHED {
          assert EndsAt(statuses, i);
          return Some(true);
        }
      }
      i := i + 1;
    }
    return None;
  }

  /** What the watcher makes of a log. */
  ghost predicate Succeeds(log: seq<int>) {
    exists k :: EndsAt(log, k) && log[k] == FINISHED
  }

  lemma {:induction false} RoundsFront(n: nat)
    requires n > 0
    ensures |Rounds(n)| >= 2 && Rounds(n)[0] == ACTIVE && Rounds(n)[1] == FINISHED
  {
    if n > 1 { RoundsFront(n - 1); }
  }

  /** In every state between collects: the log has the promised form, "finished" is in it only once every watched
      pid is known to be gone, and the watcher succeeds exactly when that has happened without a timeout before. */
  lemma Protocol(ferret: Ferret)
    requires ferret.Valid()
    ensures IsStatusLog(ferret.written)
    ensures 0 in ferret.written <==> ferret.tracing && AllGone(ferret.pids, ferret.fds)
    ensures 0 in ferret.written ==> ferret.watchList == []
    ensures Succeeds(ferret.written) <==> ferret.tracing && AllGone(ferret.pids, ferret.fds) && !ferret.timedOut
    ensures -1 in ferret.written <==> ferret.timedOut
  {
    var log := ferret.written;
    var gone := ferret.tracing && AllGone(ferret.pids, ferret.fds);
    var n := if gone then ferret.rounds else 0;
    if gone {
      RoundsFront(n);
      assert log == Warning(ferret.timedOut) + Rounds(n);
    }
    if !ferret.tracing { assert log == Warning(ferret.timedOut) + Rounds(0); }
    RoundsHold(n);
    if gone && !ferret.timedOut { assert EndsAt(log, 1); }
    if ferret.timedOut { assert EndsAt(log, 0); }
  }

  /** While a watched pid that was not gone can be read, no 0 is in the log after a collect. */
  lemma StillActive(ferret: Ferret, before: map<int, int>, files: seq<(int, int)>, readable: set<int>, pid: int)
    requires ferret.Valid() && (ferret.fds == before || Sampled(before, files, readable, ferret.fds))
    requires pid in ferret.pids && pid in readable && !Gone(pid, before)
    ensures !Gone(pid, ferret.fds) && 0 !in ferret.written
  {
    OpenedNotGone(before, files, pid);
    Protocol(ferret);
  }

  lemma ActiveWrite(ferret: Ferret, before: map<int, int>, files: seq<(int, int)>, readable: set<int>)
    requires ferret.Valid() && (ferret.fds == before || Sampled(before, files, readable, ferret.fds))
    ensures forall p :: p in ferret.pids && p in readable && !Gone(p, before) ==> 0 !in ferret.written
  {
    forall p | p in ferret.pids && p in readable && !Gone(p, before) ensures 0 !in ferret.written {
      StillActive(ferret, before, files, readable, p);
    }
  }

  lemma {:induction false} OpenedNotGone(fds: map<int, int>, files: seq<(int, int)>, pid: int)
    requires !Gone(pid, fds)
    ensures !Gone(pid, AllOpened(fds, files))
  {
    if files != [] { OpenedNotGone(fds, files[..|files| - 1], pid); }
  }

  lemma {:induction false} RoundsHold(n: nat)
    ensures forall i :: 0 <= i < |Rounds(n)| ==> Rounds(n)[i] == ACTIVE || Rounds(n)[i] == FINISHED
  {
    if n > 0 { RoundsHold(n - 1); }
  }
}
