/**
 * A collection: the collectors it runs, and the columns that their values are reported in beside the frame times.
 */
module Collections {

  import opened Bytes
  import opened Resample

  /** Every list has `n` values. */
  predicate OfLength<V>(results: map<string, seq<V>>, n: nat) {
    forall k :: k in results ==> |results[k]| == n
  }

  /** A reading has a value for every list, and starts new lists with the first frame only. */
  predicate Complete<V>(results: map<string, seq<V>>, reading: map<string, V>, n: nat) {
    results.Keys <= reading.Keys && (n > 0 ==> reading.Keys == results.Keys)
  }

  lemma ExtendedLength<V>(before: map<string, seq<V>>, after: map<string, seq<V>>, reading: map<string, V>, n: nat)
    requires OfLength(before, n) && Complete(before, reading, n) && Extended(before, after, reading, reading.Keys)
    ensures OfLength(after, n + 1)
  {
  }

  lemma RemixedLength<V>(before: map<string, seq<V>>, after: map<string, seq<V>>, timing: seq<int>)
    requires AllRemixed(before, after, timing)
    ensures OfLength(after, |timing|)
  {
  }

  /** What the collectors hold. */
  ghost function Statuses<V>(cs: seq<Collector<V>>): (r: seq<Status<V>>)
    reads cs
    ensures |r| == |cs| && forall i :: 0 <= i < |cs| ==> r[i] == cs[i].Now()
  {
    seq(|cs|, i requires 0 <= i < |cs| reads cs => cs[i].Now())
  }

  twostate lemma SameStatuses<V>(cs: seq<Collector<V>>)
    requires forall i :: 0 <= i < |cs| ==> unchanged(cs[i])
    ensures Statuses(cs) == old(Statuses(cs))
  {
  }

  ghost predicate Unthreaded<V>(ss: seq<Status<V>>) {
    forall i :: 0 <= i < |ss| ==> !ss[i].threaded
  }

  /** No collector has an empty list that it would have to remix. */
  ghost predicate Willing<V>(ss: seq<Status<V>>) {
    forall i, k :: 0 <= i < |ss| && ss[i].threaded && !ss[i].summarized && k in ss[i].results ==> ss[i].results[k] != []
  }

  /** No thread of a threaded collector runs. */
  ghost predicate NoThread<V>(ss: seq<Status<V>>) {
    forall i :: 0 <= i < |ss| && ss[i].threaded ==> !ss[i].joinable
  }

  ghost predicate Unsummarized<V>(ss: seq<Status<V>>) {
    forall i :: 0 <= i < |ss| ==> !ss[i].summarized
  }

  /** Every list of every collector without a thread has `n` values. */
  ghost predicate Even<V>(ss: seq<Status<V>>, n: nat) {
    forall i :: 0 <= i < |ss| && !ss[i].threaded ==> OfLength(ss[i].results, n)
  }

  /** Every list of every collector has. */
  ghost predicate AllOfLength<V>(ss: seq<Status<V>>, n: nat) {
    forall i :: 0 <= i < |ss| ==> OfLength(ss[i].results, n)
  }

  ghost predicate SomeMayThrow<V>(ss: seq<Status<V>>, timing: seq<int>) {
    exists i :: 0 <= i < |ss| && MayThrow(ss[i], timing)
  }

  ghost predicate SomeMustThrow<V>(ss: seq<Status<V>>, timing: seq<int>) {
    exists i :: 0 <= i < |ss| && MustThrow(ss[i], timing)
  }

  /** A stop of collectors that hold `ss` is not `ok` only if one of them may throw, and whenever one must. */
  ghost predicate Justified<V>(ok: bool, ss: seq<Status<V>>, timing: seq<int>) {
    (ok || SomeMayThrow(ss, timing)) && (SomeMustThrow(ss, timing) ==> !ok)
  }

  /** Every column has `n` entries. */
  ghost predicate Long(columns: seq<seq<int>>, n: nat) {
    forall i :: 0 <= i < |columns| ==> |columns[i]| == n
  }

  /** Every column has one more entry, its own value. */
  ghost predicate Grown(before: seq<seq<int>>, after: seq<seq<int>>, values: seq<int>) {
    |before| == |after| == |values| && forall i :: 0 <= i < |after| ==> after[i] == before[i] + [values[i]]
  }

  // ---- what a start and a collect do to the collectors ----

  /** A collector before and after a start; `started` is what its own start returned. */
  ghost predicate Began<V>(before: Status<V>, after: Status<V>, started: bool) {
    && after.threaded == before.threaded && after.summarized == before.summarized
    && Cleared(before.results, after.results)
    && after.joinable == (before.joinable || (before.threaded && started))
  }

  ghost predicate AllBegan<V>(before: seq<Status<V>>, after: seq<Status<V>>, started: seq<bool>) {
    |before| == |after| == |started| && forall i :: 0 <= i < |started| ==> Began(before[i], after[i], started[i])
  }

  /** No thread would be started that still runs. */
  ghost predicate NoClash<V>(ss: seq<Status<V>>, started: seq<bool>) {
    forall i :: 0 <= i < |ss| && i < |started| ==> !(ss[i].threaded && started[i] && ss[i].joinable)
  }

  /** A collector before and after a collect: one with a thread is left alone. */
  ghost predicate Took<V>(before: Status<V>, after: Status<V>, reading: map<string, V>) {
    if before.threaded then after == before
    else after == before.(results := after.results) && Extended(before.results, after.results, reading, reading.Keys)
  }

  ghost predicate AllTook<V>(before: seq<Status<V>>, after: seq<Status<V>>, readings: seq<map<string, V>>) {
    |before| == |after| == |readings| && forall i :: 0 <= i < |readings| ==> Took(before[i], after[i], readings[i])
  }

  /** The collectors without a thread give a value for each of their lists. */
  ghost predicate AllComplete<V>(ss: seq<Status<V>>, readings: seq<map<string, V>>, n: nat) {
    forall i :: 0 <= i < |ss| && i < |readings| && !ss[i].threaded ==> Complete(ss[i].results, readings[i], n)
  }

  /** If each collector without a thread gives a value per list, their lists stay equally long. */
  ghost predicate StaysEven<V>(before: seq<Status<V>>, after: seq<Status<V>>, readings: seq<map<string, V>>, n: nat) {
    Even(before, n) && AllComplete(before, readings, n) ==> Even(after, n + 1)
  }

  lemma TookEven<V>(before: seq<Status<V>>, after: seq<Status<V>>, readings: seq<map<string, V>>, n: nat)
    requires AllTook(before, after, readings)
    ensures StaysEven(before, after, readings, n)
  {
    if Even(before, n) && AllComplete(before, readings, n) {
      forall i | 0 <= i < |after| && !after[i].threaded ensures OfLength(after[i].results, n + 1) {
        assert Took(before[i], after[i], readings[i]);
        ExtendedLength(before[i].results, after[i].results, readings[i], n);
      }
    }
  }

  ghost predicate Different<V>(cs: seq<Collector<V>>) {
    forall i, j :: 0 <= i < j < |cs| ==> cs[i] != cs[j]
  }

  class Collection<V(==)> {
    var headers: seq<string>
    var timing: seq<int>
    var custom: seq<seq<int>>
    var startTime: int
    var previousTime: int
    var running: bool
    var collectors: seq<Collector<V>>

    /** The custom columns have one entry per collect, and the frame times add up to the time covered. */
    ghost predicate Valid()
      reads this
    {
      && |custom| == |headers| && Long(custom, |timing|)
      && Duration(timing) == previousTime - startTime
      && Different(collectors)
    }

    /** So have the lists of the collectors without a thread. */
    ghost predicate Aligned()
      reads this, collectors
    {
      Even(Statuses(collectors), |timing|)
    }

    constructor (collectors: seq<Collector<V>>)
      requires Different(collectors)
      ensures Valid() && !running && timing == [] && headers == [] && this.collectors == collectors
    {
      headers, timing, custom, startTime, previousTime, running := [], [], [], 0, 0, false;
      this.collectors := collectors;
    }

    // ---- start ----

    /** `started[i]` is what the start of collector `i` returns. Not `ok` means that a thread still runs that would be
        started again, which ends the process. */
    method Start(headers: seq<string>, now: int, started: seq<bool>) returns (ok: bool)
      requires Valid() && |started| == |collectors|
      modifies this, collectors`results, collectors`joinable
      ensures Valid() && collectors == old(collectors) && this.headers == headers
      ensures timing == [] && startTime == now && previousTime == now
      ensures ok <==> NoClash(old(Statuses(collectors)), started)
      ensures ok ==> running && Aligned() && AllBegan(old(Statuses(collectors)), Statuses(collectors), started)
    {
      timing := [];
      this.headers := headers;
      custom := seq(|headers|, i => []);
      startTime := now;
      previousTime := now;
      ok := StartAll(collectors, started);
      running := ok;
    }

    // ---- collect ----

    /** Every custom column grows by its own value, and so does every list of a collector without a thread; if those
        give a value for each of their lists, all columns stay equally long. */
    method Collect(values: seq<int>, now: int, readings: seq<map<string, V>>)
      requires Valid() && |values| == |headers| && |readings| == |collectors|
      modifies this`timing, this`previousTime, this`custom, collectors`results
      ensures Valid() && previousTime == now
      ensures timing == old(timing) + [now - old(previousTime)]
      ensures Grown(old(custom), custom, values)
      ensures AllTook(old(Statuses(collectors)), Statuses(collectors), readings)
      ensures StaysEven(old(Statuses(collectors)), Statuses(collectors), readings, |old(timing)|)
    {
      CollectColumns(values, now);
      CollectLists(readings, |old(timing)|);
    }

    method CollectLists(readings: seq<map<string, V>>, ghost n: nat)
      requires Valid() && |readings| == |collectors|
      modifies collectors`results
      ensures AllTook(old(Statuses(collectors)), Statuses(collectors), readings)
      ensures StaysEven(old(Statuses(collectors)), Statuses(collectors), readings, n)
      ensures Valid()
    {
      ghost var before := Statuses(collectors);
      CollectAll(collectors, readings);
      TookEven(before, Statuses(collectors), readings, n);
    }

    method CollectColumns(values: seq<int>, now: int)
      requires Valid() && |values| == |headers|
      modifies this`timing, this`previousTime, this`custom
      ensures Statuses(collectors) == old(Statuses(collectors))
      ensures Valid() && previousTime == now
      ensures timing == old(timing) + [now - old(previousTime)]
      ensures Grown(old(custom), custom, values)
    {
      DurationSnoc(timing, now - previousTime);
      timing := timing + [now - previousTime];
      previousTime := now;
      CollectCustom(values);
      SameStatuses(collectors);
    }

    /** A collect of a collection without custom columns. */
    method CollectPlain(now: int, readings: seq<map<string, V>>)
      requires Valid() && headers == [] && |readings| == |collectors|
      modifies this`timing, this`previousTime, this`custom, collectors`results
      ensures Valid() && timing == old(timing) + [now - old(previousTime)]
      ensures AllTook(old(Statuses(collectors)), Statuses(collectors), readings)
    {
      Collect([], now, readings);
    }

    method CollectCustom(values: seq<int>)
      requires |custom| == |headers| == |values|
      modifies this`custom
      ensures Grown(old(custom), custom, values)
    {
      var i := 0;
      while i < |headers|
        invariant 0 <= i <= |headers|
        invariant |custom| == |headers|
        invariant forall k :: 0 <= k < i ==> custom[k] == old(custom)[k] + [values[k]]
        invariant forall k :: i <= k < |headers| ==> custom[k] == old(custom)[k]
        modifies this`custom
      {
        custom := custom[i := custom[i] + [values[i]]];
        i := i + 1;
      }
    }

    // ---- stop ----

    /** Threads are joined and lists remixed; collectors that refuse are dropped. It throws, and is not `ok`, only when
        that may happen for a threaded collector, and always when it must; without threaded collectors it does not, and
        drops none. After a stop that is `ok` no thread runs, and the lists of all collectors kept are as long as the
        timing column: those without a thread because every collect added to them, the others because they were
        remixed. */
    method Stop() returns (ok: bool, ghost outcomes: seq<Outcome>, ghost after: seq<Status<V>>)
      requires Valid()
      modifies this`running, this`collectors, collectors`results, collectors`joinable
      ensures Valid()
      ensures Justified(ok, old(Statuses(collectors)), timing)
      ensures !ok ==> running == old(running) && collectors == old(collectors)
      ensures ok ==> !running && Stopped(old(collectors), collectors, old(Statuses(collectors)), after,
                                         Statuses(collectors), timing, outcomes)
    {
      var kept;
      ok, kept, outcomes, after := StopKept();
      if ok { Retain(kept); }
    }

    method Retain(kept: seq<Collector<V>>)
      requires Valid() && Different(kept)
      modifies this`running, this`collectors
      ensures Valid() && !running && collectors == kept && Statuses(kept) == old(Statuses(kept))
    {
      collectors := kept;
      running := false;
      SameStatuses(kept);
    }

    /** The same without the change to the collection itself. */
    method StopKept()
      returns (ok: bool, kept: seq<Collector<V>>, ghost outcomes: seq<Outcome>, ghost after: seq<Status<V>>)
      requires Valid()
      modifies collectors`results, collectors`joinable
      ensures Justified(ok, old(Statuses(collectors)), timing)
      ensures after == Statuses(collectors)
      ensures ok ==> Stopped(collectors, kept, old(Statuses(collectors)), after, Statuses(kept), timing, outcomes)
    {
      ghost var before := Statuses(collectors);
      ok, kept, outcomes := StopAll(collectors, timing);
      after := Statuses(collectors);
      if ok {
        AcceptingDistinct(collectors, outcomes);
        AcceptingStatuses(collectors, outcomes);
        NoneMustThrow(before, after, timing, outcomes);
        KeptHaveNoThread(collectors, before, timing, outcomes);
        if Willing(before) { AcceptedAllWilling(collectors, before, timing, outcomes); }
        if Even(before, |timing|) && Unsummarized(before) { KeptLengths(collectors, before, timing, outcomes); }
      }
    }
  }

  // ---- the loops over the collectors ----

  method StartAll<V(==)>(cs: seq<Collector<V>>, started: seq<bool>) returns (ok: bool)
    requires Different(cs) && |started| == |cs|
    modifies cs`results, cs`joinable
    ensures ok <==> NoClash(old(Statuses(cs)), started)
    ensures ok ==> AllBegan(old(Statuses(cs)), Statuses(cs), started)
  {
    ghost var before := Statuses(cs);
    for i := 0 to |cs|
      invariant forall k :: i <= k < |cs| ==> cs[k].Now() == before[k]
      invariant forall k :: 0 <= k < i ==> Began(before[k], cs[k].Now(), started[k])
      invariant forall k :: 0 <= k < i ==> !(before[k].threaded && started[k] && before[k].joinable)
    {
      ok := cs[i].Restart(started[i]);
      if !ok { return false; }
    }
    return true;
  }

  method CollectAll<V(==)>(cs: seq<Collector<V>>, readings: seq<map<string, V>>)
    requires Different(cs) && |readings| == |cs|
    modifies cs`results
    ensures AllTook(old(Statuses(cs)), Statuses(cs), readings)
  {
    ghost var before := Statuses(cs);
    for i := 0 to |cs|
      invariant forall k :: i <= k < |cs| ==> cs[k].Now() == before[k]
      invariant forall k :: 0 <= k < i ==> Took(before[k], cs[k].Now(), readings[k])
    {
      if !cs[i].threaded { cs[i].Collect(readings[i]); }
    }
  }


  method StopNext<V(==)>(c: Collector<V>, timing: seq<int>, ghost cs: seq<Collector<V>>, ghost before: seq<Status<V>>,
                         ghost outcomes: seq<Outcome>)
    returns (r: Outcome)
    requires Different(cs) && |outcomes| < |cs| && c == cs[|outcomes|]
    requires Partly(before, Statuses(cs), timing, outcomes)
    modifies c`results, c`joinable
    ensures r == Thrown ==> SomeMayThrow(before, timing)
    ensures r != Thrown ==> Partly(before, Statuses(cs), timing, outcomes + [r])
  {
    ghost var now, i := Statuses(cs), |outcomes|;
    r := c.Finish(timing);
    assert Statuses(cs) == now[i := c.Now()];
    if r == Thrown {
      assert MayThrow(before[i], timing);
    } else {
      PartlyNext(before, now, timing, outcomes, c.Now(), r);
    }
  }

  method StopAll<V(==)>(cs: seq<Collector<V>>, timing: seq<int>)
    returns (ok: bool, kept: seq<Collector<V>>, ghost outcomes: seq<Outcome>)
    requires Different(cs)
    modifies cs`results, cs`joinable
    ensures !ok ==> SomeMayThrow(old(Statuses(cs)), timing)
    ensures ok ==> |outcomes| == |cs| && kept == Accepting(cs, outcomes)
    ensures ok ==> AllEnded(old(Statuses(cs)), Statuses(cs), timing, outcomes)
  {
    kept, outcomes := [], [];
    ghost var before := Statuses(cs);
    for i := 0 to |cs|
      invariant |outcomes| == i && kept == Accepting(cs[..i], outcomes)
      invariant Partly(before, Statuses(cs), timing, outcomes)
    {
      var r := StopNext(cs[i], timing, cs, before, outcomes);
      if r == Thrown { return false, kept, outcomes; }
      kept, outcomes := Keep(cs, i, r, kept, outcomes);
    }
    assert cs[..|cs|] == cs;
    return true, kept, outcomes;
  }

  /** The first collectors have ended, the others are as before. */
  ghost predicate Partly<V>(before: seq<Status<V>>, now: seq<Status<V>>, timing: seq<int>, rs: seq<Outcome>) {
    && |rs| <= |before| == |now|
    && (forall k :: 0 <= k < |rs| ==> Ended(before[k], now[k], timing, rs[k]))
    && (forall k :: |rs| <= k < |now| ==> now[k] == before[k])
  }

  lemma PartlyNext<V>(before: seq<Status<V>>, now: seq<Status<V>>, timing: seq<int>, rs: seq<Outcome>,
                      next: Status<V>, r: Outcome)
    requires Partly(before, now, timing, rs) && |rs| < |now| && Ended(now[|rs|], next, timing, r)
    ensures Partly(before, now[|rs| := next], timing, rs + [r])
  {
  }

  /** A stop that is `ok`: which of the collectors `cs` are kept, what all of them and those kept hold afterwards. No
      thread is left running; without an empty list to remix none is dropped; and if the lists of those without a thread
      were as long as the timing column, then all lists of all kept are. */
  ghost predicate Stopped<V>(cs: seq<Collector<V>>, kept: seq<Collector<V>>, before: seq<Status<V>>,
                             after: seq<Status<V>>, left: seq<Status<V>>, timing: seq<int>, rs: seq<Outcome>)
  {
    && |rs| == |cs| && kept == Accepting(cs, rs) && Different(kept)
    && AllEnded(before, after, timing, rs) && left == Accepting(after, rs) && NoThread(left)
    && (Willing(before) ==> kept == cs)
    && (Even(before, |timing|) && Unsummarized(before) ==> AllOfLength(left, |timing|))
  }

  ghost predicate AllEnded<V>(before: seq<Status<V>>, after: seq<Status<V>>, timing: seq<int>, rs: seq<Outcome>) {
    |rs| == |before| && Partly(before, after, timing, rs)
  }

  lemma NoneMustThrow<V>(before: seq<Status<V>>, after: seq<Status<V>>, timing: seq<int>, rs: seq<Outcome>)
    requires AllEnded(before, after, timing, rs)
    ensures !SomeMustThrow(before, timing)
  {
    forall i | 0 <= i < |before| ensures !MustThrow(before[i], timing) {
      assert Ended(before[i], after[i], timing, rs[i]);
    }
  }

  lemma KeptHaveNoThread<V>(cs: seq<Collector<V>>, before: seq<Status<V>>, timing: seq<int>, rs: seq<Outcome>)
    requires AllEnded(before, Statuses(cs), timing, rs)
    ensures NoThread(Statuses(Accepting(cs, rs)))
  {
    var kept := Accepting(cs, rs);
    forall i | 0 <= i < |kept| && kept[i].threaded ensures !kept[i].joinable {
      var k := AcceptedFrom(cs, rs, kept[i]);
      assert Ended(before[k], Statuses(cs)[k], timing, rs[k]);
    }
  }

  lemma AcceptedAllWilling<V>(cs: seq<Collector<V>>, before: seq<Status<V>>, timing: seq<int>, rs: seq<Outcome>)
    requires |cs| == |rs| && AllEnded(before, Statuses(cs), timing, rs) && Willing(before)
    ensures Accepting(cs, rs) == cs
  {
    forall i | 0 <= i < |rs| ensures rs[i] == Accepted {
      assert Ended(before[i], Statuses(cs)[i], timing, rs[i]);
    }
    AllAccepted(cs, rs);
  }

  lemma WillingKeepThreads<V>(before: seq<Status<V>>, after: seq<Status<V>>, timing: seq<int>, rs: seq<Outcome>)
    requires AllEnded(before, after, timing, rs) && Willing(before)
    ensures Unthreaded(Accepting(after, rs)) <==> Unthreaded(before)
  {
    forall i | 0 <= i < |rs| ensures rs[i] == Accepted && after[i].threaded == before[i].threaded {
      assert Ended(before[i], after[i], timing, rs[i]);
    }
    AllAccepted(after, rs);
    if i :| 0 <= i < |before| && before[i].threaded { assert after[i].threaded; }
    if i :| 0 <= i < |after| && after[i].threaded { assert before[i].threaded; }
  }

  lemma UnthreadedKept<V>(before: seq<Status<V>>, after: seq<Status<V>>, timing: seq<int>, rs: seq<Outcome>)
    requires AllEnded(before, after, timing, rs)
    ensures Unthreaded(before) ==> Unthreaded(Accepting(after, rs))
  {
    if Unthreaded(before) { WillingKeepThreads(before, after, timing, rs); }
  }

  lemma KeptLengths<V>(cs: seq<Collector<V>>, before: seq<Status<V>>, timing: seq<int>, rs: seq<Outcome>)
    requires AllEnded(before, Statuses(cs), timing, rs)
    requires Unsummarized(before) && Even(before, |timing|)
    ensures AllOfLength(Statuses(Accepting(cs, rs)), |timing|)
  {
    var kept := Accepting(cs, rs);
    forall i | 0 <= i < |kept| ensures OfLength(kept[i].results, |timing|) {
      var k := AcceptedFrom(cs, rs, kept[i]);
      EndedLength(before[k], Statuses(cs)[k], timing);
    }
  }

  /** The lists of a collector that was accepted. */
  lemma EndedLength<V>(before: Status<V>, after: Status<V>, timing: seq<int>)
    requires Ended(before, after, timing, Accepted) && !before.summarized
    requires !before.threaded ==> OfLength(before.results, |timing|)
    ensures OfLength(after.results, |timing|)
  {
    if before.threaded { RemixedLength(before.results, after.results, timing); }
  }

  /** The collectors whose outcome is that they are accepted. */
  ghost function Accepting<T>(cs: seq<T>, rs: seq<Outcome>): seq<T>
    requires |cs| == |rs|
  {
    if cs == [] then []
    else
      var n := |cs| - 1;
      Accepting(cs[..n], rs[..n]) + if rs[n] == Accepted then [cs[n]] else []
  }

  /** One more collector with its outcome. */
  method Keep<V>(cs: seq<Collector<V>>, i: nat, r: Outcome, kept: seq<Collector<V>>, ghost rs: seq<Outcome>)
    returns (kept': seq<Collector<V>>, ghost rs': seq<Outcome>)
    requires i < |cs| && |rs| == i && kept == Accepting(cs[..i], rs)
    ensures rs' == rs + [r]
    ensures kept' == Accepting(cs[..i + 1], rs')
  {
    rs' := rs + [r];
    assert cs[..i + 1][..i] == cs[..i] && rs'[..i] == rs;
    kept' := if r == Accepted then kept + [cs[i]] else kept;
  }

  lemma {:induction false} AcceptedFrom<V>(cs: seq<Collector<V>>, rs: seq<Outcome>, c: Collector<V>) returns (k: nat)
    requires |cs| == |rs| && c in Accepting(cs, rs)
    ensures k < |cs| && cs[k] == c && rs[k] == Accepted
  {
    k := |cs| - 1;
    if rs[k] != Accepted || c != cs[k] {
      k := AcceptedFrom(cs[..k], rs[..k], c);
    }
  }

  lemma {:induction false} AcceptingStatuses<V>(cs: seq<Collector<V>>, rs: seq<Outcome>)
    requires |cs| == |rs|
    ensures Statuses(Accepting(cs, rs)) == Accepting(Statuses(cs), rs)
  {
    if cs != [] {
      var n := |cs| - 1;
      AcceptingStatuses(cs[..n], rs[..n]);
      assert Statuses(cs)[..n] == Statuses(cs[..n]);
    }
  }

  lemma {:induction false} AcceptingDistinct<V>(cs: seq<Collector<V>>, rs: seq<Outcome>)
    requires |cs| == |rs| && Different(cs)
    ensures Different(Accepting(cs, rs))
  {
    if cs != [] {
      var n := |cs| - 1;
      var front := Accepting(cs[..n], rs[..n]);
      AcceptingDistinct(cs[..n], rs[..n]);
      forall i | 0 <= i < |front| ensures front[i] != cs[n] {
        var k := AcceptedFrom(cs[..n], rs[..n], front[i]);
      }
    }
  }

  lemma {:induction false} AllAccepted<T>(cs: seq<T>, rs: seq<Outcome>)
    requires |cs| == |rs| && forall i :: 0 <= i < |rs| ==> rs[i] == Accepted
    ensures Accepting(cs, rs) == cs
  {
    if cs != [] {
      var n := |cs| - 1;
      AllAccepted(cs[..n], rs[..n]);
      assert cs == cs[..n] + [cs[n]];
    }
  }

  /** After a stop that is `ok`, the next one is if and only if no collector that was kept is threaded. */
  lemma StopAgain<V>(ss: seq<Status<V>>, timing: seq<int>, ok: bool)
    requires NoThread(ss) && Justified(ok, ss, timing)
    ensures ok <==> Unthreaded(ss)
  {
    if i :| 0 <= i < |ss| && ss[i].threaded {
      assert MustThrow(ss[i], timing);
    }
  }

  /** Two stops in a row. */
  method StopTwice<V(==)>(collection: Collection<V>)
    returns (first: bool, second: bool, ghost between: seq<Status<V>>)
    requires collection.Valid()
    modifies collection`running, collection`collectors, collection.collectors`results, collection.collectors`joinable
    ensures Justified(first, old(Statuses(collection.collectors)), collection.timing)
    ensures first ==> (second <==> Unthreaded(between))
    ensures first && Willing(old(Statuses(collection.collectors))) ==>
      (Unthreaded(between) <==> Unthreaded(old(Statuses(collection.collectors))))
    ensures !first ==> !second
  {
    ghost var all, before, outcomes, after := collection.collectors, Statuses(collection.collectors), [], [];
    first, outcomes, after := collection.Stop();
    second, between := false, Statuses(collection.collectors);
    if first {
      if Willing(before) { WillingKeepThreads(before, after, collection.timing, outcomes); }
      KeptAmong(all, outcomes, collection.collectors);
      second := StopOnce(collection);
    }
  }

  lemma KeptAmong<V>(cs: seq<Collector<V>>, rs: seq<Outcome>, kept: seq<Collector<V>>)
    requires |cs| == |rs| && kept == Accepting(cs, rs)
    ensures forall i :: 0 <= i < |kept| ==> kept[i] in cs
  {
    forall i | 0 <= i < |kept| ensures kept[i] in cs {
      var k := AcceptedFrom(cs, rs, kept[i]);
    }
  }

  method StopOnce<V(==)>(collection: Collection<V>) returns (ok: bool)
    requires collection.Valid() && NoThread(Statuses(collection.collectors))
    modifies collection`running, collection`collectors, collection.collectors`results, collection.collectors`joinable
    ensures ok <==> Unthreaded(old(Statuses(collection.collectors)))
    ensures collection.timing == old(collection.timing)
  {
    ghost var before := Statuses(collection.collectors);
    ghost var outcomes, after;
    ok, outcomes, after := collection.Stop();
    StopAgain(before, collection.timing, ok);
  }

  lemma {:induction false} ElapsedPrefix(timing: seq<int>, more: seq<int>, n: nat)
    requires n <= |timing|
    ensures Elapsed(timing + more, n) == Elapsed(timing, n)
  {
    if n > 0 { ElapsedPrefix(timing, more, n - 1); }
  }

  lemma DurationSnoc(timing: seq<int>, t: int)
    ensures Duration(timing + [t]) == Duration(timing) + t
  {
    ElapsedPrefix(timing, [t], |timing|);
  }
}
