/**
 * Counters accumulated per scope: `collect_scope_start` and `collect_scope_stop` take snapshots of a thread's counters,
 * and the difference is added to growable vectors indexed by the scope's id.
 */
module PerfScopes {

  import opened Bytes
  import opened PerfSums

  type uint16 = w: int | 0 <= w < 0x1_0000

  /** The id that says no scope is open. */
  const CLOSED: uint16 := 0xFFFF

  /** Vectors are never made longer than this. */
  const LIMIT: uint16 := 0xFFFE

  /** A snapshot has room for eight counters. */
  const SLOTS := 8

  type Snapshot = Values

  datatype Event = Start(id: uint16, snap: Snapshot) | Stop(id: uint16, snap: Snapshot)

  // ---- what a thread's vectors should hold ----

  /** Every stop directly follows the start of its own scope. */
  predicate Paired(h: seq<Event>) {
    forall p :: 0 <= p < |h| && h[p].Stop? ==> p > 0 && h[p - 1] == Start(h[p].id, h[p - 1].snap)
  }

  /** The id of the scope left open. */
  function Open(h: seq<Event>): uint16 {
    if h != [] && h[|h| - 1].Start? then h[|h| - 1].id else CLOSED
  }

  /** The change of counter `i`, summed over the completed scopes with id `f`. */
  function Total(h: seq<Event>, f: uint16, i: nat): int {
    if |h| < 2 then 0
    else
      var n := |h| - 1;
      Total(h[..n], f, i)
      + if h[n] == Stop(f, h[n].snap) then At(h[n].snap, i) - At(h[n - 1].snap, i) else 0
  }

  /** The change of the first `n` counters together. */
  function Change(start: Snapshot, stop: Snapshot, n: nat): int {
    if n == 0 then 0 else Change(start, stop, n - 1) + (At(stop, n - 1) - At(start, n - 1))
  }

  /** If counter `i` alone moved, the change is its own. */
  lemma {:induction false} OnlyOneMoved(start: Snapshot, stop: Snapshot, i: nat, n: nat)
    requires forall j :: 0 <= j < n && j != i ==> At(stop, j) == At(start, j)
    ensures Change(start, stop, n) == if i < n then At(stop, i) - At(start, i) else 0
  {
    if n > 0 { OnlyOneMoved(start, stop, i, n - 1); }
  }

  /** Such a scope is counted. */
  lemma OneMovedCounts(h: seq<Event>, e: Event, i: nat, counters: nat)
    requires e.Stop? && h != [] && i < counters && At(e.snap, i) != At(h[|h| - 1].snap, i)
    requires forall j :: 0 <= j < counters && j != i ==> At(e.snap, j) == At(h[|h| - 1].snap, j)
    ensures Moved(h + [e], e.id, counters) == Moved(h, e.id, counters) + 1
  {
    var last := h[|h| - 1].snap;
    OnlyOneMoved(last, e.snap, i, counters);
    NotAMultiple(At(e.snap, i), At(last, i));
    AfterStop(h, e, e.id, counters);
  }

  lemma NotAMultiple(a: uint64, b: uint64)
    requires a != b
    ensures Wrap(a - b) > 0
  {
  }

  /** The number of completed scopes with id `f` in which the counters together moved, as a 64-bit sum sees it. */
  function Moved(h: seq<Event>, f: uint16, counters: nat): nat {
    if |h| < 2 then 0
    else
      var n := |h| - 1;
      Moved(h[..n], f, counters)
      + if h[n] == Stop(f, h[n].snap) && Wrap(Change(h[n - 1].snap, h[n].snap, counters)) > 0 then 1 else 0
  }

  lemma PairedAfterStop(h: seq<Event>, e: Event)
    requires Paired(h) && e.Stop? && e.id < LIMIT && Open(h) == e.id
    ensures h != [] && h[|h| - 1].Start? && Paired(h + [e]) && Open(h + [e]) == CLOSED
  {
  }

  lemma AfterStart(h: seq<Event>, e: Event, f: uint16, i: nat)
    requires e.Start?
    ensures Total(h + [e], f, i) == Total(h, f, i)
    ensures Moved(h + [e], f, i) == Moved(h, f, i)
  {
    assert (h + [e])[..|h|] == h;
  }

  lemma AfterStop(h: seq<Event>, e: Event, f: uint16, i: nat)
    requires e.Stop? && h != []
    ensures var last := h[|h| - 1].snap;
      && Total(h + [e], f, i) == Total(h, f, i) + (if e.id == f then At(e.snap, i) - At(last, i) else 0)
      && Moved(h + [e], f, i) == Moved(h, f, i) + if e.id == f && Wrap(Change(last, e.snap, i)) > 0 then 1 else 0
  {
    assert (h + [e])[..|h|] == h;
  }

  // ---- growable vectors ----

  function Zeros(n: nat): (r: seq<nat>)
    ensures |r| == n && forall k :: 0 <= k < n ==> r[k] == 0
  {
    if n == 0 then [] else Zeros(n - 1) + [0]
  }

  function Slot(v: seq<nat>, k: nat): nat { if k < |v| then v[k] else 0 }

  /** `v` with room for index `f`: new entries are 0 and none is lost. */
  function Grown(v: seq<nat>, f: uint16): (r: seq<nat>)
    requires f < LIMIT
    ensures |r| > f && |r| >= |v|
    ensures forall k :: Slot(r, k) == Slot(v, k)
  {
    if |v| <= f then
      var size := if 2 * f + 1 < LIMIT then 2 * f + 1 else LIMIT;
      v + Zeros(size - |v|)
    else v
  }

  // ---- a thread's counters ----

  class EventContext {
    /** For each counter its vector of accumulated values. */
    var scopes: seq<seq<nat>>
    var calls: seq<nat>
    var withPerf: seq<nat>
    var lastId: uint16
    var lastSnap: Snapshot
    ghost var history: seq<Event>

    ghost predicate Valid()
      reads this
    {
      && |scopes| <= SLOTS
      && Paired(history) && lastId == Open(history)
      && (forall p :: 0 <= p < |history| ==> history[p].id < LIMIT)
      && (history != [] && history[|history| - 1].Start? ==> lastSnap == history[|history| - 1].snap)
      && (forall i :: 0 <= i < |scopes| ==> Holds(scopes[i], history, i))
      && calls == withPerf && Counts(calls, history, |scopes|)
    }

    constructor (counters: nat)
      requires counters <= SLOTS
      ensures Valid() && history == [] && |scopes| == counters
    {
      scopes := seq(counters, i => Zeros(512));
      calls, withPerf, lastId, lastSnap, history := [], [], CLOSED, [], [];
    }

    method ScopeStart(f: uint16, snap: Snapshot)
      requires Valid() && f < LIMIT
      modifies this
      ensures Valid() && history == old(history) + [Start(f, snap)]
      ensures scopes == old(scopes) && calls == old(calls)
    {
      lastId, lastSnap := f, snap;
      ghost var before := history;
      history := history + [Start(f, snap)];
      HoldsAfterStart(scopes, calls, before, Start(f, snap));
    }

    /** A stop that does not match ends the process, and `exit` says so; otherwise it is accounted for and no vector
        gets shorter. */
    method ScopeStop(f: uint16, snap: Snapshot) returns (exit: bool)
      requires Valid() && f < LIMIT
      modifies this
      ensures exit <==> old(lastId) != f
      ensures Valid() && |scopes| == |old(scopes)|
      ensures exit ==> history == old(history)
      ensures !exit ==> history == old(history) + [Stop(f, snap)]
      ensures |calls| >= |old(calls)| && forall i :: 0 <= i < |scopes| ==> |scopes[i]| >= |old(scopes)[i]|
    {
      if lastId != f { return true; }
      lastId := CLOSED;
      ghost var before, stop := history, Stop(f, snap);
      PairedAfterStop(before, stop);
      history := history + [stop];
      var moved;
      scopes, moved := AddChange(scopes, f, lastSnap, snap);
      if moved {
        calls := Bumped(calls, f);
        withPerf := Bumped(withPerf, f);
      }
      HoldsAfterStop(old(scopes), scopes, before, stop);
      CountsAfterStop(old(calls), calls, before, stop, |scopes|);
      return false;
    }
  }

  ghost predicate Holds(v: seq<nat>, h: seq<Event>, i: nat) {
    forall f: uint16 :: Slot(v, f) == Wrap(Total(h, f, i))
  }

  ghost predicate Counts(v: seq<nat>, h: seq<Event>, counters: nat) {
    forall f: uint16 :: Slot(v, f) == Moved(h, f, counters)
  }

  /** `v` with one more at index `f`. */
  function Bumped(v: seq<nat>, f: uint16): (r: seq<nat>)
    requires f < LIMIT
    ensures |r| >= |v| && forall k :: Slot(r, k) == Slot(v, k) + if k == f then 1 else 0
  {
    var w := Grown(v, f);
    assert forall k :: k != f ==> Slot(w[f := w[f] + 1], k) == Slot(w, k);
    w[f := w[f] + 1]
  }

  /** `w` is `v` with `d` added at index `f`. */
  ghost predicate Accumulated(v: seq<nat>, w: seq<nat>, f: uint16, d: int) {
    |w| >= |v| && forall k :: Slot(w, k) == if k == f then Wrap(Slot(v, k) + d) else Slot(v, k)
  }

  method AddChange(scopes: seq<seq<nat>>, f: uint16, start: Snapshot, stop: Snapshot)
    returns (r: seq<seq<nat>>, moved: bool)
    requires f < LIMIT
    ensures |r| == |scopes|
    ensures forall i :: 0 <= i < |r| ==> Accumulated(scopes[i], r[i], f, At(stop, i) - At(start, i))
    ensures moved <==> Wrap(Change(start, stop, |scopes|)) > 0
  {
    r := [];
    var sum: uint64 := 0;
    for i := 0 to |scopes|
      invariant |r| == i && sum == Wrap(Change(start, stop, i))
      invariant forall k :: 0 <= k < i ==> Accumulated(scopes[k], r[k], f, At(stop, k) - At(start, k))
    {
      var change := At(stop, i) - At(start, i);
      var v := Grown(scopes[i], f);
      WrapAdd(change, v[f]);
      WrapAdd(Change(start, stop, i), change);
      v := v[f := Wrap(v[f] + Wrap(change))];
      sum := Wrap(sum + Wrap(change));
      r := r + [v];
    }
    moved := sum > 0;
  }

  lemma HoldsAfterStart(scopes: seq<seq<nat>>, calls: seq<nat>, h: seq<Event>, e: Event)
    requires e.Start? && Counts(calls, h, |scopes|)
    requires forall i :: 0 <= i < |scopes| ==> Holds(scopes[i], h, i)
    ensures forall i :: 0 <= i < |scopes| ==> Holds(scopes[i], h + [e], i)
    ensures Counts(calls, h + [e], |scopes|)
  {
    forall f: uint16 ensures Slot(calls, f) == Moved(h + [e], f, |scopes|) {
      AfterStart(h, e, f, |scopes|);
    }
    forall i, f: uint16 | 0 <= i < |scopes| ensures Slot(scopes[i], f) == Wrap(Total(h + [e], f, i)) {
      AfterStart(h, e, f, i);
    }
  }

  lemma HoldsAfterStop(before: seq<seq<nat>>, after: seq<seq<nat>>, h: seq<Event>, e: Event)
    requires e.Stop? && h != [] && |before| == |after|
    requires forall i :: 0 <= i < |before| ==> Holds(before[i], h, i)
    requires forall i :: 0 <= i < |before| ==>
      Accumulated(before[i], after[i], e.id, At(e.snap, i) - At(h[|h| - 1].snap, i))
    ensures forall i :: 0 <= i < |after| ==> Holds(after[i], h + [e], i)
  {
    forall i, f: uint16 | 0 <= i < |after| ensures Slot(after[i], f) == Wrap(Total(h + [e], f, i)) {
      AfterStop(h, e, f, i);
      WrapAdd(Total(h, f, i), At(e.snap, i) - At(h[|h| - 1].snap, i));
    }
  }

  lemma CountsAfterStop(before: seq<nat>, after: seq<nat>, h: seq<Event>, e: Event, counters: nat)
    requires e.Stop? && h != [] && Counts(before, h, counters) && e.id < LIMIT
    requires after == if Wrap(Change(h[|h| - 1].snap, e.snap, counters)) > 0 then Bumped(before, e.id) else before
    ensures Counts(after, h + [e], counters)
  {
    forall f: uint16 ensures Slot(after, f) == Moved(h + [e], f, counters) {
      AfterStop(h, e, f, counters);
    }
  }

  // ---- what the invariant gives ----

  predicate Used(h: seq<Event>, f: uint16) {
    exists p :: 0 <= p < |h| && h[p] == Stop(f, h[p].snap)
  }

  lemma {:induction false} UnusedIsZero(h: seq<Event>, f: uint16, i: nat)
    requires !Used(h, f)
    ensures Total(h, f, i) == 0 && Moved(h, f, i) == 0
  {
    if |h| >= 2 {
      var n := |h| - 1;
      assert forall p :: 0 <= p < n ==> h[..n][p] == h[p];
      UnusedIsZero(h[..n], f, i);
    }
  }

  /** In any state a thread can reach: an id never completed has 0 in every vector. */
  lemma NeverUsed(context: EventContext, f: uint16, i: nat)
    requires context.Valid() && !Used(context.history, f) && i < |context.scopes|
    ensures Slot(context.scopes[i], f) == 0 && Slot(context.calls, f) == 0
  {
    UnusedIsZero(context.history, f, i);
    UnusedIsZero(context.history, f, |context.scopes|);
    assert Holds(context.scopes[i], context.history, i);
  }

  // ---- PerfCollector::collect_scope_start and collect_scope_stop ----

  /** Flags that reach the replay threads: their first bit says all threads, their second the replay threads. */
  function ForReplay(flags: int): bool { flags % 2 == 1 || (flags / 2) % 2 == 1 }

  /** By value: 1 and 2 are the flags that count, whatever else is set. */
  lemma FlagValues(others: int)
    ensures ForReplay(4 * others + 1) && ForReplay(4 * others + 2) && ForReplay(4 * others + 3)
    ensures !ForReplay(4 * others)
  {
    LowBits(others, 0);
    LowBits(others, 1);
    LowBits(others, 2);
    LowBits(others, 3);
  }

  lemma LowBits(q: int, r: int)
    requires 0 <= r < 4
    ensures (4 * q + r) % 2 == r % 2 && (4 * q + r) / 2 % 2 == r / 2
  {
    assert 4 * q + r == 2 * (2 * q + r / 2) + r % 2;
    assert (4 * q + r) / 2 == 2 * q + r / 2;
  }

  predicate Reaches(flags: int, tid: int, thread: int) { ForReplay(flags) && thread == tid }

  datatype Outcome = Returned(value: bool) | Exited

  function Extended(h: seq<Event>, reached: bool, e: Event): seq<Event> { if reached then h + [e] else h }

  class PerfCollector {
    const tids: seq<int>
    const contexts: seq<EventContext>
    var collecting: bool
    var lastFlags: int

    ghost predicate Valid()
      reads contexts
    {
      && |tids| == |contexts|
      && (forall a, b :: 0 <= a < b < |contexts| ==> contexts[a] != contexts[b])
      && forall t :: 0 <= t < |contexts| ==> contexts[t].Valid()
    }

    constructor (tids: seq<int>, contexts: seq<EventContext>)
      requires |tids| == |contexts|
      requires forall a, b :: 0 <= a < b < |contexts| ==> contexts[a] != contexts[b]
      requires forall t :: 0 <= t < |contexts| ==> contexts[t].Valid()
      ensures Valid() && this.tids == tids && this.contexts == contexts && !collecting && lastFlags == 0
    {
      this.tids, this.contexts, collecting, lastFlags := tids, contexts, false, 0;
    }

    method StartThreads(f: uint16, tid: int, snaps: seq<Snapshot>)
      requires Valid() && f < LIMIT && |snaps| == |tids|
      modifies contexts
      ensures Valid()
      ensures forall t :: 0 <= t < |contexts| ==>
        contexts[t].history == Extended(old(contexts[t].history), tids[t] == tid, Start(f, snaps[t]))
    {
      for t := 0 to |contexts|
        invariant Valid()
        invariant forall k :: t <= k < |contexts| ==> contexts[k].history == old(contexts[k].history)
        invariant forall k :: 0 <= k < t ==>
          contexts[k].history == Extended(old(contexts[k].history), tids[k] == tid, Start(f, snaps[k]))
      {
        if tids[t] == tid {
          assert forall k :: 0 <= k < |contexts| && k != t ==> contexts[k] != contexts[t];
          contexts[t].ScopeStart(f, snaps[t]);
        }
      }
    }

    /** The snapshots `snaps[t]` are what thread `t`'s counters would read. */
    method CollectScopeStart(f: uint16, flags: int, tid: int, snaps: seq<Snapshot>) returns (r: bool)
      requires Valid() && f < LIMIT && |snaps| == |tids|
      modifies this`lastFlags, contexts
      ensures Valid() && r == collecting
      ensures lastFlags == if collecting then flags else old(lastFlags)
      ensures forall t :: 0 <= t < |contexts| ==>
        contexts[t].history == Extended(old(contexts[t].history), collecting && Reaches(flags, tid, tids[t]),
                                        Start(f, snaps[t]))
    {
      if !collecting { return false; }
      if ForReplay(flags) {
        StartThreads(f, tid, snaps);
      }
      lastFlags := flags;
      return true;
    }

    method StopThreads(f: uint16, tid: int, snaps: seq<Snapshot>) returns (exit: bool)
      requires Valid() && f < LIMIT && |snaps| == |tids|
      modifies contexts
      ensures Valid()
      ensures exit <==> exists t :: 0 <= t < |contexts| && tids[t] == tid && old(contexts[t].lastId) != f
      ensures !exit ==> forall t :: 0 <= t < |contexts| ==>
        contexts[t].history == Extended(old(contexts[t].history), tids[t] == tid, Stop(f, snaps[t]))
    {
      for t := 0 to |contexts|
        invariant Valid()
        invariant forall k :: t <= k < |contexts| ==>
          contexts[k].history == old(contexts[k].history) && contexts[k].lastId == old(contexts[k].lastId)
        invariant forall k :: 0 <= k < t ==>
          contexts[k].history == Extended(old(contexts[k].history), tids[k] == tid, Stop(f, snaps[k]))
        invariant forall k :: 0 <= k < t && tids[k] == tid ==> old(contexts[k].lastId) == f
      {
        if tids[t] == tid {
          assert forall k :: 0 <= k < |contexts| && k != t ==> contexts[k] != contexts[t];
          exit := contexts[t].ScopeStop(f, snaps[t]);
          if exit { return true; }
        }
      }
      return false;
    }

    /** A stop whose flags differ from the last start's is ignored. */
    method CollectScopeStop(f: uint16, flags: int, tid: int, snaps: seq<Snapshot>) returns (r: Outcome)
      requires Valid() && f < LIMIT && |snaps| == |tids|
      modifies contexts
      ensures Valid()
      ensures r == Returned(true) <==> collecting && lastFlags == flags && !r.Exited?
      ensures r.Returned? ==> forall t :: 0 <= t < |contexts| ==>
        contexts[t].history == Extended(old(contexts[t].history), r.value && Reaches(flags, tid, tids[t]),
                                        Stop(f, snaps[t]))
      ensures r.Exited? <==> collecting && lastFlags == flags && ForReplay(flags)
                             && exists t :: 0 <= t < |contexts| && tids[t] == tid && old(contexts[t].lastId) != f
    {
      if !collecting || lastFlags != flags { return Returned(false); }
      if ForReplay(flags) {
        var exit := StopThreads(f, tid, snaps);
        if exit { return Exited; }
      }
      return Returned(true);
    }
  }
}
