/**
 * The perf collector's results: per-thread counter lists summed into the replay, background and all-thread arrays.
 */
module PerfSums {

  import opened Bytes

  /** Addition of the counters' type drops what exceeds 64 bits. */
  function Wrap(x: int): (w: uint64) { x % 0x1_0000_0000_0000_0000 }

  lemma WrapAdd(a: int, b: int)
    ensures Wrap(Wrap(a) + b) == Wrap(a + b)
    ensures Wrap(Wrap(a) + Wrap(b)) == Wrap(a + b)
  {
  }

  /** Words are 64 bits wide. */
  lemma WrapMeans(x: int, n: int)
    ensures Wrap(x + n * 0x1_0000_0000_0000_0000) == Wrap(x)
    ensures 0 <= x < 0x1_0000_0000_0000_0000 ==> Wrap(x) == x
  {
    var word := 0x1_0000_0000_0000_0000;
    var q, r := x / word, x % word;
    assert x + n * word == (q + n) * word + r;
  }

  type Values = seq<uint64>

  /** The lists of a thread or the arrays of a group, by counter name. */
  type Lists = map<string, Values>

  function Lookup(lists: Lists, name: string): Option<Values> {
    if name in lists then Some(lists[name]) else None
  }

  /** An entry; a missing one reads as 0. */
  function At(list: Values, k: nat): uint64 { if k < |list| then list[k] else 0 }

  function Entry(list: Option<Values>, k: nat): uint64 { if list.Some? then At(list.value, k) else 0 }

  /** The first `n` entries of `list`, each added to what `before` has in its place. */
  function Added(before: Values, list: Values, n: nat): (r: Values)
    requires n <= |list|
    ensures |r| == n && forall k :: 0 <= k < n ==> r[k] == Wrap(At(before, k) + list[k])
  {
    if n == 0 then [] else Added(before, list, n - 1) + [Wrap(At(before, n - 1) + list[n - 1])]
  }

  /** A counter's array after a thread's list, if it has one, has been added. */
  function Merge(before: Option<Values>, list: Option<Values>): Option<Values> {
    if list.None? then before
    else Some(Added(if before.Some? then before.value else [], list.value, |list.value|))
  }

  /** A counter's array after the lists of `threads`. */
  function Group(before: Option<Values>, threads: seq<Lists>, name: string): Option<Values> {
    if threads == [] then before
    else Merge(Group(before, threads[..|threads| - 1], name), Lookup(threads[|threads| - 1], name))
  }

  function Sum(list: Values): int {
    if list == [] then 0 else Sum(list[..|list| - 1]) + list[|list| - 1]
  }

  // ---- perf_thread::postprocess ----

  class Aggregate {
    var arrays: Lists
    var sums: map<string, uint64>

    /** Every array has its SUM entry, and that is the array's total. */
    ghost predicate Valid()
      reads this
    {
      sums.Keys == arrays.Keys && forall name :: name in arrays ==> sums[name] == Wrap(Sum(arrays[name]))
    }

    constructor ()
      ensures Valid() && arrays == map[]
    {
      arrays, sums := map[], map[];
    }

    constructor Copy(from: Aggregate)
      requires from.Valid()
      ensures Valid() && arrays == from.arrays
    {
      arrays, sums := from.arrays, from.sums;
    }

    method Store(name: string, list: Values)
      requires Valid()
      modifies this
      ensures Valid() && arrays == old(arrays)[name := Merge(Lookup(old(arrays), name), Some(list)).value]
    {
      var sum, total := AddLists(if name in arrays then arrays[name] else [], list);
      arrays := arrays[name := sum];
      sums := sums[name := total];
    }

    method Postprocess(lists: Lists)
      requires Valid()
      modifies this
      ensures Valid()
      ensures forall name :: Lookup(arrays, name) == Merge(Lookup(old(arrays), name), Lookup(lists, name))
    {
      var todo := lists.Keys;
      while todo != {}
        invariant Valid() && todo <= lists.Keys
        invariant forall name :: name in todo ==> Lookup(arrays, name) == Lookup(old(arrays), name)
        invariant forall name :: name !in todo ==>
          Lookup(arrays, name) == Merge(Lookup(old(arrays), name), Lookup(lists, name))
        decreases todo
      {
        var name :| name in todo;
        Store(name, lists[name]);
        todo := todo - {name};
      }
    }
  }

  method AddLists(before: Values, list: Values) returns (r: Values, total: uint64)
    ensures r == Added(before, list, |list|)
    ensures total == Wrap(Sum(r))
  {
    r, total := [], 0;
    for k := 0 to |list|
      invariant r == Added(before, list, k)
      invariant total == Wrap(Sum(r))
    {
      var s := Wrap(At(before, k) + list[k]);
      SumSnoc(r, s);
      WrapAdd(Sum(r), s);
      r := r + [s];
      total := Wrap(total + s);
    }
  }

  lemma SumSnoc(list: Values, v: uint64)
    ensures Sum(list + [v]) == Sum(list) + v
  {
    assert (list + [v])[..|list|] == list;
  }

  // ---- PerfCollector::postprocess ----

  method Combine(replay: seq<Lists>, background: seq<Lists>)
    returns (replayValue: Aggregate, backgroundValue: Aggregate, allValue: Aggregate)
    ensures replayValue.Valid() && backgroundValue.Valid() && allValue.Valid()
    ensures forall name :: Lookup(replayValue.arrays, name) == Group(None, replay, name)
    ensures forall name :: Lookup(backgroundValue.arrays, name) == Group(None, background, name)
    ensures forall name :: Lookup(allValue.arrays, name) == Group(None, replay + background, name)
  {
    replayValue := new Aggregate();
    Join(replayValue, replay);
    backgroundValue := new Aggregate();
    Join(backgroundValue, background);
    allValue := new Aggregate.Copy(replayValue);
    Join(allValue, background);
    forall name { GroupAppend(None, replay, background, name); }
  }

  method Join(value: Aggregate, threads: seq<Lists>)
    requires value.Valid()
    modifies value
    ensures value.Valid()
    ensures forall name :: Lookup(value.arrays, name) == Group(Lookup(old(value.arrays), name), threads, name)
  {
    for i := 0 to |threads|
      invariant value.Valid()
      invariant forall name :: Lookup(value.arrays, name) == Group(Lookup(old(value.arrays), name), threads[..i], name)
    {
      value.Postprocess(threads[i]);
      assert threads[..i + 1][..i] == threads[..i];
    }
    assert threads[..|threads|] == threads;
  }

  lemma {:induction false} GroupAppend(before: Option<Values>, a: seq<Lists>, b: seq<Lists>, name: string)
    ensures Group(before, a + b, name) == Group(Group(before, a, name), b, name)
  {
    if b == [] {
      assert a + b == a;
    } else {
      var n := |b| - 1;
      GroupAppend(before, a, b[..n], name);
      assert (a + b)[..|a + b| - 1] == a + b[..n];
    }
  }

  // ---- what the arrays hold ----

  /** The sum over the threads of their `k`-th values. */
  function Total(threads: seq<Lists>, name: string, k: nat): int {
    if threads == [] then 0
    else
      var n := |threads| - 1;
      Total(threads[..n], name, k) + Entry(Lookup(threads[n], name), k)
  }

  /** What one thread has counts in full: other lists in its place change the sum by the difference. */
  lemma {:induction false} TotalChanges(threads: seq<Lists>, t: nat, lists: Lists, name: string, k: nat)
    requires t < |threads|
    ensures Total(threads[t := lists], name, k)
         == Total(threads, name, k) - Entry(Lookup(threads[t], name), k) + Entry(Lookup(lists, name), k)
  {
    var n := |threads| - 1;
    if t == n {
      assert threads[t := lists][..n] == threads[..n];
    } else {
      assert threads[t := lists][..n] == threads[..n][t := lists];
      TotalChanges(threads[..n], t, lists, name, k);
    }
  }

  /** The thread has the counter, but no `k`-th value for it. */
  predicate Cuts(lists: Lists, name: string, k: nat) {
    name in lists && |lists[name]| <= k
  }

  /** The number of threads up to and including the last that has the counter but no `k`-th value. */
  function LastCut(threads: seq<Lists>, name: string, k: nat): (c: nat)
    ensures c <= |threads|
  {
    if threads == [] then 0
    else if Cuts(threads[|threads| - 1], name, k) then |threads|
    else LastCut(threads[..|threads| - 1], name, k)
  }

  lemma {:induction false} LastCutMeans(threads: seq<Lists>, name: string, k: nat, t: nat)
    requires t < |threads|
    ensures var c := LastCut(threads, name, k);
      && (c > 0 ==> Cuts(threads[c - 1], name, k))
      && (c <= t ==> !Cuts(threads[t], name, k))
  {
    var n := |threads| - 1;
    if !Cuts(threads[n], name, k) && n > 0 {
      LastCutMeans(threads[..n], name, k, if t < n then t else 0);
    }
  }

  lemma MergeEntry(before: Option<Values>, lists: Lists, name: string, k: nat)
    ensures Entry(Merge(before, Lookup(lists, name)), k)
         == if Cuts(lists, name, k) then 0 else Wrap(Entry(before, k) + Entry(Lookup(lists, name), k))
  {
  }

  /** What a group's array holds at any place, for lists of any lengths: the sum modulo 2^64 over the threads after the
      last whose list ends before that place. */
  lemma {:induction false} GroupEntry(threads: seq<Lists>, name: string, k: nat)
    ensures Entry(Group(None, threads, name), k) == Wrap(Total(threads[LastCut(threads, name, k)..], name, k))
  {
    if threads != [] {
      var n := |threads| - 1;
      var front, c := threads[..n], LastCut(threads, name, k);
      MergeEntry(Group(None, front, name), threads[n], name, k);
      if c == |threads| {
        assert threads[c..] == [];
      } else {
        GroupEntry(front, name, k);
        var rest := threads[c..];
        assert rest[..|rest| - 1] == front[c..] && rest[|rest| - 1] == threads[n];
        WrapAdd(Total(front[c..], name, k), Entry(Lookup(threads[n], name), k));
      }
    }
  }

  predicate Someone(threads: seq<Lists>, name: string) {
    exists t :: 0 <= t < |threads| && name in threads[t]
  }

  lemma SomeoneSnoc(threads: seq<Lists>, lists: Lists, name: string)
    ensures Someone(threads + [lists], name) <==> Someone(threads, name) || name in lists
  {
    var all := threads + [lists];
    if Someone(threads, name) {
      var t :| 0 <= t < |threads| && name in threads[t];
      assert all[t] == threads[t];
    } else if name in lists {
      assert all[|threads|] == lists;
    }
  }

  /** A group has an array for a counter exactly when one of its threads has the counter. */
  lemma {:induction false} GroupHas(threads: seq<Lists>, name: string)
    ensures Group(None, threads, name).Some? <==> Someone(threads, name)
  {
    if threads != [] {
      var n := |threads| - 1;
      assert threads == threads[..n] + [threads[n]];
      SomeoneSnoc(threads[..n], threads[n], name);
      GroupHas(threads[..n], name);
    }
  }

  lemma {:induction false} TotalAppend(a: seq<Lists>, b: seq<Lists>, name: string, k: nat)
    ensures Total(a + b, name, k) == Total(a, name, k) + Total(b, name, k)
  {
    if b == [] {
      assert a + b == a;
    } else {
      var n := |b| - 1;
      TotalAppend(a, b[..n], name, k);
      assert (a + b)[..|a + b| - 1] == a + b[..n];
    }
  }

  /** An entry is the sum over all threads exactly when what the earlier ones had there adds up to a multiple of
      2^64. */
  lemma EntryIsTotal(threads: seq<Lists>, name: string, k: nat)
    ensures Entry(Group(None, threads, name), k) == Wrap(Total(threads, name, k))
      <==> Wrap(Total(threads[..LastCut(threads, name, k)], name, k)) == 0
  {
    var c := LastCut(threads, name, k);
    GroupEntry(threads, name, k);
    assert threads == threads[..c] + threads[c..];
    TotalAppend(threads[..c], threads[c..], name, k);
    WrapSame(Total(threads[..c], name, k), Total(threads[c..], name, k));
  }

  lemma WrapSame(a: int, b: int)
    ensures Wrap(b) == Wrap(a + b) <==> Wrap(a) == 0
  {
  }

  // ---- lists whose lengths do not fall ----

  /** In the order of merging, no list of the counter is shorter than an earlier one. */
  predicate Rising(threads: seq<Lists>, name: string) {
    forall i, j :: 0 <= i < j < |threads| && name in threads[i] && name in threads[j] ==>
      |threads[i][name]| <= |threads[j][name]|
  }

  lemma {:induction false} NothingThere(threads: seq<Lists>, name: string, k: nat)
    requires forall t :: 0 <= t < |threads| && name in threads[t] ==> |threads[t][name]| <= k
    ensures Total(threads, name, k) == 0
  {
    if threads != [] { NothingThere(threads[..|threads| - 1], name, k); }
  }

  /** Then every entry is the sum over all threads. */
  lemma RisingSums(threads: seq<Lists>, name: string, k: nat)
    requires Rising(threads, name)
    ensures Entry(Group(None, threads, name), k) == Wrap(Total(threads, name, k))
  {
    var c := LastCut(threads, name, k);
    if c > 0 {
      LastCutMeans(threads, name, k, 0);
      forall t | 0 <= t < c && name in threads[t] ensures |threads[t][name]| <= k {
        assert t < c - 1 ==> |threads[t][name]| <= |threads[c - 1][name]|;
      }
    }
    NothingThere(threads[..c], name, k);
    EntryIsTotal(threads, name, k);
  }

  /** The same threads have the counter, with lists of the same lengths. */
  predicate SameShape(a: seq<Lists>, b: seq<Lists>, name: string) {
    |a| == |b| && forall t :: 0 <= t < |a| ==>
      && (name in a[t] <==> name in b[t])
      && (name in a[t] ==> |a[t][name]| == |b[t][name]|)
  }

  ghost predicate AlwaysSums(threads: seq<Lists>, name: string) {
    forall b, k :: SameShape(threads, b, name) ==> Entry(Group(None, b, name), k) == Wrap(Total(b, name, k))
  }

  function Constant(v: uint64, n: nat): (r: Values)
    ensures |r| == n && forall k :: 0 <= k < n ==> r[k] == v
  {
    if n == 0 then [] else Constant(v, n - 1) + [v]
  }

  /** Lists of the same lengths: ones in thread `i`, zeros elsewhere. */
  function OnesAt(threads: seq<Lists>, name: string, i: nat): (r: seq<Lists>)
    ensures |r| == |threads|
  {
    if threads == [] then []
    else
      var n := |threads| - 1;
      OnesAt(threads[..n], name, i) + [Filled(threads[n], name, if n == i then 1 else 0)]
  }

  /** A list of the same length with one value throughout. */
  function Filled(lists: Lists, name: string, v: uint64): Lists {
    if name in lists then map[name := Constant(v, |lists[name]|)] else map[]
  }

  lemma {:induction false} OneAt(threads: seq<Lists>, name: string, i: nat, t: nat)
    requires t < |threads|
    ensures OnesAt(threads, name, i)[t] == Filled(threads[t], name, if t == i then 1 else 0)
  {
    if t < |threads| - 1 { OneAt(threads[..|threads| - 1], name, i, t); }
  }

  lemma OnesShape(threads: seq<Lists>, name: string, i: nat)
    ensures SameShape(threads, OnesAt(threads, name, i), name)
  {
    forall t | 0 <= t < |threads|
      ensures OnesAt(threads, name, i)[t] == Filled(threads[t], name, if t == i then 1 else 0)
    {
      OneAt(threads, name, i, t);
    }
  }

  lemma {:induction false} OneTotal(threads: seq<Lists>, name: string, i: nat, k: nat, n: nat)
    requires i < |threads| && name in threads[i] && k < |threads[i][name]| && n <= |threads|
    ensures Total(OnesAt(threads, name, i)[..n], name, k) == if i < n then 1 else 0
  {
    if n > 0 {
      OneTotal(threads, name, i, k, n - 1);
      OneAt(threads, name, i, n - 1);
      var r := OnesAt(threads, name, i);
      assert r[..n][..n - 1] == r[..n - 1] && r[..n][n - 1] == r[n - 1];
    }
  }

  /** A list that is shorter than an earlier one loses a value: with a 1 in the earlier list and zeros elsewhere, the
      entry is 0. */
  lemma FallingLoses(threads: seq<Lists>, name: string, i: nat, j: nat)
    requires i < j < |threads| && name in threads[i] && name in threads[j]
    requires |threads[j][name]| < |threads[i][name]|
    ensures var ones, k := OnesAt(threads, name, i), |threads[j][name]|;
      Total(ones, name, k) == 1 && Entry(Group(None, ones, name), k) == 0
  {
    var ones, k := OnesAt(threads, name, i), |threads[j][name]|;
    var c := LastCut(ones, name, k);
    OneAt(threads, name, i, j);
    LastCutMeans(ones, name, k, j);
    OneTotal(threads, name, i, k, |ones|);
    assert ones[..|ones|] == ones;
    OneTotal(threads, name, i, k, c);
    LostEntry(ones, name, k);
  }

  /** All that the threads before a cut had at a place is missing from the array. */
  lemma LostEntry(threads: seq<Lists>, name: string, k: nat)
    ensures var c := LastCut(threads, name, k);
      Entry(Group(None, threads, name), k) == Wrap(Total(threads, name, k) - Total(threads[..c], name, k))
  {
    var c := LastCut(threads, name, k);
    GroupEntry(threads, name, k);
    assert threads == threads[..c] + threads[c..];
    TotalAppend(threads[..c], threads[c..], name, k);
  }

  /** The lengths alone decide: whatever the values, every array is the sum over its threads if and only if the lengths
      do not fall in the order of merging. */
  lemma SumsExactly(threads: seq<Lists>, name: string)
    ensures AlwaysSums(threads, name) <==> Rising(threads, name)
  {
    if Rising(threads, name) {
      RisingAlways(threads, name);
    } else {
      FallingBreaks(threads, name);
    }
  }

  lemma RisingAlways(threads: seq<Lists>, name: string)
    requires Rising(threads, name)
    ensures AlwaysSums(threads, name)
  {
    forall b, k: nat | SameShape(threads, b, name)
      ensures Entry(Group(None, b, name), k) == Wrap(Total(b, name, k))
    {
      RisingSums(b, name, k);
    }
  }

  lemma FallingBreaks(threads: seq<Lists>, name: string)
    requires !Rising(threads, name)
    ensures !AlwaysSums(threads, name)
  {
    var i, j :| 0 <= i < j < |threads| && name in threads[i] && name in threads[j]
      && |threads[j][name]| < |threads[i][name]|;
    FallingLoses(threads, name, i, j);
    OnesShape(threads, name, i);
    var ones, k := OnesAt(threads, name, i), |threads[j][name]|;
    assert Wrap(1) != 0;
    assert Entry(Group(None, ones, name), k) != Wrap(Total(ones, name, k));
  }

  // ---- all threads ----

  lemma {:induction false} LastCutAppend(a: seq<Lists>, b: seq<Lists>, name: string, k: nat)
    ensures LastCut(a + b, name, k)
         == if LastCut(b, name, k) > 0 then |a| + LastCut(b, name, k) else LastCut(a, name, k)
  {
    if b == [] {
      assert a + b == a;
    } else {
      var n := |b| - 1;
      LastCutAppend(a, b[..n], name, k);
      assert (a + b)[..|a + b| - 1] == a + b[..n];
    }
  }

  /** An entry for all threads, for lists of any lengths: the sum of the replay and the background entries, or the
      background entry alone where a background list ends earlier. So it is the sum exactly if no background list ends
      earlier or the replay entry is 0. */
  lemma AllThreads(replay: seq<Lists>, background: seq<Lists>, name: string, k: nat)
    ensures var all, a, b := Entry(Group(None, replay + background, name), k),
                             Entry(Group(None, replay, name), k), Entry(Group(None, background, name), k);
      && all == (if LastCut(background, name, k) > 0 then b else Wrap(a + b))
      && (all == Wrap(a + b) <==> LastCut(background, name, k) == 0 || a == 0)
  {
    if LastCut(background, name, k) > 0 {
      AllCut(replay, background, name, k);
    } else {
      AllSum(replay, background, name, k);
    }
    WrapSum(Entry(Group(None, replay, name), k), Entry(Group(None, background, name), k));
  }

  lemma AllCut(replay: seq<Lists>, background: seq<Lists>, name: string, k: nat)
    requires LastCut(background, name, k) > 0
    ensures Entry(Group(None, replay + background, name), k) == Entry(Group(None, background, name), k)
  {
    var d := LastCut(background, name, k);
    GroupEntry(background, name, k);
    GroupEntry(replay + background, name, k);
    LastCutAppend(replay, background, name, k);
    assert (replay + background)[|replay| + d..] == background[d..];
  }

  lemma AllSum(replay: seq<Lists>, background: seq<Lists>, name: string, k: nat)
    requires LastCut(background, name, k) == 0
    ensures Entry(Group(None, replay + background, name), k)
         == Wrap(Entry(Group(None, replay, name), k) + Entry(Group(None, background, name), k))
  {
    var a := EntrySum(replay, name, k);
    var b := EntrySum(background, name, k);
    var all := EntrySum(replay + background, name, k);
    AllRest(replay, background, name, k);
    WrapAdd(a, b);
  }

  lemma EntrySum(threads: seq<Lists>, name: string, k: nat) returns (sum: int)
    ensures sum == AfterCut(threads, name, k) && Entry(Group(None, threads, name), k) == Wrap(sum)
  {
    GroupEntry(threads, name, k);
    sum := AfterCut(threads, name, k);
  }

  function AfterCut(threads: seq<Lists>, name: string, k: nat): int {
    Total(threads[LastCut(threads, name, k)..], name, k)
  }

  lemma AllRest(replay: seq<Lists>, background: seq<Lists>, name: string, k: nat)
    requires LastCut(background, name, k) == 0
    ensures AfterCut(replay + background, name, k) == AfterCut(replay, name, k) + AfterCut(background, name, k)
  {
    var c := LastCut(replay, name, k);
    LastCutAppend(replay, background, name, k);
    assert background[0..] == background;
    assert (replay + background)[c..] == replay[c..] + background;
    TotalAppend(replay[c..], background, name, k);
  }

  lemma WrapSum(a: uint64, b: uint64)
    ensures Wrap(a + b) == b <==> a == 0
  {
  }
}
