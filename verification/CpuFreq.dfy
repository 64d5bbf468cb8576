/**
 * The CPU frequency collector: for each core the mean frequency since the last sample, weighted by the time spent at
 * each frequency, or a reused value when no time has been accounted.
 */
module CpuFreq {

  import opened Bytes

  /** A core: the frequencies of its time_in_state table, if it has one, and the times last read from it. */
  datatype Core = Core(table: Option<seq<int>>, times: seq<int>)

  /** What the files of a core hold at a collect: the table's times, the values scanned from the frequency file in
      a loop, and the value of a single scan of it, if that succeeds. */
  datatype Reading = Reading(times: seq<int>, scanned: seq<int>, current: Option<int>)

  /** The time spent in the first `n` states between two readings. */
  function Span(from: seq<int>, to: seq<int>, n: nat): int
    requires n <= |to| <= |from|
  {
    if n == 0 then 0 else Span(from, to, n - 1) + (to[n - 1] - from[n - 1])
  }

  /** The same, each state weighted with its frequency. */
  function Weighted(table: seq<int>, from: seq<int>, to: seq<int>, n: nat): int
    requires n <= |to| <= |from| && n <= |table|
  {
    if n == 0 then 0 else Weighted(table, from, to, n - 1) + (to[n - 1] - from[n - 1]) * table[n - 1]
  }

  predicate Within(values: seq<int>, lo: int, hi: int) {
    forall i :: 0 <= i < |values| ==> lo <= values[i] <= hi
  }

  /** The table keeps its rows, and its times do not go back. */
  predicate Steady(table: seq<int>, from: seq<int>, to: seq<int>) {
    |to| == |table| <= |from| && forall i :: 0 <= i < |to| ==> from[i] <= to[i]
  }

  /** Frequencies are positive and within `lo` and `hi` wherever they are read, and one is read where needed. */
  predicate Sane(core: Core, r: Reading, lo: int, hi: int) {
    && 0 < lo <= hi
    && (r.current.Some? ==> lo <= r.current.value <= hi)
    && match core.table
       case Some(table) => Within(table, lo, hi) && Steady(table, core.times, r.times)
         && (table == [] ==> r.current.Some?)
       case None => Within(r.scanned, lo, hi) && (r.scanned == [] ==> r.current.Some?)
  }

  lemma {:induction false} WeightedBounds(table: seq<int>, from: seq<int>, to: seq<int>, n: nat, lo: int, hi: int)
    requires Within(table, lo, hi) && Steady(table, from, to) && n <= |table|
    ensures 0 <= Span(from, to, n)
    ensures lo * Span(from, to, n) <= Weighted(table, from, to, n) <= hi * Span(from, to, n)
  {
    if n > 0 {
      WeightedBounds(table, from, to, n - 1, lo, hi);
      var d, f := to[n - 1] - from[n - 1], table[n - 1];
      Scaled(d, lo, f);
      Scaled(d, f, hi);
      assert lo * (Span(from, to, n - 1) + d) == lo * Span(from, to, n - 1) + lo * d;
      assert hi * (Span(from, to, n - 1) + d) == hi * Span(from, to, n - 1) + hi * d;
    }
  }

  /** Without time in any state both sums are 0. */
  lemma {:induction false} NoTime(table: seq<int>, from: seq<int>, to: seq<int>, n: nat)
    requires n <= |to| <= |from| && n <= |table| && forall i :: 0 <= i < n ==> to[i] == from[i]
    ensures Span(from, to, n) == 0 && Weighted(table, from, to, n) == 0
  {
    if n > 0 { NoTime(table, from, to, n - 1); }
  }

  /** `d` more time in state `j` adds `d` to the time and `d` times the frequency of that state to the weighted sum. */
  lemma {:induction false} MoreTime(table: seq<int>, from: seq<int>, to: seq<int>, n: nat, j: nat, d: int)
    requires n <= |to| <= |from| && n <= |table| && j < |to|
    ensures var later := to[j := to[j] + d];
      && Span(from, later, n) == Span(from, to, n) + (if j < n then d else 0)
      && Weighted(table, from, later, n) == Weighted(table, from, to, n) + if j < n then d * table[j] else 0
  {
    if n > 0 {
      MoreTime(table, from, to, n - 1, j, d);
      if j == n - 1 { Distribute(to[j] - from[j] + d, d, table[j]); }
    }
  }

  /** If all the time was spent in state `j`, the mean is the frequency of that state. */
  lemma OneState(core: Core, r: Reading, previous: seq<int>, left: int, j: nat, avg: int)
    requires core.table.Some? && |r.times| == |core.table.value| <= |core.times|
    requires j < |r.times| && core.times[j] < r.times[j]
    requires forall i :: 0 <= i < |r.times| && i != j ==> r.times[i] == core.times[i]
    requires Reported(core, r, previous, left, avg)
    ensures avg == core.table.value[j]
  {
    var table, from, to := core.table.value, core.times, r.times;
    var d, same := to[j] - from[j], to[j := from[j]];
    NoTime(table, from, same, |to|);
    MoreTime(table, from, same, |to|, j, d);
    assert same[j := same[j] + d] == to;
    Apart(avg, table[j], d);
    Apart(table[j], avg, d);
    assert avg * d <= d * table[j] < (avg + 1) * d;
    Distribute(avg + 1, avg, d);
  }

  lemma Scaled(d: int, a: int, b: int)
    requires d >= 0 && a <= b
    ensures a * d <= d * b
  {
    NotNegative(b - a, d);
    Distribute(b, a, d);
  }

  lemma MeanBounds(sum: int, span: int, lo: int, hi: int)
    requires span > 0 && lo * span <= sum <= hi * span
    ensures lo <= sum / span <= hi
    ensures sum / span * span <= sum < (sum / span + 1) * span
  {
    var q := sum / span;
    assert sum == q * span + sum % span;
    Apart(q, lo, span);
    Apart(hi, q, span);
  }

  lemma Apart(a: int, b: int, span: int)
    requires span > 0
    ensures a < b ==> a * span + span <= b * span
  {
    if a < b {
      NotNegative(b - a - 1, span);
      Distribute(b, a + 1, span);
      Distribute(a + 1, a, span);
    }
  }

  lemma NotNegative(x: int, y: int)
    requires x >= 0 && y >= 0
    ensures x * y >= 0
  {
  }

  lemma Distribute(x: int, y: int, z: int)
    ensures (x - y) * z == x * z - y * z
  {
  }

  /** The sums that a collect forms from a core's table. */
  method Scan(table: seq<int>, from: seq<int>, to: seq<int>) returns (sum: int, span: int, times: seq<int>)
    requires |to| <= |from| && |to| <= |table|
    ensures sum == Weighted(table, from, to, |to|) && span == Span(from, to, |to|)
    ensures times == to + from[|to|..]
  {
    sum, span, times := 0, 0, from;
    for i := 0 to |to|
      invariant sum == Weighted(table, from, to, i) && span == Span(from, to, i)
      invariant times == to[..i] + from[i..]
    {
      var relative := to[i] - times[i];
      sum := sum + relative * table[i];
      span := span + relative;
      times := times[i := to[i]];
    }
  }

  /** What a core reports: the weighted mean, rounded down, of the time since the last sample; the last value again
      when there was none, or the current frequency the first time. `left` is what a failed scan leaves. */
  predicate Reported(core: Core, r: Reading, previous: seq<int>, left: int, avg: int) {
    match core.table
    case Some(table) =>
      |r.times| <= |core.times| && |r.times| <= |table|
      && var span := Span(core.times, r.times, |r.times|);
      if span == 0 then avg == Fallback(r, previous, left)
      else
        avg * span <= Weighted(table, core.times, r.times, |r.times|) < (avg + 1) * span
    case None => avg == if r.scanned == [] then Fallback(r, previous, left) else r.scanned[|r.scanned| - 1]
  }

  function Fallback(r: Reading, previous: seq<int>, left: int): int {
    if previous != [] then previous[|previous| - 1] else if r.current.Some? then r.current.value else left
  }

  /** Every state's time is as it was, or, without a table, nothing could be scanned. */
  predicate NothingAccounted(core: Core, r: Reading) {
    match core.table
    case Some(_) => |r.times| <= |core.times| && forall i :: 0 <= i < |r.times| ==> r.times[i] == core.times[i]
    case None => r.scanned == []
  }

  /** The frequency variable after the scans of a table or a file that end the loops. */
  function LastScanned(core: Core, r: Reading): int {
    var all := if core.table.Some? then core.table.value else r.scanned;
    if all == [] then 0 else all[|all| - 1]
  }

  method Average(core: Core, r: Reading, previous: seq<int>, ghost lo: int, ghost hi: int)
    returns (avg: int, times: seq<int>)
    requires Sane(core, r, lo, hi) && Within(previous, lo, hi)
    ensures lo <= avg <= hi
    ensures Reported(core, r, previous, LastScanned(core, r), avg)
    ensures NothingAccounted(core, r) ==>
      avg == if previous != [] then previous[|previous| - 1]
             else if r.current.Some? then r.current.value
             else if core.table.Some? then core.table.value[|core.table.value| - 1] else 0
    ensures core.table == None && r.scanned != [] ==> avg == r.scanned[|r.scanned| - 1]
    ensures times == if core.table.Some? then r.times + core.times[|r.times|..] else core.times
  {
    var sum, span := 0, 0;
    times := core.times;
    if core.table.Some? {
      var table := core.table.value;
      sum, span, times := Scan(table, core.times, r.times);
      WeightedBounds(table, core.times, r.times, |table|, lo, hi);
      SumIsZero(sum, span, lo, hi);
      if NothingAccounted(core, r) { NoTime(table, core.times, r.times, |table|); }
    } else if r.scanned != [] {
      sum, span := r.scanned[|r.scanned| - 1], 1;
    }
    if sum == 0 {
      sum, span := Fallback(r, previous, LastScanned(core, r)), 1;
    }
    MeanBounds(sum, span, lo, hi);
    avg := sum / span;
  }

  /** With positive frequencies the weighted sum is 0 only when no time has passed. */
  lemma SumIsZero(sum: int, span: int, lo: int, hi: int)
    requires 0 < lo <= hi && span >= 0 && lo * span <= sum <= hi * span
    ensures sum == 0 <==> span == 0
    ensures sum >= 0
  {
    if span > 0 { assert lo * span > 0; }
  }

  // ---- the collector ----

  class Collector {
    /** The range of each core's frequencies. */
    ghost const lo: seq<int>
    ghost const hi: seq<int>
    var cores: seq<Core>
    var values: seq<seq<int>>
    var highest: seq<int>

    /** Every core has a value per collect, all of them within the range of its frequencies; the highest mean of a
        collect is one of its values. */
    ghost predicate Valid()
      reads this
    {
      && |lo| == |hi| == |cores| == |values|
      && (forall i :: 0 <= i < |cores| ==> Within(values[i], lo[i], hi[i]))
      && (forall i :: 0 <= i < |cores| ==> |values[i]| == |highest|)
      && (forall k :: 0 <= k < |highest| ==> Highest(values, k, highest[k]))
    }

    constructor (cores: seq<Core>, ghost lo: seq<int>, ghost hi: seq<int>)
      requires |lo| == |hi| == |cores|
      ensures Valid() && highest == [] && this.cores == cores && this.lo == lo && this.hi == hi
    {
      this.lo, this.hi := lo, hi;
      this.cores, values, highest := cores, seq(|cores|, i => []), [];
    }

    method Collect(readings: seq<Reading>)
      requires Valid() && |readings| == |cores|
      requires forall i :: 0 <= i < |cores| ==> Sane(cores[i], readings[i], lo[i], hi[i])
      modifies this
      ensures Valid() && |highest| == |old(highest)| + 1 && |cores| == |old(cores)|
      ensures forall i :: 0 <= i < |cores| ==> Sampled(old(cores)[i], readings[i], old(values)[i], cores[i], values[i])
    {
      var newCores, newValues, best := SampleAll(cores, readings, values, |highest|, lo, hi);
      forall k | 0 <= k < |highest| ensures Highest(newValues, k, highest[k]) {
        HighestKept(values, newValues, k, highest[k]);
      }
      cores, values, highest := newCores, newValues, highest + [best];
    }
  }

  method SampleOne(core: Core, r: Reading, values: seq<int>, ghost lo: int, ghost hi: int)
    returns (after: Core, more: seq<int>, avg: int)
    requires Sane(core, r, lo, hi) && Within(values, lo, hi)
    ensures Sampled(core, r, values, after, more) && more[|values|] == avg
    ensures Within(more, lo, hi) && avg > 0
  {
    var times;
    avg, times := Average(core, r, values, lo, hi);
    after, more := core.(times := times), values + [avg];
  }

  /** The loop over the cores; all have `n` values before. */
  method SampleAll(cores: seq<Core>, readings: seq<Reading>, values: seq<seq<int>>, ghost n: nat,
                   ghost lo: seq<int>, ghost hi: seq<int>)
    returns (newCores: seq<Core>, newValues: seq<seq<int>>, best: int)
    requires |lo| == |hi| == |cores| == |values| == |readings|
    requires forall i :: 0 <= i < |cores| ==> Sane(cores[i], readings[i], lo[i], hi[i])
    requires forall i :: 0 <= i < |cores| ==> Within(values[i], lo[i], hi[i]) && |values[i]| == n
    ensures |newCores| == |newValues| == |cores|
    ensures forall i :: 0 <= i < |cores| ==> Sampled(cores[i], readings[i], values[i], newCores[i], newValues[i])
    ensures forall i :: 0 <= i < |cores| ==> Within(newValues[i], lo[i], hi[i])
    ensures Highest(newValues, n, best)
  {
    newCores, newValues, best := [], [], 0;
    for i := 0 to |cores|
      invariant |newCores| == |newValues| == i
      invariant AllSampled(cores, readings, values, newCores, newValues)
      invariant AllWithin(newValues, lo, hi)
      invariant Highest(newValues, n, best)
    {
      var core, list, avg := SampleOne(cores[i], readings[i], values[i], lo[i], hi[i]);
      HighestNext(newValues, n, best, list);
      SampledNext(cores, readings, values, newCores, newValues, core, list);
      WithinNext(newValues, lo, hi, list);
      newCores := newCores + [core];
      newValues := newValues + [list];
      best := if avg > best then avg else best;
    }
  }

  /** The first cores and their values after a collect. */
  ghost predicate AllSampled(cores: seq<Core>, readings: seq<Reading>, values: seq<seq<int>>, after: seq<Core>,
                             more: seq<seq<int>>)
    requires |after| == |more| <= |cores| == |readings| == |values|
  {
    forall k :: 0 <= k < |after| ==> Sampled(cores[k], readings[k], values[k], after[k], more[k])
  }

  lemma SampledNext(cores: seq<Core>, readings: seq<Reading>, values: seq<seq<int>>, after: seq<Core>,
                    more: seq<seq<int>>, core: Core, list: seq<int>)
    requires |after| == |more| < |cores| == |readings| == |values|
    requires AllSampled(cores, readings, values, after, more)
    requires Sampled(cores[|after|], readings[|after|], values[|after|], core, list)
    ensures AllSampled(cores, readings, values, after + [core], more + [list])
  {
  }

  ghost predicate AllWithin(values: seq<seq<int>>, lo: seq<int>, hi: seq<int>)
    requires |values| <= |lo| == |hi|
  {
    forall k :: 0 <= k < |values| ==> Within(values[k], lo[k], hi[k])
  }

  lemma WithinNext(values: seq<seq<int>>, lo: seq<int>, hi: seq<int>, list: seq<int>)
    requires |values| < |lo| == |hi| && AllWithin(values, lo, hi) && Within(list, lo[|values|], hi[|values|])
    ensures AllWithin(values + [list], lo, hi)
  {
  }

  lemma HighestNext(values: seq<seq<int>>, k: nat, best: int, list: seq<int>)
    requires Highest(values, k, best) && k < |list| && list[k] > 0
    ensures Highest(values + [list], k, if list[k] > best then list[k] else best)
  {
    var all := values + [list];
    if list[k] > best || values == [] {
      assert all[|values|] == list;
    } else {
      var i :| 0 <= i < |values| && k < |values[i]| && values[i][k] == best;
      assert all[i] == values[i];
    }
  }

  lemma HighestKept(values: seq<seq<int>>, more: seq<seq<int>>, k: nat, best: int)
    requires Highest(values, k, best) && |more| == |values|
    requires forall i :: 0 <= i < |values| ==> k < |values[i]| <= |more[i]| && more[i][..|values[i]|] == values[i]
    ensures Highest(more, k, best)
  {
    forall i | 0 <= i < |values| ensures more[i][k] == values[i][k] {
      assert more[i][..|values[i]|][k] == more[i][k];
    }
  }

  /** `best` is the largest `k`-th value of a core, 0 without cores. */
  ghost predicate Highest(values: seq<seq<int>>, k: nat, best: int) {
    && (forall i :: 0 <= i < |values| && k < |values[i]| ==> values[i][k] <= best)
    && (values == [] ==> best == 0)
    && (values != [] ==> exists i :: 0 <= i < |values| && k < |values[i]| && values[i][k] == best)
  }

  /** A core and its values after a collect: one value more, and the times that were read. */
  ghost predicate Sampled(core: Core, r: Reading, values: seq<int>, after: Core, more: seq<int>) {
    && |more| == |values| + 1 && more[..|values|] == values
    && Reported(core, r, values, LastScanned(core, r), more[|values|])
    && after.table == core.table
    && (core.table.Some? ==> |r.times| <= |core.times| && after.times == r.times + core.times[|r.times|..])
  }
}
