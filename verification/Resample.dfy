/**
 * The values of a threaded collector, remixed to one per frame by the frame times.
 */
module Resample {

  import opened Bytes

  /** The time elapsed before frame `n`. */
  function Elapsed(timing: seq<int>, n: nat): int
    requires n <= |timing|
  {
    if n == 0 then 0 else Elapsed(timing, n - 1) + timing[n - 1]
  }

  function Duration(timing: seq<int>): int { Elapsed(timing, |timing|) }

  function Trunc(x: real): int { if x < 0.0 then -((-x).Floor) else x.Floor }

  /** The sample looked up at time `now`, when there is one; a duration of zero gives no index. */
  function Index(now: int, duration: int, samples: nat): (r: Option<nat>)
    ensures r.Some? ==> duration != 0 && r.value < samples
  {
    if duration == 0 then None
    else
      var i := Trunc(now as real / duration as real * samples as real);
      if 0 <= i < samples then Some(i) else None
  }

  /** The values for the first `n` frames; none if a lookup is out of range. */
  function Remix<V>(list: seq<V>, timing: seq<int>, n: nat): (r: Option<seq<V>>)
    requires n <= |timing|
    ensures r.Some? ==> |r.value| == n
  {
    if n == 0 then Some([])
    else
      var front := Remix(list, timing, n - 1);
      var i := Index(Elapsed(timing, n - 1), Duration(timing), |list|);
      if front.None? || i.None? then None else Some(front.value + [list[i.value]])
  }

  // ---- the remix of non-negative frame times ----

  predicate NonNegative(timing: seq<int>) {
    forall i :: 0 <= i < |timing| ==> timing[i] >= 0
  }

  lemma {:induction false} ElapsedGrows(timing: seq<int>, a: nat, b: nat)
    requires NonNegative(timing) && a <= b <= |timing|
    ensures Elapsed(timing, a) <= Elapsed(timing, b)
  {
    if a < b { ElapsedGrows(timing, a, b - 1); }
  }

  /** The share of the samples that lies before `now`. */
  function Share(now: int, duration: int, samples: nat): real
    requires duration > 0
  {
    now as real / duration as real * samples as real
  }

  lemma ShareGrows(a: int, b: int, duration: int, samples: nat)
    requires duration > 0 && a <= b
    ensures Share(a, duration, samples) <= Share(b, duration, samples)
  {
    assert a as real / duration as real <= b as real / duration as real;
  }

  lemma ShareBounds(now: int, duration: int, samples: nat)
    requires duration > 0 && samples > 0
    ensures Share(0, duration, samples) == 0.0
    ensures Share(duration, duration, samples) == samples as real
    ensures now < duration ==> Share(now, duration, samples) < samples as real
  {
    var q := now as real / duration as real;
    if now < duration { assert q < 1.0; }
  }

  lemma IndexInRange(now: int, duration: int, samples: nat)
    requires duration >= 0 && 0 <= now <= duration && samples > 0
    ensures Index(now, duration, samples).Some? <==> now < duration
    ensures now < duration ==>
      var i := Index(now, duration, samples).value;
      i == Share(now, duration, samples).Floor
  {
    if duration > 0 {
      ShareBounds(now, duration, samples);
      ShareGrows(0, now, duration, samples);
    }
  }

  /** The places looked up for frame `n`. */
  function Place(timing: seq<int>, samples: nat, n: nat): Option<nat>
    requires n < |timing|
  {
    Index(Elapsed(timing, n), Duration(timing), samples)
  }

  lemma {:induction false} RemixWorks<V>(list: seq<V>, timing: seq<int>, n: nat)
    requires NonNegative(timing) && list != [] && n <= |timing|
    ensures Remix(list, timing, n).Some? <==> n == 0 || Elapsed(timing, n - 1) < Duration(timing)
  {
    if n > 0 {
      ElapsedGrows(timing, 0, n - 1);
      ElapsedGrows(timing, n - 1, |timing|);
      IndexInRange(Elapsed(timing, n - 1), Duration(timing), |list|);
      RemixWorks(list, timing, n - 1);
      if n > 1 { ElapsedGrows(timing, n - 2, n - 1); }
    }
  }

  lemma {:induction false} RemixAt<V>(list: seq<V>, timing: seq<int>, n: nat, k: nat)
    requires k < n <= |timing| && Remix(list, timing, n).Some?
    ensures Place(timing, |list|, k).Some?
    ensures Remix(list, timing, n).value[k] == list[Place(timing, |list|, k).value]
  {
    if k < n - 1 { RemixAt(list, timing, n - 1, k); }
  }

  /** Remixing a non-empty list succeeds exactly when the last frame took time, and then frame `k` gets the sample
      that covers its share of the whole time. */
  lemma Remixed<V>(list: seq<V>, timing: seq<int>)
    requires NonNegative(timing) && list != []
    ensures var r := Remix(list, timing, |timing|);
      && (r.Some? <==> timing == [] || timing[|timing| - 1] > 0)
      && (r.Some? ==> |r.value| == |timing| && forall k :: 0 <= k < |timing| ==> Covers(list, timing, k, r.value[k]))
  {
    var n := |timing|;
    RemixWorks(list, timing, n);
    if Remix(list, timing, n).Some? {
      forall k | 0 <= k < n ensures Covers(list, timing, k, Remix(list, timing, n).value[k]) {
        RemixAt(list, timing, n, k);
        ElapsedGrows(timing, 0, k);
        ElapsedGrows(timing, k, n);
        IndexInRange(Elapsed(timing, k), Duration(timing), |list|);
        InShare(Elapsed(timing, k), Duration(timing), |list|);
      }
    }
  }

  /** `v` is the sample `i` with `i / samples <= elapsed / duration < (i + 1) / samples`. */
  predicate Covers<V(==)>(list: seq<V>, timing: seq<int>, k: nat, v: V)
    requires k < |timing|
  {
    var d := Duration(timing);
    exists i :: 0 <= i < |list| && list[i] == v && i * d <= Elapsed(timing, k) * |list| < (i + 1) * d
  }

  lemma InShare(now: int, duration: int, samples: nat)
    requires 0 <= now < duration && samples > 0
    ensures var i := Share(now, duration, samples).Floor;
      i * duration <= now * samples < (i + 1) * duration
  {
    var s := Share(now, duration, samples);
    Cancel(now as real, duration as real, samples as real);
    RealProduct(now, samples);
    AtLeast(s.Floor, s, duration, now * samples);
    Less(s.Floor + 1, s, duration, now * samples);
  }

  lemma AtLeast(i: int, s: real, d: int, n: int)
    requires i as real <= s && d > 0 && s * d as real == n as real
    ensures i * d <= n
  {
    Scale(i as real, s, d as real);
    RealProduct(i, d);
  }

  lemma Less(i: int, s: real, d: int, n: int)
    requires s < i as real && d > 0 && s * d as real == n as real
    ensures n < i * d
  {
    ScaleStrictly(s, i as real, d as real);
    RealProduct(i, d);
  }

  lemma Cancel(a: real, b: real, c: real)
    requires b > 0.0
    ensures a / b * c * b == a * c
  {
    var q := a / b;
    assert q * b == a;
    assert q * c * b == q * b * c;
  }

  lemma RealProduct(a: int, b: int)
    ensures a as real * b as real == (a * b) as real
  {
  }

  lemma Scale(x: real, y: real, d: real)
    requires x <= y && d > 0.0
    ensures x * d <= y * d
  {
  }

  lemma ScaleStrictly(x: real, y: real, d: real)
    requires x < y && d > 0.0
    ensures x * d < y * d
  {
  }

  lemma InOrder(timing: seq<int>, samples: nat, a: nat, b: nat)
    requires NonNegative(timing) && a <= b < |timing| && samples > 0 && timing[|timing| - 1] > 0
    ensures Place(timing, samples, 0) == Some(0)
    ensures Place(timing, samples, a).Some? && Place(timing, samples, b).Some?
    ensures Place(timing, samples, a).value <= Place(timing, samples, b).value
  {
    var n, d := |timing|, Duration(timing);
    ElapsedGrows(timing, 0, a);
    ElapsedGrows(timing, a, b);
    ElapsedGrows(timing, b, n - 1);
    IndexInRange(0, d, samples);
    IndexInRange(Elapsed(timing, a), d, samples);
    IndexInRange(Elapsed(timing, b), d, samples);
    ShareBounds(0, d, samples);
    ShareGrows(Elapsed(timing, a), Elapsed(timing, b), d, samples);
  }

  // ---- Collector::postprocess ----

  datatype Outcome = Accepted | Refused | Thrown

  predicate AllRemixed<V(==)>(from: map<string, seq<V>>, to: map<string, seq<V>>, timing: seq<int>) {
    to.Keys == from.Keys
    && forall k :: k in from ==> from[k] != [] && Remix(from[k], timing, |timing|) == Some(to[k])
  }

  /** Every list is empty; the keys are those of before. */
  predicate Cleared<V(==)>(before: map<string, seq<V>>, after: map<string, seq<V>>) {
    after.Keys == before.Keys && forall k :: k in after ==> after[k] == []
  }

  function ListOf<V>(results: map<string, seq<V>>, k: string): seq<V> { if k in results then results[k] else [] }

  /** The values of `reading` for the keys in `done` are at the end of their lists, which are made if there are none. */
  predicate Extended<V(==)>(before: map<string, seq<V>>, after: map<string, seq<V>>, reading: map<string, V>,
                            done: set<string>)
    requires done <= reading.Keys
  {
    after.Keys == before.Keys + done
    && forall k :: k in after ==> after[k] == ListOf(before, k) + if k in done then [reading[k]] else []
  }

  /** What a collector holds. */
  datatype Status<V> = Status(threaded: bool, summarized: bool, joinable: bool, results: map<string, seq<V>>)

  class Collector<V(==)> {
    const threaded: bool
    var summarized: bool
    var results: map<string, seq<V>>
    /** The thread of a threaded collector has been started and not joined. */
    var joinable: bool

    ghost function Now(): Status<V>
      reads this
    {
      Status(threaded, summarized, joinable, results)
    }

    constructor (threaded: bool)
      ensures this.threaded == threaded && !summarized && results == map[] && !joinable
    {
      this.threaded := threaded;
      summarized, results, joinable := false, map[], false;
    }

    /** What `Collection::start` does with a collector whose own `start` returns `started`: to start a thread that still
        runs ends the process, and `ok` is false. */
    method Restart(started: bool) returns (ok: bool)
      modifies this`results, this`joinable
      ensures Cleared(old(results), results)
      ensures ok <==> !(threaded && started && old(joinable))
      ensures joinable == (old(joinable) || (threaded && started))
    {
      results := map k | k in results :: [];
      ok := true;
      if started && threaded {
        ok := !joinable;
        joinable := true;
      }
    }

    /** A collect of an unthreaded collector, or a turn of the loop of a threaded one. */
    method Collect(reading: map<string, V>)
      modifies this`results
      ensures Extended(old(results), results, reading, reading.Keys)
    {
      var todo := reading.Keys;
      while todo != {}
        invariant todo <= reading.Keys
        invariant Extended(old(results), results, reading, reading.Keys - todo)
        decreases todo
      {
        var key :| key in todo;
        results := results[key := ListOf(results, key) + [reading[key]]];
        todo := todo - {key};
      }
    }

    /** All lists are remixed or none: an empty list refuses the collector, a lookup out of range throws. */
    method Postprocess(timing: seq<int>) returns (r: Outcome)
      modifies this`results
      ensures !threaded || summarized ==> r == Accepted && results == old(results)
      ensures r != Accepted ==> results == old(results)
      ensures r == Refused ==> exists k :: k in results && results[k] == []
      ensures r == Thrown ==> exists k :: k in results && results[k] != [] && Remix(results[k], timing, |timing|).None?
      ensures r == Accepted && threaded && !summarized ==> AllRemixed(old(results), results, timing)
    {
      if !threaded || summarized { return Accepted; }
      var duration := Total(timing);
      var todo, tmp := results.Keys, map[];
      while todo != {}
        invariant todo <= results.Keys && results == old(results)
        invariant tmp.Keys == results.Keys - todo
        invariant forall k :: k in tmp ==> results[k] != [] && Remix(results[k], timing, |timing|) == Some(tmp[k])
        decreases todo
      {
        var key :| key in todo;
        if results[key] == [] { return Refused; }
        var list := Resampled(results[key], timing, duration);
        if list.None? { return Thrown; }
        tmp := tmp[key := list.value];
        todo := todo - {key};
      }
      results := tmp;
      return Accepted;
    }

    /** What `Collection::stop` does with a collector: a thread is joined, which throws when there is none, and the
        lists are post-processed. */
    method Finish(timing: seq<int>) returns (r: Outcome)
      modifies this`results, this`joinable
      ensures r == Thrown ==> MayThrow(old(Now()), timing)
      ensures MustThrow(old(Now()), timing) ==> r == Thrown
      ensures r != Thrown ==> Ended(old(Now()), Now(), timing, r)
    {
      if threaded {
        if !joinable { return Thrown; }
        joinable := false;
      }
      r := Postprocess(timing);
    }
  }

  /** A collector before and after its part of a stop that did not throw. */
  ghost predicate Ended<V>(before: Status<V>, after: Status<V>, timing: seq<int>, r: Outcome) {
    && r != Thrown && after.threaded == before.threaded && after.summarized == before.summarized
    && Finished(before.results, after.results, timing, before.threaded && !before.summarized, r)
    && (before.threaded ==> before.joinable && !after.joinable)
  }

  /** The stop of a threaded collector may throw: there is no thread to join, or some look-up is out of range. */
  ghost predicate MayThrow<V>(c: Status<V>, timing: seq<int>) {
    c.threaded && (!c.joinable || (!c.summarized && Unmixable(c.results, timing)))
  }

  /** It does throw: no empty list can refuse the collector first. */
  ghost predicate MustThrow<V>(c: Status<V>, timing: seq<int>) {
    MayThrow(c, timing) && (c.joinable ==> forall k :: k in c.results ==> c.results[k] != [])
  }

  /** For non-negative frame times, a look-up is out of range exactly if there is something to look up and the last frame
      took no time. */
  lemma UnmixableExact<V>(results: map<string, seq<V>>, timing: seq<int>)
    requires NonNegative(timing)
    ensures Unmixable(results, timing) <==>
      timing != [] && timing[|timing| - 1] == 0 && exists k :: k in results && results[k] != []
  {
    forall k | k in results && results[k] != []
      ensures Remix(results[k], timing, |timing|).None? <==> timing != [] && timing[|timing| - 1] == 0
    {
      Remixed(results[k], timing);
    }
  }

  /** Some list has a look-up out of range. */
  predicate Unmixable<V(==)>(results: map<string, seq<V>>, timing: seq<int>) {
    exists k :: k in results && results[k] != [] && Remix(results[k], timing, |timing|).None?
  }

  /** The lists of a collector that was accepted or refused; `remixed` if it had lists to remix. */
  predicate Finished<V(==)>(before: map<string, seq<V>>, after: map<string, seq<V>>, timing: seq<int>, remixed: bool,
                            r: Outcome)
  {
    if r == Accepted && remixed then AllRemixed(before, after, timing)
    else after == before && (r == Refused ==> remixed && exists k :: k in before && before[k] == [])
  }

  method Total(timing: seq<int>) returns (duration: int)
    ensures duration == Duration(timing)
  {
    duration := 0;
    for i := 0 to |timing|
      invariant duration == Elapsed(timing, i)
    {
      duration := duration + timing[i];
    }
  }

  method Resampled<V>(list: seq<V>, timing: seq<int>, duration: int) returns (r: Option<seq<V>>)
    requires duration == Duration(timing)
    ensures r == Remix(list, timing, |timing|)
  {
    var now, values := 0, [];
    for i := 0 to |timing|
      invariant now == Elapsed(timing, i)
      invariant Remix(list, timing, i) == Some(values)
    {
      var index := Index(now, duration, |list|);
      if index.None? {
        NoRemix(list, timing, i + 1, |timing|);
        return None;
      }
      now := now + timing[i];
      values := values + [list[index.value]];
    }
    return Some(values);
  }

  lemma {:induction false} NoRemix<V>(list: seq<V>, timing: seq<int>, a: nat, b: nat)
    requires a <= b <= |timing| && Remix(list, timing, a).None?
    ensures Remix(list, timing, b).None?
  {
    if a < b { NoRemix(list, timing, a, b - 1); }
  }
}
