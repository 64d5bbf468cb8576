/**
 * The frame gate of the Vulkan layer: which triggers start, collect and stop its collection, and how long the timing
 * column is afterwards.
 */
module Frames {

  import opened Bytes
  import opened Resample
  import opened Collections

  const WRAP := 0x1_0000_0000

  // ---- the gate ----

  datatype Call = Start | Collect | Stop

  datatype Config = Config(subframes: uint32, start: uint32, end: uint32)

  /** The layer's counters, and the calls it has made on the collection. */
  datatype Gate = Gate(frame: uint32, subframe: uint32, started: bool, finished: bool, processed: uint32,
                       calls: seq<Call>)

  const FRESH := Gate(0, 0, false, false, 0, [])

  /** The call that a new frame leads to. */
  function NextCall(c: Config, g: Gate, frame: uint32): Option<Call> {
    if frame > c.start && !g.started then Some(Start)
    else if frame > c.end && g.started then Some(Stop)
    else if g.started && !g.finished then Some(Collect)
    else None
  }

  function Record(g: Gate, call: Option<Call>): Gate {
    match call
    case None => g
    case Some(Start) => g.(started := true, calls := g.calls + [Start])
    case Some(Stop) => g.(finished := true, calls := g.calls + [Stop])
    case Some(Collect) => g.(processed := (g.processed + 1) % WRAP, calls := g.calls + [Collect])
  }

  /** The counters after a trigger. */
  function Advance(c: Config, g: Gate): Gate {
    var subframe := (g.subframe + 1) % WRAP;
    if subframe >= c.subframes then g.(frame := (g.frame + 1) % WRAP, subframe := 0) else g.(subframe := subframe)
  }

  /** The call that a trigger leads to. */
  function CallOf(c: Config, g: Gate): Option<Call> {
    if (g.subframe + 1) % WRAP >= c.subframes then NextCall(c, g, (g.frame + 1) % WRAP) else None
  }

  lemma CallAfterAdvance(c: Config, g: Gate)
    ensures CallOf(c, g) == if (g.subframe + 1) % WRAP >= c.subframes
                            then NextCall(c, Advance(c, g), Advance(c, g).frame) else None
  {
  }

  function Trigger(c: Config, g: Gate): Gate {
    Record(Advance(c, g), CallOf(c, g))
  }

  function Triggers(c: Config, n: nat): Gate {
    if n == 0 then FRESH else Trigger(c, Triggers(c, n - 1))
  }

  // ---- its closed form ----

  /** The triggers of a frame: none given is one. */
  function PerFrame(c: Config): nat { if c.subframes == 0 then 1 else c.subframes }

  function Max(a: int, b: int): int { if a < b then b else a }
  function Min(a: int, b: int): int { if a < b then a else b }

  function Repeat(call: Call, n: nat): (r: seq<Call>)
    ensures |r| == n && forall i :: 0 <= i < n ==> r[i] == call
  {
    if n == 0 then [] else Repeat(call, n - 1) + [call]
  }

  function Collects(c: Config, frames: nat): nat { Max(0, Min(frames, c.end) - c.start - 1) }

  function Stops(c: Config, frames: nat): nat { Max(0, frames - Max(c.start + 1, c.end)) }

  function Calls(c: Config, frames: nat): seq<Call> {
    if frames <= c.start then []
    else [Start] + Repeat(Collect, Collects(c, frames)) + Repeat(Stop, Stops(c, frames))
  }

  function Closed(c: Config, frames: uint32, subframe: uint32): Gate {
    Gate(frames, subframe, frames > c.start, Stops(c, frames) > 0, Collects(c, frames), Calls(c, frames))
  }

  /** The calls of `frames` frames, one by one: the first frame after `start` starts, and each one after it stops if its
      number is beyond `end` and collects otherwise. */
  lemma CallsMean(c: Config, frames: nat, i: nat)
    requires i < frames - c.start
    ensures |Calls(c, frames)| == frames - c.start
    ensures Calls(c, frames)[i] == if i == 0 then Start else if c.start + 1 + i > c.end then Stop else Collect
  {
  }

  lemma NextFrame(c: Config, frames: uint32, subframe: uint32)
    requires frames + 1 < WRAP
    ensures var g := Closed(c, frames, subframe).(frame := frames + 1, subframe := 0);
      Record(g, NextCall(c, g, frames + 1)) == Closed(c, frames + 1, 0)
  {
    var g := Closed(c, frames, subframe).(frame := frames + 1, subframe := 0);
    NextCalls(c, frames, NextCall(c, g, frames + 1));
  }

  /** The call made at a frame, by its number alone. */
  function CallAt(c: Config, frame: nat): Option<Call> {
    if frame <= c.start then None
    else if frame == c.start + 1 then Some(Start)
    else if frame > c.end then Some(Stop)
    else Some(Collect)
  }

  lemma NextCalls(c: Config, frames: uint32, call: Option<Call>)
    requires call == CallAt(c, frames + 1)
    ensures Calls(c, frames + 1) == Calls(c, frames) + if call.None? then [] else [call.value]
  {
    var a, b := Collects(c, frames), Stops(c, frames);
    if call == Some(Start) {
      assert Repeat(Collect, 0) == [] && Repeat(Stop, 0) == [];
    } else if call == Some(Stop) {
      assert Collects(c, frames + 1) == a && Stops(c, frames + 1) == b + 1;
    } else if call == Some(Collect) {
      assert Collects(c, frames + 1) == a + 1 && b == 0 && Stops(c, frames + 1) == 0;
      assert Repeat(Stop, 0) == [];
    }
  }

  lemma DivNext(t: nat, n: nat)
    requires n > 0
    ensures (t + 1) / n == if t % n + 1 == n then t / n + 1 else t / n
    ensures (t + 1) % n == if t % n + 1 == n then 0 else t % n + 1
  {
    var q, r := t / n, t % n;
    if r + 1 == n {
      assert t + 1 == (q + 1) * n;
      Quotient(t + 1, n, q + 1, 0);
    } else {
      Quotient(t + 1, n, q, r + 1);
    }
  }

  lemma Quotient(t: nat, n: nat, q: nat, r: nat)
    requires n > 0 && r < n && t == q * n + r
    ensures t / n == q && t % n == r
  {
    var d := t / n - q;
    assert d * n == r - t % n;
    Multiple(d, n);
  }

  lemma Multiple(d: int, n: int)
    requires n > 0
    ensures d >= 1 ==> d * n >= n
    ensures d <= -1 ==> d * n <= -n
  {
    if d >= 1 { assert (d - 1) * n >= 0; }
    if d <= -1 { assert (-1 - d) * n >= 0; }
  }

  /** After any number of triggers the counters are a quotient and a remainder, and the calls made are one start,
      then all collects, then all stops. */
  lemma {:induction false} GateClosed(c: Config, t: nat)
    requires t / PerFrame(c) < WRAP
    ensures Triggers(c, t) == Closed(c, t / PerFrame(c), t % PerFrame(c))
  {
    var n := PerFrame(c);
    if t == 0 {
      Quotient(0, n, 0, 0);
    } else {
      DivNext(t - 1, n);
      GateClosed(c, t - 1);
      TriggerClosed(c, (t - 1) / n, (t - 1) % n);
    }
  }

  lemma TriggerClosed(c: Config, frames: uint32, subframe: uint32)
    requires subframe < PerFrame(c)
    requires subframe + 1 == PerFrame(c) ==> frames + 1 < WRAP
    ensures Trigger(c, Closed(c, frames, subframe))
         == if subframe + 1 == PerFrame(c) then Closed(c, frames + 1, 0) else Closed(c, frames, subframe + 1)
  {
    if subframe + 1 == PerFrame(c) { NextFrame(c, frames, subframe); }
  }

  /** The number of collects among some calls. */
  function Collected(calls: seq<Call>): nat {
    if calls == [] then 0
    else Collected(calls[..|calls| - 1]) + if calls[|calls| - 1] == Collect then 1 else 0
  }

  lemma CollectedSnoc(calls: seq<Call>, call: Call)
    ensures Collected(calls + [call]) == Collected(calls) + if call == Collect then 1 else 0
  {
    assert (calls + [call])[..|calls|] == calls;
  }

  lemma CallsAssoc(a: seq<Call>, b: seq<Call>, c: seq<Call>)
    ensures a + b + c == a + (b + c)
  {
  }

  lemma {:induction false} CollectedRepeat(calls: seq<Call>, call: Call, n: nat)
    ensures Collected(calls + Repeat(call, n)) == Collected(calls) + if call == Collect then n else 0
  {
    if n == 0 {
      assert calls + Repeat(call, n) == calls;
    } else {
      CollectedRepeat(calls, call, n - 1);
      CollectedSnoc(calls + Repeat(call, n - 1), call);
      CallsAssoc(calls, Repeat(call, n - 1), [call]);
    }
  }

  lemma CollectedCalls(c: Config, frames: nat)
    ensures Collected(Calls(c, frames)) == Collects(c, frames)
  {
    if frames > c.start {
      CollectedSnoc([], Start);
      assert [] + [Start] == [Start];
      CollectedRepeat([Start], Collect, Collects(c, frames));
      CollectedRepeat([Start] + Repeat(Collect, Collects(c, frames)), Stop, Stops(c, frames));
    }
  }

  // ---- the layer over its collection ----

  /** What the collectors of the collection do during a trigger: whether each starts, and what each reads. */
  datatype World = World(started: seq<bool>, readings: seq<map<string, uint64>>)

  type Statuses64 = seq<Status<uint64>>

  predicate Fits(world: World, n: nat) { |world.started| == |world.readings| == n }

  /** Exactly when a trigger survives: collects do; a start unless it would start a thread that runs; a first stop as
      `Justified` says; and a later stop if and only if no collector is threaded. */
  ghost predicate Survives(call: Option<Call>, ok: bool, finished: bool, ss: Statuses64, world: World, timing: seq<int>) {
    match call
    case None => ok
    case Some(Collect) => ok
    case Some(Start) => ok <==> NoClash(ss, world.started)
    case Some(Stop) => Justified(ok, ss, timing) && (finished ==> (ok <==> Unthreaded(ss)))
  }

  /** What a trigger that survives does to the collectors, as long as none is dropped. */
  ghost predicate Effect(call: Option<Call>, before: Statuses64, after: Statuses64, world: World) {
    match call
    case None => after == before
    case Some(Collect) => AllTook(before, after, world.readings)
    case Some(Start) => AllBegan(before, after, world.started)
    case Some(Stop) => NoThread(after) && (Unthreaded(before) ==> Unthreaded(after))
  }

  class Layer {
    const config: Config
    const collection: Collection<uint64>
    var frame: uint32
    var subframe: uint32
    var started: bool
    var finished: bool
    var processed: uint32
    ghost var calls: seq<Call>
    ghost var triggers: nat

    ghost function View(): Gate
      reads this
    {
      Gate(frame, subframe, started, finished, processed, calls)
    }

    /** The timing column has an entry per collect. */
    ghost predicate Aligned()
      reads this, collection
    {
      && collection.Valid() && collection.headers == []
      && (!started ==> calls == [])
      && |collection.timing| == Collected(calls)
    }

    /** What the collectors hold. */
    ghost function Collectors(): Statuses64
      reads collection, collection.collectors
    {
      Statuses(collection.collectors)
    }

    /** The layer is where its triggers put it, and once it has finished, no thread runs. */
    ghost predicate Valid()
      reads this, collection, collection.collectors
    {
      View() == Triggers(config, triggers) && Aligned() && Quiet()
    }

    constructor (config: Config, collection: Collection<uint64>)
      requires collection.Valid() && collection.headers == [] && collection.timing == []
      ensures Valid() && triggers == 0 && this.config == config && this.collection == collection
    {
      this.config, this.collection := config, collection;
      frame, subframe, started, finished, processed := 0, 0, false, false, 0;
      calls, triggers := [], 0;
    }

    /** The layer's own part of a call. */
    method Log(call: Call)
      modifies this`started, this`finished, this`processed, this`calls
      ensures View() == Record(old(View()), Some(call))
      ensures Collected(calls) == Collected(old(calls)) + (if call == Collect then 1 else 0) && calls != []
      ensures Collectors() == old(Collectors())
    {
      match call {
        case Start => started := true;
        case Stop => finished := true;
        case Collect => processed := (processed + 1) % WRAP;
      }
      Remember(call);
      SameStatuses(collection.collectors);
    }

    ghost method Remember(call: Call)
      modifies this`calls
      ensures calls == old(calls) + [call]
      ensures Collected(calls) == Collected(old(calls)) + if call == Collect then 1 else 0
    {
      CollectedSnoc(calls, call);
      calls := calls + [call];
    }

    method StartRun(now: int, world: World) returns (ok: bool)
      requires Aligned() && !started && Fits(world, |collection.collectors|)
      modifies this`started, this`finished, this`processed, this`calls
      modifies collection, collection.collectors`results, collection.collectors`joinable
      ensures Aligned() && collection.collectors == old(collection.collectors)
      ensures View() == if ok then Record(old(View()), Some(Start)) else old(View())
      ensures ok <==> NoClash(old(Collectors()), world.started)
      ensures ok ==> AllBegan(old(Collectors()), Collectors(), world.started)
    {
      ok := collection.Start([], now, world.started);
      if ok { Log(Start); }
    }

    method StopRun(world: World) returns (ok: bool)
      requires Aligned() && started && (finished ==> NoThread(Collectors()))
      modifies this`started, this`finished, this`processed, this`calls
      modifies collection`running, collection`collectors, collection.collectors`results, collection.collectors`joinable
      ensures Aligned()
      ensures View() == if ok then Record(old(View()), Some(Stop)) else old(View())
      ensures Happens(Some(Stop), ok, old(finished), old(Collectors()), Collectors(), world, collection.timing)
      ensures Willing(old(Collectors())) ==> collection.collectors == old(collection.collectors)
    {
      ok := StopCollection(collection, finished, world);
      if ok { Log(Stop); }
    }

    method CollectFrame(now: int, world: World)
      requires Aligned() && started && Fits(world, |collection.collectors|)
      modifies this`started, this`finished, this`processed, this`calls
      modifies collection`timing, collection`previousTime, collection`custom, collection.collectors`results
      ensures Aligned() && View() == Record(old(View()), Some(Collect))
      ensures AllTook(old(Collectors()), Collectors(), world.readings)
    {
      collection.CollectPlain(now, world.readings);
      Log(Collect);
    }

    /** After a stop no thread runs. */
    ghost predicate Quiet()
      reads this, collection, collection.collectors
    {
      finished ==> started && NoThread(Collectors())
    }

    /** The call that a new frame leads to. */
    method NewFrame(now: int, world: World) returns (ok: bool)
      requires Aligned() && Quiet() && Fits(world, |collection.collectors|)
      modifies this`started, this`finished, this`processed, this`calls
      modifies collection, collection.collectors`results, collection.collectors`joinable
      ensures Aligned() && (ok ==> Quiet())
      ensures View() == if ok then Record(old(View()), NextCall(config, old(View()), frame)) else old(View())
      ensures Happens(NextCall(config, old(View()), frame), ok, old(finished), old(Collectors()), Collectors(), world,
                      old(collection.timing))
      ensures Willing(old(Collectors())) ==> collection.collectors == old(collection.collectors)
    {
      ok := true;
      ghost var call, before, was, timing := NextCall(config, View(), frame), Collectors(), finished, collection.timing;
      if frame > config.start && !started {
        ok := StartRun(now, world);
      } else if frame > config.end && started {
        ok := StopRun(world);
      } else if started && !finished {
        CollectFrame(now, world);
      }
      UnthreadedSurvives(call, ok, was, before, Collectors(), world, timing);
    }

    /** The counters; `full` if a frame is complete. */
    method Count() returns (full: bool)
      requires Aligned() && Quiet()
      modifies this`frame, this`subframe, this`triggers
      ensures View() == Advance(config, old(View())) && full == ((old(subframe) + 1) % WRAP >= config.subframes)
      ensures Aligned() && Quiet() && Collectors() == old(Collectors()) && triggers == old(triggers) + 1
    {
      triggers := triggers + 1;
      subframe := (subframe + 1) % WRAP;
      full := subframe >= config.subframes;
      if full {
        frame := (frame + 1) % WRAP;
        subframe := 0;
      }
      SameStatuses(collection.collectors);
    }

    /** A trigger. It is not `ok` when the start or the stop of the collection throws, and `Happens` says exactly when
        that is; without threaded collectors it never is. */
    method ProcessFrame(now: int, world: World) returns (ok: bool)
      requires Valid() && Fits(world, |collection.collectors|)
      modifies this, collection, collection.collectors`results, collection.collectors`joinable
      ensures Aligned() && triggers == old(triggers) + 1
      ensures ok ==> Valid()
      ensures View() == (if ok then Trigger(config, old(View())) else Advance(config, old(View())))
      ensures Happens(CallOf(config, old(View())), ok, old(finished), old(Collectors()), Collectors(), world,
                      old(collection.timing))
      ensures Willing(old(Collectors())) ==> collection.collectors == old(collection.collectors)
      ensures Unthreaded(old(Collectors())) ==> ok && Unthreaded(Collectors())
    {
      CallAfterAdvance(config, View());
      NothingHappens(finished, Collectors(), world, collection.timing);
      ghost var start, was, timing := View(), finished, collection.timing;
      var full := Count();
      assert finished == was && collection.timing == timing;
      if full {
        assert NextCall(config, View(), frame) == CallOf(config, start);
        ok := NewFrame(now, world);
      } else {
        ok := true;
      }
    }
  }

  /** A trigger, by its result. */
  ghost predicate Happens(call: Option<Call>, ok: bool, finished: bool, before: Statuses64, after: Statuses64,
                          world: World, timing: seq<int>)
  {
    && Survives(call, ok, finished, before, world, timing)
    && (ok ==> Effect(call, before, after, world))
    && (Unthreaded(before) ==> ok && Unthreaded(after))
  }

  lemma NothingHappens(finished: bool, ss: Statuses64, world: World, timing: seq<int>)
    ensures Happens(None, true, finished, ss, ss, world, timing)
  {
  }

  lemma UnthreadedSurvives(call: Option<Call>, ok: bool, finished: bool, before: Statuses64, after: Statuses64,
                           world: World, timing: seq<int>)
    requires Survives(call, ok, finished, before, world, timing) && (ok ==> Effect(call, before, after, world))
    ensures Happens(call, ok, finished, before, after, world, timing)
  {
    if Unthreaded(before) {
      match call
      case None =>
      case Some(Start) =>
        forall i | 0 <= i < |after| ensures !after[i].threaded { assert Began(before[i], after[i], world.started[i]); }
      case Some(Collect) =>
        forall i | 0 <= i < |after| ensures !after[i].threaded { assert Took(before[i], after[i], world.readings[i]); }
      case Some(Stop) =>
    }
  }

  method StopCollection(collection: Collection<uint64>, ghost finished: bool, ghost world: World) returns (ok: bool)
    requires collection.Valid() && (finished ==> NoThread(Statuses(collection.collectors)))
    modifies collection`running, collection`collectors, collection.collectors`results, collection.collectors`joinable
    ensures collection.Valid()
    ensures Happens(Some(Stop), ok, finished, old(Statuses(collection.collectors)), Statuses(collection.collectors), world,
                    collection.timing)
    ensures Willing(old(Statuses(collection.collectors))) ==> collection.collectors == old(collection.collectors)
  {
    ghost var before := Statuses(collection.collectors);
    ghost var outcomes, after;
    ok, outcomes, after := collection.Stop();
    if finished { StopAgain(before, collection.timing, ok); }
    if ok { UnthreadedKept(before, after, collection.timing, outcomes); }
    UnthreadedSurvives(Some(Stop), ok, finished, before, Statuses(collection.collectors), world, collection.timing);
  }

  // ---- runs of triggers ----

  /** As long as the frame counter has not wrapped, the timing column is as long as the number of frames collected,
      which the layer also reports, and covers the time from the start to the last collect. */
  lemma TimingLength(layer: Layer)
    requires layer.Valid() && layer.triggers / PerFrame(layer.config) < WRAP
    ensures |layer.collection.timing| == layer.processed
    ensures layer.processed == Collects(layer.config, layer.triggers / PerFrame(layer.config))
    ensures var c := layer.config;
      var frames := layer.triggers / (if c.subframes == 0 then 1 else c.subframes);
      var last := if frames < c.end then frames else c.end;
      layer.processed == if last > c.start then last - c.start - 1 else 0
    ensures Duration(layer.collection.timing) == layer.collection.previousTime - layer.collection.startTime
  {
    GateClosed(layer.config, layer.triggers);
    CollectedCalls(layer.config, layer.triggers / PerFrame(layer.config));
  }

  /** Any number of triggers of a layer without threaded collectors: all of them survive, and if the frame counter does
      not wrap, the timing column is as long as the closed form says. */
  method Run(layer: Layer, nows: seq<int>, worlds: seq<World>)
    requires layer.Valid() && layer.triggers == 0 && Unthreaded(layer.Collectors()) && |nows| == |worlds|
    requires forall i :: 0 <= i < |worlds| ==> Fits(worlds[i], |layer.collection.collectors|)
    modifies layer, layer.collection
    modifies layer.collection.collectors`results, layer.collection.collectors`joinable
    ensures layer.Valid() && layer.triggers == |nows|
    ensures |nows| / PerFrame(layer.config) < WRAP ==>
      |layer.collection.timing| == layer.processed == Collects(layer.config, |nows| / PerFrame(layer.config))
  {
    ghost var cs := layer.collection.collectors;
    for t := 0 to |nows|
      invariant layer.Valid() && layer.triggers == t
      invariant layer.collection.collectors == cs && Unthreaded(layer.Collectors())
    {
      var ok := layer.ProcessFrame(nows[t], worlds[t]);
      assert ok;
    }
    if |nows| / PerFrame(layer.config) < WRAP { TimingLength(layer); }
  }

  const SHORT := Config(1, 0, 0)

  lemma ShortRun()
    ensures CallOf(SHORT, FRESH) == Some(Start) && Trigger(SHORT, FRESH) == Gate(1, 0, true, false, 0, [Start])
    ensures var g := Gate(1, 0, true, false, 0, [Start]);
      CallOf(SHORT, g) == Some(Stop) && Trigger(SHORT, g) == Gate(2, 0, true, true, 0, [Start, Stop])
    ensures CallOf(SHORT, Gate(2, 0, true, true, 0, [Start, Stop])) == Some(Stop)
  {
  }

  /** A layer with one threaded collector. */
  method NewThreaded() returns (layer: Layer)
    ensures fresh(layer) && fresh(layer.collection) && fresh(layer.collection.collectors)
    ensures layer.Valid() && layer.config == SHORT && layer.View() == FRESH
    ensures layer.Collectors() == [Status(true, false, false, map[])]
  {
    var c := new Collector<uint64>(true);
    var collection := new Collection<uint64>([c]);
    layer := new Layer(SHORT, collection);
  }

  /** The trigger that starts it. */
  method StartThreaded(layer: Layer, now: int) returns (first: bool)
    requires layer.Valid() && layer.config == SHORT && layer.View() == FRESH
    requires layer.Collectors() == [Status(true, false, false, map[])]
    modifies layer, layer.collection
    modifies layer.collection.collectors`results, layer.collection.collectors`joinable
    ensures first && layer.Valid() && layer.View() == Gate(1, 0, true, false, 0, [Start])
    ensures layer.Collectors() == [Status(true, false, true, map[])]
    ensures layer.collection.collectors == old(layer.collection.collectors)
  {
    ShortRun();
    ghost var before, timing := layer.Collectors(), layer.collection.timing;
    var world := World([true], [map[]]);
    first := layer.ProcessFrame(now, world);
    FirstStartWorks(before, layer.Collectors(), world, timing, first);
  }

  lemma FirstStartWorks(ss: Statuses64, after: Statuses64, world: World, timing: seq<int>, ok: bool)
    requires ss == [Status(true, false, false, map[])] && world == World([true], [map[]])
    requires Happens(Some(Start), ok, false, ss, after, world, timing)
    ensures ok && after == [Status(true, false, true, map[])]
  {
    assert Began(ss[0], after[0], true);
  }

  /** Its first stop survives. */
  method StopThreaded(layer: Layer, now: int) returns (second: bool)
    requires layer.Valid() && layer.config == SHORT && layer.View() == Gate(1, 0, true, false, 0, [Start])
    requires layer.Collectors() == [Status(true, false, true, map[])]
    modifies layer, layer.collection
    modifies layer.collection.collectors`results, layer.collection.collectors`joinable
    ensures second && layer.Valid() && layer.View() == Gate(2, 0, true, true, 0, [Start, Stop])
    ensures layer.collection.collectors == old(layer.collection.collectors)
  {
    ShortRun();
    ghost var before, timing := layer.Collectors(), layer.collection.timing;
    var world := World([true], [map[]]);
    second := layer.ProcessFrame(now, world);
    FirstStopIsSafe(before, layer.Collectors(), world, timing, second);
  }

  lemma FirstStopIsSafe(ss: Statuses64, after: Statuses64, world: World, timing: seq<int>, ok: bool)
    requires ss == [Status(true, false, true, map[])] && Happens(Some(Stop), ok, false, ss, after, world, timing)
    ensures ok && Willing(ss)
  {
    assert !MayThrow(ss[0], timing);
  }

  /** Any further stop throws. */
  method StopAgainThreaded(layer: Layer, now: int) returns (third: bool)
    requires layer.Valid() && layer.config == SHORT && layer.View() == Gate(2, 0, true, true, 0, [Start, Stop])
    requires |layer.collection.collectors| == 1 && layer.collection.collectors[0].threaded
    modifies layer, layer.collection
    modifies layer.collection.collectors`results, layer.collection.collectors`joinable
    ensures !third
  {
    ShortRun();
    ghost var before := layer.Collectors();
    assert before[0].threaded;
    third := layer.ProcessFrame(now, World([true], [map[]]));
  }

  /** A layer with one threaded collector that is to stop after its first frame: it survives the first stop, which is its
      second trigger, and not the second one. */
  method SecondStopThrows(now: int) returns (first: bool, second: bool, third: bool)
    ensures first && second && !third
  {
    var layer := NewThreaded();
    first := StartThreaded(layer, now);
    assert layer.Collectors()[0] == layer.collection.collectors[0].Now();
    second := StopThreaded(layer, now);
    third := StopAgainThreaded(layer, now);
  }
}
