/**
 * The trace that the ferret collector writes, row by row, and what both post-processors keep of it: the sample
 * being put together from the rows since the last time stamp.
 */
module FerretTrace {
  import opened Bytes

  type Pid = nat

  datatype Row =
    | Tick(hz: int)                        // I _SC_CLK_TCK
    | Cpus(nrs: seq<int>)                  // I CPUList
    | Time(us: int)                        // T
    | Freqs(kHz: seq<(int, int)>)          // F: processor and frequency
    | Status(pid: Pid, info: Info)         // S
    | Other                                // the other I rows, # and E

  /** What post-processing reads of a status row; `ustime` is utime + stime. */
  datatype Info = Info(comm: string, ustime: int, processor: int)

  /** The sample under construction; an absent part is one for which no row has come. */
  datatype Sample = Sample(time: Option<real>, pids: Option<map<Pid, Info>>, kHz: Option<map<int, int>>)

  const NOTHING := Sample(None, None, None)

  /** Rows of the header. */
  datatype Properties = Properties(tick: Option<int>, cpus: Option<seq<int>>)

  predicate Distinct(nrs: seq<int>) {
    forall i, j :: 0 <= i < j < |nrs| ==> nrs[i] != nrs[j]
  }

  function Seconds(us: int): real {
    us as real / 1000000.0
  }

  function MHz(kHz: int): real {
    kHz as real / 1000.0
  }

  /** The megacycles of `diff` ticks at a frequency. */
  function Megacycles(diff: int, period: real, mhz: real): real {
    diff as real * period * mhz
  }

  /** Times are given in millionths of a second, frequencies in thousandths of a megahertz. */
  lemma Units(n: int)
    ensures Seconds(n) * 1000000.0 == n as real
    ensures MHz(n) * 1000.0 == n as real
  {
  }

  /** The last frequency given for a processor counts. */
  function FreqMap(kHz: seq<(int, int)>): map<int, int> {
    if kHz == [] then map[]
    else
      var last := |kHz| - 1;
      FreqMap(kHz[..last])[kHz[last].0 := kHz[last].1]
  }

  /** The frequency of processor `k` is that of the last pair for it. */
  lemma {:induction false} LastFrequency(kHz: seq<(int, int)>, i: nat)
    requires i < |kHz| && forall j :: i < j < |kHz| ==> kHz[j].0 != kHz[i].0
    ensures kHz[i].0 in FreqMap(kHz) && FreqMap(kHz)[kHz[i].0] == kHz[i].1
  {
    var last := |kHz| - 1;
    if i < last {
      assert kHz[last].0 != kHz[i].0;
      LastFrequency(kHz[..last], i);
    }
  }

  lemma {:induction false} NoFrequency(kHz: seq<(int, int)>, k: int)
    requires forall i :: 0 <= i < |kHz| ==> kHz[i].0 != k
    ensures k !in FreqMap(kHz)
  {
    if kHz != [] { NoFrequency(kHz[..|kHz| - 1], k); }
  }

  /** Rows that fill in the sample; a second status row of a thread, or a second row of frequencies, replaces the
      first. */
  function Fill(s: Sample, row: Row): Sample {
    match row
    case Status(pid, info) => s.(pids := Some((if s.pids.Some? then s.pids.value else map[])[pid := info]))
    case Freqs(kHz) => s.(kHz := Some(FreqMap(kHz)))
    case _ => s
  }

  /** Rows of the header; a processor listed twice is an error. */
  function Note(p: Properties, row: Row): Option<Properties> {
    match row
    case Tick(hz) => Some(p.(tick := Some(hz)))
    case Cpus(nrs) => if Distinct(nrs) then Some(p.(cpus := Some(nrs))) else None
    case _ => Some(p)
  }

  // ---- Sums over processors ----

  function Sum(m: map<int, int>, cpus: seq<int>): int {
    if cpus == [] then 0 else (if cpus[0] in m then m[cpus[0]] else 0) + Sum(m, cpus[1..])
  }

  lemma {:induction false} SumElsewhere(m: map<int, int>, cpus: seq<int>, k: int, v: int)
    requires k !in cpus
    ensures Sum(m[k := v], cpus) == Sum(m, cpus)
    decreases |cpus|
  {
    if cpus != [] {
      SumElsewhere(m, cpus[1..], k, v);
    }
  }

  lemma {:induction false} SumUpdate(m: map<int, int>, cpus: seq<int>, k: int, v: int)
    requires k in cpus && k in m && Distinct(cpus)
    ensures Sum(m[k := v], cpus) == Sum(m, cpus) - m[k] + v
    decreases |cpus|
  {
    assert forall i :: 1 <= i < |cpus| ==> cpus[0] != cpus[i];
    if cpus[0] == k {
      assert k !in cpus[1..];
      SumElsewhere(m, cpus[1..], k, v);
    } else {
      SumUpdate(m, cpus[1..], k, v);
    }
  }

  lemma {:induction false} SumOfZeros(m: map<int, int>, cpus: seq<int>)
    requires forall k <- m :: m[k] == 0
    ensures Sum(m, cpus) == 0
    decreases |cpus|
  {
    if cpus != [] {
      SumOfZeros(m, cpus[1..]);
    }
  }
}
