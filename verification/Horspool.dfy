/**
 * The keyword search over a memory area: a table of shifts indexed by the last character of the window.
 */
module Horspool {

  import opened Bytes

  ghost predicate OccursAt(x: seq<byte>, y: seq<byte>, j: int) {
    0 <= j <= |y| - |x| && y[j..j + |x|] == x
  }

  ghost predicate Occurs(x: seq<byte>, y: seq<byte>) {
    exists j :: OccursAt(x, y, j)
  }

  /** `d` may follow a window that ends in `c`: it moves on, by no more than the keyword's length, and it passes
      no place that would align a `c` of the keyword. */
  ghost predicate SafeShift(x: seq<byte>, c: byte, d: int) {
    1 <= d <= |x| && forall i :: |x| - d <= i < |x| - 1 ==> x[i] != c
  }

  /** The table after its second loop has seen the first `n` characters. */
  ghost predicate TableFor(x: seq<byte>, table: seq<int>, n: int) {
    |table| == 256
    && (forall c: byte :: 1 <= table[c] <= |x|)
    && (forall i, c: byte :: |x| - table[c] <= i < |x| - 1 && 0 <= i < n ==> x[i] != c)
    && (forall c: byte :: table[c] < |x| ==> |x| - 1 - table[c] < n && x[|x| - 1 - table[c]] == c)
  }

  /** The shifts: safe, and the largest safe ones. */
  method ShiftTable(x: seq<byte>) returns (table: array<int>)
    requires |x| >= 1
    ensures fresh(table) && table.Length == 256
    ensures forall c: byte :: SafeShift(x, c, table[c])
    ensures forall c: byte, d :: SafeShift(x, c, d) ==> d <= table[c]
  {
    table := new int[256];
    var m, i := |x|, 0;
    while i < 256
      invariant 0 <= i <= 256
      invariant forall k :: 0 <= k < i ==> table[k] == m
    {
      table[i] := m;
      i := i + 1;
    }
    assert TableFor(x, table[..], 0);
    i := 0;
    while i < m - 1
      invariant 0 <= i <= m - 1
      invariant TableFor(x, table[..], i)
    {
      ghost var t := table[..];
      table[x[i]] := m - i - 1;
      assert table[..] == t[x[i] := m - i - 1];
      i := i + 1;
    }
    forall c: byte, d | SafeShift(x, c, d) ensures d <= table[c] {
      var t := table[..][c];
      assert t < m ==> x[m - 1 - t] == c;
    }
  }

  /** Between the window at `j` and the one a safe shift further there is no other occurrence. */
  lemma NothingSkipped(x: seq<byte>, y: seq<byte>, j: int, d: int, k: int)
    requires |x| >= 1 && 0 <= j <= |y| - |x| && SafeShift(x, y[j + |x| - 1], d)
    requires j < k < j + d
    ensures !OccursAt(x, y, k)
  {
    var i := j + |x| - 1 - k;
    assert k + |x| <= |y| ==> y[k..k + |x|][i] == y[k + i];
  }

  ghost predicate NoneBefore(x: seq<byte>, y: seq<byte>, j: int) {
    forall k :: k < j ==> !OccursAt(x, y, k)
  }

  /** The comparison of a window: its last character first, then the rest. */
  method Window(x: seq<byte>, y: seq<byte>, j: nat) returns (same: bool)
    requires 1 <= |x| && j + |x| <= |y|
    ensures same <==> OccursAt(x, y, j)
  {
    var m := |x|;
    same := x[m - 1] == y[j + m - 1] && x[..m - 1] == y[j..j + m - 1];
    assert x == x[..m - 1] + [x[m - 1]];
    assert y[j..j + m] == y[j..j + m - 1] + [y[j + m - 1]];
  }

  method Search(y: seq<byte>, x: seq<byte>) returns (found: bool)
    requires |x| >= 1
    ensures found <==> Occurs(x, y)
  {
    var table := ShiftTable(x);
    var m, n, j := |x|, |y|, 0;
    while j <= n - m
      invariant j >= 0
      invariant NoneBefore(x, y, j)
      invariant forall c: byte :: SafeShift(x, c, table[c])
      decreases n - j
    {
      var c := y[j + m - 1];
      var same := Window(x, y, j);
      if same { return true; }
      ghost var d := table[c];
      forall k | k < j + d ensures !OccursAt(x, y, k) {
        if k > j { NothingSkipped(x, y, j, d, k); }
      }
      j := j + table[c];
    }
    return false;
  }
}
