/**
 * Signed LEB128, the packing of `gator_buf_write_int` and `gator_buf_write_long`
 * (section 7.6 of the DWARF Version 4 standard).
 *
 * The source masks with 0x7f and shifts right arithmetically; on mathematical integers these are the
 * Euclidean remainder and quotient by 128, for negative numbers too.
 */
module Leb128 {
  import opened Bytes

  /** The test that ends the packing loop: `x` is what is left after the group `b` was taken off. */
  predicate Done(x: int, b: int) {
    (x == 0 && b < 64) || (x == -1 && b >= 64)
  }

  function Pack(x: int): (s: seq<byte>)
    ensures |s| >= 1
    decreases if x < 0 then -x else x
  {
    var b := x % 128;
    if Done(x / 128, b) then [b] else [b + 128] + Pack(x / 128)
  }

  /** One turn of the packing loop. */
  lemma PackStep(x: int)
    ensures Done(x / 128, x % 128) ==> Pack(x) == [x % 128]
    ensures !Done(x / 128, x % 128) ==> Pack(x) == [x % 128 + 128] + Pack(x / 128)
  {
  }

  /** The standard's decoder: the value of the first encoded number of `s`, and the bytes after it. */
  function Unpack(s: seq<byte>): (r: Option<(int, seq<byte>)>)
    ensures r.Some? ==> |r.value.1| < |s|
  {
    if s == [] then None
    else if s[0] < 64 then Some((s[0], s[1..]))
    else if s[0] < 128 then Some((s[0] as int - 128, s[1..]))
    else match Unpack(s[1..])
      case None => None
      case Some((high, rest)) => Some((s[0] - 128 + 128 * high, rest))
  }

  lemma {:induction false} RoundTrip(x: int, rest: seq<byte>)
    ensures Unpack(Pack(x) + rest) == Some((x, rest))
    decreases if x < 0 then -x else x
  {
    var b := x % 128;
    if Done(x / 128, b) {
      assert (Pack(x) + rest)[1..] == rest;
    } else {
      RoundTrip(x / 128, rest);
      assert (Pack(x) + rest)[1..] == Pack(x / 128) + rest;
    }
  }

  /** No packed number is a prefix of another. */
  lemma PrefixFree(x: int, y: int)
    requires Pack(x) <= Pack(y)
    ensures x == y
  {
    RoundTrip(x, Pack(y)[|Pack(x)|..]);
    RoundTrip(y, []);
    assert Pack(y) + [] == Pack(y) == Pack(x) + Pack(y)[|Pack(x)|..];
  }

  /** Half the size of the range that `n` groups of seven bits cover. */
  function Reach(n: nat): (r: int)
    requires n >= 1
    ensures r >= 64
  {
    if n == 1 then 64 else 128 * Reach(n - 1)
  }

  /** `n` bytes suffice exactly for the numbers of 7n bits. */
  lemma {:induction false} Size(x: int, n: nat)
    requires n >= 1
    ensures |Pack(x)| <= n <==> -Reach(n) <= x < Reach(n)
    decreases n
  {
    if n > 1 {
      Size(x / 128, n - 1);
      assert -Reach(n) <= x < Reach(n) <==> -Reach(n - 1) <= x / 128 < Reach(n - 1);
    }
  }

  lemma WordSizes(w: uint32, l: uint64)
    ensures 1 <= |Pack(AsInt32(w))| <= 5
    ensures 1 <= |Pack(AsInt64(l))| <= 10
  {
    assert Reach(2) == 128 * 64 && Reach(3) == 128 * 128 * 64 && Reach(4) == 128 * 128 * 128 * 64;
    assert Reach(5) == 128 * Reach(4) && Reach(6) == 128 * Reach(5) && Reach(7) == 128 * Reach(6);
    assert Reach(8) == 128 * Reach(7) && Reach(9) == 128 * Reach(8) && Reach(10) == 128 * Reach(9);
    Size(AsInt32(w), 5);
    Size(AsInt64(l), 10);
  }

  /** Both bounds are met: the smallest 32-bit and 64-bit numbers take five and ten bytes. */
  lemma BoundsAreTight()
    ensures |Pack(-0x8000_0000)| == 5
    ensures |Pack(-0x8000_0000_0000_0000)| == 10
  {
    assert Reach(2) == 128 * 64 && Reach(3) == 128 * 128 * 64 && Reach(4) == 128 * 128 * 128 * 64;
    assert Reach(5) == 128 * Reach(4) && Reach(6) == 128 * Reach(5) && Reach(7) == 128 * Reach(6);
    assert Reach(8) == 128 * Reach(7) && Reach(9) == 128 * Reach(8) && Reach(10) == 128 * Reach(9);
    Size(-0x8000_0000, 4);
    Size(-0x8000_0000, 5);
    Size(-0x8000_0000_0000_0000, 9);
    Size(-0x8000_0000_0000_0000, 10);
  }

  /** Among all byte strings that decode to `x`, the packed one is the only shortest one. */
  lemma {:induction false} Shortest(x: int, s: seq<byte>)
    requires Unpack(s) == Some((x, []))
    ensures |Pack(x)| <= |s|
    ensures |Pack(x)| == |s| ==> s == Pack(x)
    decreases |s|
  {
    if s[0] >= 128 {
      var high := Unpack(s[1..]).value.0;
      assert x % 128 == s[0] - 128 && x / 128 == high;
      Shortest(high, s[1..]);
      assert s == [s[0]] + s[1..];
    } else {
      assert s == [s[0]];
    }
  }
}
