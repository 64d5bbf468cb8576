/**
 * The 64 KiB ring of an annotating thread and the `gator_buf_write_*` primitives that store into it.
 *
 * `Stored` says what a buffer holds after a byte string was laid into it from some position on, wrapping
 * at the end; every primitive is proved to do exactly that with the encoding of its argument.
 */
module Ring {
  import opened Bytes
  import opened Leb128

  const SIZE := 65536

  type Index = i: int | 0 <= i < SIZE

  /** `gator_buf_pos`. */
  function Pos(p: int): Index {
    p % SIZE
  }

  /** How far `i` lies after `pos`, going round the ring. */
  function Dist(i: Index, pos: Index): Index {
    if i >= pos then i - pos else i - pos + SIZE
  }

  /** The buffer after `data` was stored from `pos` on, byte by byte. */
  function Stored(buf: seq<byte>, pos: Index, data: seq<byte>): (r: seq<byte>)
    requires |buf| == SIZE
    ensures |r| == SIZE
  {
    if data == [] then buf
    else
      var last := |data| - 1;
      Stored(buf, pos, data[..last])[Pos(pos + last) := data[last]]
  }

  /** What a store of at most a whole turn leaves at each index. */
  lemma {:induction false} StoredAt(buf: seq<byte>, pos: Index, data: seq<byte>, i: Index)
    requires |buf| == SIZE && |data| <= SIZE
    ensures Stored(buf, pos, data)[i] == if Dist(i, pos) < |data| then data[Dist(i, pos)] else buf[i]
    decreases |data|
  {
    if data != [] {
      StoredAt(buf, pos, data[..|data| - 1], i);
      PosNear(pos + |data| - 1);
    }
  }

  /** The `count` bytes that start at `pos`. */
  function Slice(buf: seq<byte>, pos: Index, count: nat): (r: seq<byte>)
    requires |buf| == SIZE
    ensures |r| == count
  {
    seq<byte>(count, k requires 0 <= k < count => buf[Pos(pos + k)])
  }

  lemma SliceAppend(buf: seq<byte>, pos: Index, a: nat, b: nat)
    requires |buf| == SIZE
    ensures Slice(buf, pos, a) + Slice(buf, Pos(pos + a), b) == Slice(buf, pos, a + b)
  {
    var r := Slice(buf, pos, a) + Slice(buf, Pos(pos + a), b);
    forall k | 0 <= k < a + b ensures r[k] == Slice(buf, pos, a + b)[k] {
      PosPlus(pos + a, k - a);
    }
  }

  /** Within two turns the wrapped position is found by one subtraction. */
  lemma PosNear(p: nat)
    requires p < 2 * SIZE
    ensures Pos(p) == if p < SIZE then p else p - SIZE
  {
  }

  lemma PosPlus(p: int, k: int)
    ensures Pos(Pos(p) + k) == Pos(p + k)
  {
  }

  lemma DistShift(i: Index, pos: Index, k: nat)
    requires k <= SIZE
    ensures Dist(i, Pos(pos + k)) == if Dist(i, pos) >= k then Dist(i, pos) - k else Dist(i, pos) - k + SIZE
  {
  }

  lemma SliceOfStored(buf: seq<byte>, pos: Index, data: seq<byte>)
    requires |buf| == SIZE && |data| <= SIZE
    ensures Slice(Stored(buf, pos, data), pos, |data|) == data
  {
    forall k | 0 <= k < |data| ensures Slice(Stored(buf, pos, data), pos, |data|)[k] == data[k] {
      StoredAt(buf, pos, data, Pos(pos + k));
      PosNear(pos + k);
    }
  }

  lemma {:induction false} StoredAppend(buf: seq<byte>, pos: Index, a: seq<byte>, b: seq<byte>)
    requires |buf| == SIZE
    ensures Stored(Stored(buf, pos, a), Pos(pos + |a|), b) == Stored(buf, pos, a + b)
    decreases |b|
  {
    if b == [] {
      assert a + b == a;
    } else {
      var last := |b| - 1;
      StoredAppend(buf, pos, a, b[..last]);
      assert (a + b)[..|a| + last] == a + b[..last];
      PosPlus(pos + |a|, last);
    }
  }

  /** A gap of |b| bytes left between `a` and `c` can be filled in last. */
  lemma BackPatch(buf: seq<byte>, pos: Index, a: seq<byte>, b: seq<byte>, c: seq<byte>)
    requires |buf| == SIZE && |a| + |b| + |c| <= SIZE
    ensures Stored(Stored(Stored(buf, pos, a), Pos(pos + |a| + |b|), c), Pos(pos + |a|), b)
         == Stored(buf, pos, a + b + c)
  {
    forall i: Index
      ensures Stored(Stored(Stored(buf, pos, a), Pos(pos + |a| + |b|), c), Pos(pos + |a|), b)[i]
           == Stored(buf, pos, a + b + c)[i]
    {
      BackPatchAt(buf, pos, a, b, c, i);
    }
  }

  lemma BackPatchAt(buf: seq<byte>, pos: Index, a: seq<byte>, b: seq<byte>, c: seq<byte>, i: Index)
    requires |buf| == SIZE && |a| + |b| + |c| <= SIZE
    ensures Stored(Stored(Stored(buf, pos, a), Pos(pos + |a| + |b|), c), Pos(pos + |a|), b)[i]
         == Stored(buf, pos, a + b + c)[i]
  {
    var two, d := Stored(Stored(buf, pos, a), Pos(pos + |a| + |b|), c), Dist(i, pos);
    TwoStores(buf, pos, a, |b|, c, i);
    DistShift(i, pos, |a|);
    StoredAt(two, Pos(pos + |a|), b, i);
    StoredAt(buf, pos, a + b + c, i);
    if d < |a| + |b| + |c| { ConcatAt(a, b, c, d); }
  }

  lemma ConcatAt(a: seq<byte>, b: seq<byte>, c: seq<byte>, d: nat)
    requires d < |a| + |b| + |c|
    ensures (a + b + c)[d] == if d < |a| then a[d] else if d < |a| + |b| then b[d - |a|] else c[d - |a| - |b|]
  {
  }

  /** Two stores with a gap between them. */
  lemma TwoStores(buf: seq<byte>, pos: Index, a: seq<byte>, gap: nat, c: seq<byte>, i: Index)
    requires |buf| == SIZE && |a| + gap + |c| <= SIZE
    ensures var d := Dist(i, pos);
      Stored(Stored(buf, pos, a), Pos(pos + |a| + gap), c)[i]
        == if d < |a| then a[d] else if |a| + gap <= d < |a| + gap + |c| then c[d - |a| - gap] else buf[i]
  {
    DistShift(i, pos, |a| + gap);
    StoredAt(Stored(buf, pos, a), Pos(pos + |a| + gap), c, i);
    StoredAt(buf, pos, a, i);
  }

  /** Little-endian bytes of a word, as `gator_buf_write_uint32` lays them out. */
  function Word(w: uint32): (s: seq<byte>)
    ensures |s| == 4
  {
    [w % 256, w / 0x100 % 256, w / 0x1_0000 % 256, w / 0x100_0000]
  }

  function FromWord(s: seq<byte>): (w: uint32)
    requires |s| == 4
  {
    s[0] as int + 0x100 * (s[1] as int) + 0x1_0000 * (s[2] as int) + 0x100_0000 * (s[3] as int)
  }

  /** A colour is sent as its bytes 1, 2, 3, 0. */
  function Color(c: uint32): (s: seq<byte>)
    ensures |s| == 4
  {
    [c / 0x100 % 256, c / 0x1_0000 % 256, c / 0x100_0000, c % 256]
  }

  function FromColor(s: seq<byte>): (c: uint32)
    requires |s| == 4
  {
    s[3] as int + 0x100 * (s[0] as int) + 0x1_0000 * (s[1] as int) + 0x100_0000 * (s[2] as int)
  }

  /** The bytes of a word, lowest first, and of a colour, its lowest last. */
  lemma ByteOrder(w: uint32)
    ensures Word(w)[0] == w % 0x100 && Word(w)[1] == w / 0x100 % 0x100
    ensures Word(w)[2] == w / 0x1_0000 % 0x100 && Word(w)[3] == w / 0x100_0000 % 0x100
    ensures Color(w)[0] == w / 0x100 % 0x100 && Color(w)[1] == w / 0x1_0000 % 0x100
    ensures Color(w)[2] == w / 0x100_0000 % 0x100 && Color(w)[3] == w % 0x100
  {
  }

  lemma WordRoundTrip(w: uint32)
    ensures FromWord(Word(w)) == w
  {
    assert w == w % 256 + 0x100 * (w / 0x100);
    assert w / 0x100 == w / 0x100 % 256 + 0x100 * (w / 0x1_0000);
    assert w / 0x1_0000 == w / 0x1_0000 % 256 + 0x100 * (w / 0x100_0000);
  }

  lemma ColorRoundTrip(c: uint32)
    ensures FromColor(Color(c)) == c
  {
    WordRoundTrip(c);
  }

  method WriteByte(buf: array<byte>, pos: Index, b: byte) returns (next: Index, count: nat)
    requires buf.Length == SIZE
    modifies buf
    ensures buf[..] == Stored(old(buf[..]), pos, [b])
    ensures next == Pos(pos + 1) && count == 1
  {
    buf[pos] := b;
    next, count := Pos(pos + 1), 1;
  }

  /** One store of a run: the byte at offset |written| from `pos`. */
  method StoreNext(buf: array<byte>, pos: Index, b: byte, offset: nat, ghost before: seq<byte>, ghost written: seq<byte>)
    requires buf.Length == SIZE && |before| == SIZE && |written| == offset
    requires buf[..] == Stored(before, pos, written)
    modifies buf
    ensures buf[..] == Stored(before, pos, written + [b])
  {
    assert (written + [b])[..offset] == written;
    buf[Pos(pos + offset)] := b;
  }

  /** `gator_buf_write_uint32` and `gator_buf_write_color`: four stores, each wrapped on its own. */
  method WriteFour(buf: array<byte>, pos: Index, s: seq<byte>) returns (next: Index, count: nat)
    requires buf.Length == SIZE && |s| == 4
    modifies buf
    ensures buf[..] == Stored(old(buf[..]), pos, s)
    ensures next == Pos(pos + 4) && count == 4
  {
    ghost var before := buf[..];
    assert s[..1] == [] + [s[0]] && s[..2] == s[..1] + [s[1]] && s[..3] == s[..2] + [s[2]] && s == s[..3] + [s[3]];
    StoreNext(buf, pos, s[0], 0, before, []);
    StoreNext(buf, pos, s[1], 1, before, s[..1]);
    StoreNext(buf, pos, s[2], 2, before, s[..2]);
    StoreNext(buf, pos, s[3], 3, before, s[..3]);
    next, count := Pos(pos + 4), 4;
  }

  /** `gator_buf_write_int` and `gator_buf_write_long`, which differ in the width of `x` only. */
  method WritePacked(buf: array<byte>, pos: Index, x: int) returns (next: Index, count: nat)
    requires buf.Length == SIZE
    modifies buf
    ensures buf[..] == Stored(old(buf[..]), pos, Pack(x))
    ensures next == Pos(pos + |Pack(x)|) && count == |Pack(x)|
  {
    ghost var before, packed := buf[..], Pack(x);
    var rest, more := x, true;
    count := 0;
    assert Stored(before, pos, packed[..0]) == before;
    while more
      invariant count <= |packed|
      invariant if more then packed[count..] == Pack(rest) else count == |packed|
      invariant buf[..] == Stored(before, pos, packed[..count])
      decreases more, if rest < 0 then -rest else rest
    {
      PackStep(rest);
      ghost var left := packed[count..];
      assert left[0] == packed[count] && left[1..] == packed[count + 1..];
      var b: int := rest % 128;
      rest := rest / 128;
      if Done(rest, b) {
        more := false;
      } else {
        b := b + 128;
      }
      assert packed[..count + 1] == packed[..count] + [b];
      StoreNext(buf, pos, b, count, before, packed[..count]);
      count := count + 1;
    }
    assert packed[..count] == packed;
    next := Pos(pos + count);
  }

  /** `gator_buf_write_bytes`: one copy, or two when the data runs over the end of the buffer. */
  method WriteBytes(buf: array<byte>, pos: Index, data: seq<byte>) returns (next: Index, count: nat)
    requires buf.Length == SIZE && |data| <= SIZE
    modifies buf
    ensures buf[..] == Stored(old(buf[..]), pos, data)
    ensures next == Pos(pos + |data|) && count == |data|
  {
    ghost var before := buf[..];
    if pos + |data| <= SIZE {
      forall k | 0 <= k < |data| { buf[pos + k] := data[k]; }
    } else {
      var first := SIZE - pos;
      forall k | 0 <= k < first { buf[pos + k] := data[k]; }
      forall k | 0 <= k < |data| - first { buf[k] := data[first + k]; }
    }
    forall i: Index ensures buf[i] == Stored(before, pos, data)[i] {
      StoredAt(before, pos, data, i);
    }
    next, count := Pos(pos + |data|), |data|;
  }
}
