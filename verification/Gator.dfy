/** The record of an annotating thread, with the ring, the message writer and the sender's drain. */
module Gator {
  import opened Bytes
  import opened Leb128
  import opened Ring
  import opened Framing
  import M = Messages

  /** `gator_buf_used` and `gator_buf_free`. */
  function Used(readPos: Index, writePos: Index): Index {
    (writePos - readPos) % SIZE
  }

  function Free(readPos: Index, writePos: Index): Index {
    (readPos - writePos - 1) % SIZE
  }

  /** One byte of the ring always stays unused, which keeps a full ring apart from an empty one. */
  lemma UsedPlusFree(readPos: Index, writePos: Index)
    ensures Used(readPos, writePos) + Free(readPos, writePos) == SIZE - 1
    ensures Used(readPos, writePos) == 0 <==> readPos == writePos
  {
  }

  /** A store of at most the free bytes, at the place of the next one, leaves the unsent bytes alone. */
  lemma UnsentKept(buf: seq<byte>, readPos: Index, writePos: Index, data: seq<byte>)
    requires |buf| == SIZE && |data| <= Free(readPos, writePos)
    ensures var used := Used(readPos, writePos);
      Slice(Stored(buf, writePos, data), readPos, used) == Slice(buf, readPos, used)
  {
    UnsentKeptUpTo(buf, readPos, writePos, data, Used(readPos, writePos));
  }

  lemma {:induction false} UnsentKeptUpTo(buf: seq<byte>, readPos: Index, writePos: Index, data: seq<byte>, n: nat)
    requires |buf| == SIZE && |data| <= Free(readPos, writePos) && n <= Used(readPos, writePos)
    ensures Slice(Stored(buf, writePos, data), readPos, n) == Slice(buf, readPos, n)
    decreases n
  {
    if n > 0 {
      UnsentKeptUpTo(buf, readPos, writePos, data, n - 1);
      UnsentAt(buf, readPos, writePos, data, n - 1);
      SliceSnoc(buf, readPos, n - 1);
      SliceSnoc(Stored(buf, writePos, data), readPos, n - 1);
    }
  }

  lemma SliceSnoc(buf: seq<byte>, pos: Index, n: nat)
    requires |buf| == SIZE
    ensures Slice(buf, pos, n + 1) == Slice(buf, pos, n) + [buf[Pos(pos + n)]]
  {
  }

  lemma UnsentAt(buf: seq<byte>, readPos: Index, writePos: Index, data: seq<byte>, k: nat)
    requires |buf| == SIZE && |data| <= Free(readPos, writePos) && k < Used(readPos, writePos)
    ensures Stored(buf, writePos, data)[Pos(readPos + k)] == buf[Pos(readPos + k)]
  {
    Beyond(readPos, writePos, k);
    StoredAt(buf, writePos, data, Pos(readPos + k));
  }

  /** Going on from `writePos`, an unsent byte comes after all free ones. */
  lemma Beyond(readPos: Index, writePos: Index, k: nat)
    requires k < Used(readPos, writePos)
    ensures Dist(Pos(readPos + k), writePos) > Free(readPos, writePos)
  {
    PosNear(readPos + k);
  }

  /** Such a store adds its data to the unsent bytes. */
  lemma UnsentGrows(buf: seq<byte>, readPos: Index, writePos: Index, data: seq<byte>)
    requires |buf| == SIZE && |data| <= Free(readPos, writePos)
    ensures var used := Used(readPos, writePos);
      && Used(readPos, Pos(writePos + |data|)) == used + |data|
      && Slice(Stored(buf, writePos, data), readPos, used + |data|) == Slice(buf, readPos, used) + data
  {
    var used := Used(readPos, writePos);
    UsedPlusFree(readPos, writePos);
    UsedGrows(readPos, writePos, |data|);
    UnsentKept(buf, readPos, writePos, data);
    SliceAppend(Stored(buf, writePos, data), readPos, used, |data|);
    SliceOfStored(buf, writePos, data);
  }

  lemma UsedGrows(readPos: Index, writePos: Index, n: nat)
    requires n <= Free(readPos, writePos)
    ensures Used(readPos, Pos(writePos + n)) == Used(readPos, writePos) + n
    ensures Pos(readPos + Used(readPos, writePos)) == writePos
  {
    UsedPlusFree(readPos, writePos);
    PosNear(writePos + n);
    PosNear(readPos + Used(readPos, writePos));
  }

  /** A message that is not too large for its writer is far from filling the ring. */
  lemma RawFits(m: M.Message)
    requires M.Valid(m) && M.Reserve(m) <= SIZE / 2
    ensures |Raw(M.ToFrame(m))| == 5 + |M.Body(M.Fields(m))| <= SIZE
  {
    M.EmitBound(m);
  }

  /** What one `send` of `want` bytes may return. */
  predicate Sendable(result: int, want: nat) {
    result <= want
  }

  /** The bytes up to the snapshot that lie before the end of the buffer: what the first send asks for. */
  function FirstWant(readPos: Index, snapshot: Index): nat {
    if snapshot > readPos then snapshot - readPos else SIZE - readPos
  }

  /** The bytes taken by the two calls of `send`; the second is made when the first took all up to the end. */
  function Taken(readPos: Index, snapshot: Index, first: int, second: int): nat {
    if first <= 0 then 0
    else first + if snapshot <= readPos && first == SIZE - readPos && second > 0 then second else 0
  }

  method WriteField(buf: array<byte>, pos: Index, f: M.Field) returns (next: Index, count: nat)
    requires buf.Length == SIZE && |f.Bytes()| <= SIZE
    modifies buf
    ensures buf[..] == Stored(old(buf[..]), pos, f.Bytes())
    ensures next == Pos(pos + |f.Bytes()|) && count == |f.Bytes()|
  {
    match f
    case Int(w) =>
      WordSizes(w, 0);
      next, count := WritePacked(buf, pos, AsInt32(w));
    case Long(l) =>
      WordSizes(0, l);
      next, count := WritePacked(buf, pos, AsInt64(l));
    case Rgb(c) => next, count := WriteFour(buf, pos, Color(c));
    case Tail(s) => next, count := WriteBytes(buf, pos, s);
    case Line(s) => next, count := WriteLine(buf, pos, s);
  }

  method WriteLine(buf: array<byte>, pos: Index, s: seq<byte>) returns (next: Index, count: nat)
    requires buf.Length == SIZE && |s| < SIZE
    modifies buf
    ensures buf[..] == Stored(old(buf[..]), pos, s + [0])
    ensures next == Pos(pos + |s| + 1) && count == |s| + 1
  {
    StoredAppend(buf[..], pos, s, [0]);
    next, count := WriteBytes(buf, pos, s);
    PosPlus(pos + |s|, 1);
    var end, one := WriteByte(buf, next, 0);
    next, count := end, count + one;
  }

  /** The next field of a body. */
  method WriteNext(buf: array<byte>, pos: Index, f: M.Field, length: nat, ghost before: seq<byte>, ghost written: seq<byte>)
    returns (longer: nat)
    requires buf.Length == SIZE && |before| == SIZE && length == |written| && |f.Bytes()| <= SIZE
    requires buf[..] == Stored(before, pos, written)
    modifies buf
    ensures longer == length + |f.Bytes()|
    ensures buf[..] == Stored(before, pos, written + f.Bytes())
  {
    StoredAppend(before, pos, written, f.Bytes());
    var _, count := WriteField(buf, Pos(pos + length), f);
    longer := length + count;
  }

  /** A buffer and its write position after a frame was stored there: the frame lies in it whole, and the position is
      past it. */
  ghost predicate Added(before: (seq<byte>, Index), after: (seq<byte>, Index), f: Frame) {
    && |before.0| == SIZE && 5 + |f.body| <= SIZE
    && after.0 == Stored(before.0, before.1, Raw(f))
    && after.1 == Pos(before.1 + |Raw(f)|)
  }

  ghost predicate Fits(f: Frame, room: nat) {
    Sized(f) && |Raw(f)| <= room
  }

  class Thread {
    const buf: array<byte>
    var writePos: Index
    var readPos: Index

    ghost predicate Valid() {
      buf.Length == SIZE
    }

    constructor ()
      ensures Valid() && fresh(buf) && writePos == readPos == 0
    {
      buf := new byte[SIZE](_ => 0);
      writePos, readPos := 0, 0;
    }

    /** Stores the marker and steps over the length. */
    method MsgBegin(marker: byte) returns (next: Index, sizePos: Index)
      requires Valid()
      modifies buf
      ensures buf[..] == Stored(old(buf[..]), writePos, [marker])
      ensures sizePos == Pos(writePos + 1) && next == Pos(writePos + 5)
    {
      var one;
      sizePos, one := WriteByte(buf, writePos, marker);
      PosPlus(writePos + 1, 4);
      next := Pos(sizePos + 4);
    }

    /** Stores the length where MsgBegin left room for it, then publishes the message. */
    method MsgEnd(next: Index, sizePos: Index, length: nat)
      requires Valid() && length < 0x1_0000_0000
      modifies this`writePos, buf
      ensures buf[..] == Stored(old(buf[..]), sizePos, Word(length))
      ensures writePos == next
    {
      var _, _ := WriteFour(buf, sizePos, Word(length));
      writePos := next;
    }

    /** The fields of a body, one after the other. */
    method WriteFields(pos: Index, fs: seq<M.Field>) returns (next: Index, length: nat)
      requires Valid() && |M.Body(fs)| <= SIZE
      modifies buf
      ensures buf[..] == Stored(old(buf[..]), pos, M.Body(fs))
      ensures next == Pos(pos + |M.Body(fs)|) && length == |M.Body(fs)|
    {
      ghost var before := buf[..];
      length := 0;
      assert Stored(before, pos, M.Body(fs[..0])) == before;
      for i := 0 to |fs|
        invariant length == |M.Body(fs[..i])| <= SIZE
        invariant buf[..] == Stored(before, pos, M.Body(fs[..i]))
      {
        M.BodyStep(fs, i);
        length := WriteNext(buf, pos, fs[i], length, before, M.Body(fs[..i]));
      }
      assert fs[..|fs|] == fs;
      next := Pos(pos + length);
    }

    /** A message up to its length. */
    method WriteBody(header: byte, fs: seq<M.Field>, ghost f: Frame) returns (next: Index, sizePos: Index, length: nat)
      requires Valid() && f == Frame(header, M.Body(fs)) && 5 + |f.body| <= SIZE
      modifies buf
      ensures buf[..] == Stored(Stored(old(buf[..]), writePos, [f.header]), Pos(writePos + 5), f.body)
      ensures sizePos == Pos(writePos + 1) && next == Pos(writePos + 5 + |f.body|)
      ensures length == |f.body|
    {
      next, sizePos := MsgBegin(header);
      next, length := WriteFields(next, fs);
      PosPlus(writePos + 5, length);
    }

    /** From begin to end of a message: the frame appears in the ring as a whole. */
    method WriteFrame(header: byte, fs: seq<M.Field>, ghost f: Frame)
      requires Valid() && f == Frame(header, M.Body(fs)) && 5 + |f.body| <= SIZE
      modifies this`writePos, buf
      ensures Added(old(Ring()), Ring(), f)
    {
      ghost var before := buf[..];
      ghost var pos: int := writePos;
      ghost var middle := Stored(Stored(before, pos, [f.header]), Pos(pos + 5), f.body);
      StoredFrame(before, pos, f);
      var next, sizePos, length := WriteBody(header, fs, f);
      assert buf[..] == middle && sizePos == Pos(pos + 1) && length == |f.body|;
      MsgEnd(next, sizePos, length);
      assert buf[..] == Stored(middle, Pos(pos + 1), Word(|f.body|)) == Stored(before, pos, Raw(f));
    }

    ghost function Ring(): (seq<byte>, Index)
      reads this, buf
    {
      (buf[..], writePos)
    }

    /** The same, seen from the reader's end of the ring. */
    method AddFrame(header: byte, fs: seq<M.Field>, ghost f: Frame)
      requires Valid() && f == Frame(header, M.Body(fs)) && 5 + |f.body| <= SIZE
      modifies this`writePos, buf
      ensures Added(old(Ring()), Ring(), f)
      ensures Fits(f, old(Free(readPos, writePos))) ==> Unsent() == old(Unsent()) + Raw(f)
    {
      if Fits(f, Free(readPos, writePos)) {
        UnsentGrows(buf[..], readPos, writePos, Raw(f));
      }
      WriteFrame(header, fs, f);
    }

    /** The bytes that are in the ring and not yet sent. */
    ghost function Unsent(): seq<byte>
      requires Valid()
      reads this, buf
    {
      Slice(buf[..], readPos, Used(readPos, writePos))
    }

    /** A `gator_annotate_*` call once the wait for room is over. A message whose reservation exceeds half the
        ring is dropped; any other ends up in the ring as one whole frame, and only then becomes visible. If it keeps
        within its reservation, the unsent bytes are those of before and then the frame. */
    method Annotate(m: M.Message) returns (written: bool)
      requires Valid() && M.Valid(m)
      requires M.Reserve(m) <= SIZE / 2 ==> Free(readPos, writePos) >= M.Reserve(m)
      modifies this`writePos, buf
      ensures written == (M.Reserve(m) <= SIZE / 2)
      ensures written <==> 5 + 5 * M.HowMany(M.Fields(m), M.KInt) + 10 * M.HowMany(M.Fields(m), M.KLong)
                           + 4 * M.HowMany(M.Fields(m), M.KColor) + M.TextLength(M.Fields(m))
                           - (if m.Counter? then |m.activities| else 0) <= 32768
      ensures !written ==> unchanged(this) && unchanged(buf)
      ensures written ==>
        Added(old(Ring()), Ring(), M.ToFrame(m)) && (Fits(M.ToFrame(m), M.Reserve(m)) ==>
          Unsent() == old(Unsent()) + Raw(M.ToFrame(m)))
    {
      M.ReserveExact(m);
      if M.Reserve(m) > SIZE / 2 {
        return false;
      }
      RawFits(m);
      AddFrame(M.Header(m), M.Fields(m), M.ToFrame(m));
      written := true;
    }

    /** A `send` of bytes in front of the end of the buffer that took `count` of them. */
    method Deliver(count: nat) returns (sent: seq<byte>)
      requires Valid() && readPos + count <= SIZE
      modifies this`readPos
      ensures sent == Slice(buf[..], old(readPos), count)
      ensures readPos == Pos(old(readPos) + count)
    {
      sent := buf[readPos..readPos + count];
      forall k | 0 <= k < count ensures sent[k] == Slice(buf[..], readPos, count)[k] {
        PosNear(readPos + k);
      }
      readPos := Pos(readPos + count);
    }

    /** `gator_send`, where `first` and `second` are the results of its two calls of `send`. The bytes handed to
        the socket are the next ones of the ring, as many as the sends took; `readPos` moves past exactly those, and the
        call fails exactly when a `send` that it makes does; with a snapshot of 0 the second one always does. */
    method Send(snapshot: Index, first: int, second: int) returns (ok: bool, sent: seq<byte>)
      requires Valid()
      requires Sendable(first, FirstWant(readPos, snapshot)) && Sendable(second, snapshot)
      modifies this`readPos
      ensures sent == Slice(buf[..], old(readPos), |sent|)
      ensures readPos == Pos(old(readPos) + |sent|)
      ensures |sent| == Taken(old(readPos), snapshot, first, second)
      ensures ok <==> first > 0 && (snapshot <= old(readPos) && first == SIZE - old(readPos) ==> second > 0)
      ensures snapshot == 0 && first == SIZE - old(readPos) ==> !ok && readPos == 0
    {
      if first <= 0 {
        return false, [];
      }
      var wraps, want := snapshot <= readPos, FirstWant(readPos, snapshot);
      sent := Deliver(first);
      if wraps && first == want {
        if second <= 0 {
          return false, sent;
        }
        SliceAppend(buf[..], old(readPos), first, second);
        PosPlus(old(readPos) + first, second);
        var more := Deliver(second);
        sent := sent + more;
      }
      ok := true;
    }
  }
}
