/**
 * Frames: a marker byte, the length of the body as a word, and the body. This is all of a message that
 * `gator_msg_begin` and `gator_msg_end` know about, and all that the receiver needs to split the stream.
 */
module Framing {
  import opened Bytes
  import opened Ring

  datatype Frame = Frame(header: byte, body: seq<byte>)

  predicate Sized(f: Frame) {
    |f.body| < 0x1_0000_0000
  }

  function Raw(f: Frame): (s: seq<byte>)
    requires Sized(f)
    ensures |s| == 5 + |f.body|
  {
    [f.header] + Word(|f.body|) + f.body
  }

  /** The marker, the four bytes of the length, the body. */
  lemma Layout(f: Frame)
    requires Sized(f)
    ensures Raw(f)[0] == f.header && Raw(f)[1..5] == Word(|f.body|) && Raw(f)[5..] == f.body
  {
  }

  /** Marker, then body, then the length into the gap: the frame lies in the ring as if stored in one go. */
  lemma StoredFrame(buf: seq<byte>, pos: Index, f: Frame)
    requires |buf| == SIZE && 5 + |f.body| <= SIZE
    ensures Stored(Stored(Stored(buf, pos, [f.header]), Pos(pos + 5), f.body), Pos(pos + 1), Word(|f.body|))
         == Stored(buf, pos, Raw(f))
  {
    BackPatch(buf, pos, [f.header], Word(|f.body|), f.body);
  }

  /** The first frame of `s` and the bytes after it; None when `s` does not hold all of it. */
  function Take(s: seq<byte>): (r: Option<(Frame, seq<byte>)>)
    ensures r.Some? ==> |r.value.1| < |s|
  {
    if |s| < 5 || |s| < 5 + FromWord(s[1..5]) then None
    else
      var end := 5 + FromWord(s[1..5]);
      Some((Frame(s[0], s[5..end]), s[end..]))
  }

  lemma FrameRoundTrip(f: Frame, rest: seq<byte>)
    requires Sized(f)
    ensures Take(Raw(f) + rest) == Some((f, rest))
  {
    var s, n := Raw(f) + rest, |f.body|;
    WordRoundTrip(n);
    assert s[1..5] == Word(n) && s[5..5 + n] == f.body && s[5 + n..] == rest;
  }

  /** A frame that is cut off before its end does not come out at all. */
  lemma CutFrame(f: Frame, s: seq<byte>)
    requires Sized(f) && s < Raw(f)
    ensures Take(s) == None
  {
    if |s| >= 5 {
      WordRoundTrip(|f.body|);
      assert s[1..5] == Raw(f)[1..5] == Word(|f.body|);
    }
  }

  predicate AllSized(fs: seq<Frame>) {
    forall i :: 0 <= i < |fs| ==> Sized(fs[i])
  }

  function Stream(fs: seq<Frame>): seq<byte>
    requires AllSized(fs)
  {
    if fs == [] then [] else Raw(fs[0]) + Stream(fs[1..])
  }

  /** The length of a stream. */
  function Length(fs: seq<Frame>): nat {
    if fs == [] then 0 else 5 + |fs[0].body| + Length(fs[1..])
  }

  lemma {:induction false} LengthOfStream(fs: seq<Frame>)
    requires AllSized(fs)
    ensures |Stream(fs)| == Length(fs)
    decreases |fs|
  {
    if fs != [] {
      LengthOfStream(fs[1..]);
    }
  }

  /** The whole frames at the front of `s`, and the bytes that remain. */
  function TakeAll(s: seq<byte>): (seq<Frame>, seq<byte>)
    decreases |s|
  {
    match Take(s)
    case None => ([], s)
    case Some((f, rest)) => var (fs, left) := TakeAll(rest); ([f] + fs, left)
  }

  lemma {:induction false} StreamAppend(a: seq<Frame>, b: seq<Frame>)
    requires AllSized(a + b)
    ensures AllSized(a) && AllSized(b)
    ensures Stream(a + b) == Stream(a) + Stream(b)
    decreases |a|
  {
    SizedParts(a, b);
    if a == [] {
      assert a + b == b;
    } else {
      assert (a + b)[1..] == a[1..] + b;
      StreamAppend(a[1..], b);
    }
  }

  lemma SizedParts(a: seq<Frame>, b: seq<Frame>)
    requires AllSized(a + b)
    ensures AllSized(a) && AllSized(b)
  {
    assert forall i :: 0 <= i < |a| ==> a[i] == (a + b)[i];
    assert forall i :: 0 <= i < |b| ==> b[i] == (a + b)[|a| + i];
  }

  /** `s` is made of the first frames `got` of `fs` and of `left`, a proper prefix of the next frame. */
  ghost predicate IsCut(fs: seq<Frame>, s: seq<byte>, got: seq<Frame>, left: seq<byte>)
    requires AllSized(fs)
  {
    && got <= fs && AllSized(got)
    && s == Stream(got) + left
    && (left != [] ==> |got| < |fs| && left < Raw(fs[|got|]))
  }

  lemma LongerCut(fs: seq<Frame>, rest: seq<byte>, got: seq<Frame>, left: seq<byte>)
    requires AllSized(fs) && fs != [] && IsCut(fs[1..], rest, got, left)
    ensures IsCut(fs, Raw(fs[0]) + rest, [fs[0]] + got, left)
  {
    assert ([fs[0]] + got)[1..] == got;
    assert AllSized([fs[0]] + got);
    assert Stream([fs[0]] + got) == Raw(fs[0]) + Stream(got);
    assert Raw(fs[0]) + rest == Stream([fs[0]] + got) + left;
  }

  /** However the stream of some frames is cut, the receiver gets exactly the frames that arrived whole, in
      order, and is left with a proper prefix of the next one. */
  lemma {:induction false} CutStream(fs: seq<Frame>, s: seq<byte>)
    requires AllSized(fs) && s <= Stream(fs)
    ensures IsCut(fs, s, TakeAll(s).0, TakeAll(s).1)
    decreases |fs|
  {
    if fs != [] {
      var first := Raw(fs[0]);
      if |s| < |first| {
        assert s < first;
        CutFrame(fs[0], s);
      } else {
        var rest := s[|first|..];
        assert s == first + rest;
        assert rest <= Stream(fs[1..]);
        CutStream(fs[1..], rest);
        FrameRoundTrip(fs[0], rest);
        LongerCut(fs, rest, TakeAll(rest).0, TakeAll(rest).1);
      }
    }
  }

  /** With nothing cut off, the frames come back as they were. */
  lemma StreamRoundTrip(fs: seq<Frame>)
    requires AllSized(fs)
    ensures TakeAll(Stream(fs)) == (fs, [])
  {
    CutStream(fs, Stream(fs));
    var (got, left) := TakeAll(Stream(fs));
    assert fs == got + fs[|got|..];
    StreamAppend(got, fs[|got|..]);
    assert left == Stream(fs[|got|..]);
    if |got| < |fs| {
      assert false;
    }
    assert fs[|got|..] == [] && got == fs;
    assert TakeAll(Stream(fs)) == (got, left);
  }
}
