/** What the receiver at the other end of the channel gets, in terms of the annotations that the thread made. */
module Receiver {
  import opened Bytes
  import opened Ring
  import opened Framing
  import opened Messages
  import Gator
  import C = Channel

  /** The steps by which writers begin are those of valid messages, with the room that their writer reserves. */
  ghost predicate ByWriters(ls: seq<C.Step>) {
    forall i :: 0 <= i < |ls| && ls[i].Begin? ==> Annotation(ls[i].frame, ls[i].room)
  }

  ghost predicate Annotation(f: Frame, room: nat) {
    exists m :: Valid(m) && f == ToFrame(m) && room == Reserve(m)
  }

  /** Every message without activities is covered: once its writer has waited, it may begin, even if capture has
      stopped meanwhile. A counter with activities is covered exactly if it keeps within its reservation. */
  lemma WritersMayBegin(s: C.State, m: Message)
    requires Valid(m) && s.writer == C.Entered
    requires Reserve(m) <= SIZE / 2 && Reserve(m) <= Gator.Free(s.readPos, s.writePos)
    ensures !m.Counter? || m.activities == [] ==> C.Enabled(s, C.Begin(ToFrame(m), Reserve(m)))
    ensures m.Counter? ==>
              (C.Enabled(s, C.Begin(ToFrame(m), Reserve(m))) <==> |m.activities| <= 12 * INT - CounterInts(m))
  {
    if m.Counter? {
      CounterFits(m);
    }
    if !m.Counter? || m.activities == [] {
      Fits(m);
    }
  }

  /** In every run, the `i`-th message that a connection delivers whole is, with all its fields, the `i`-th annotation
      made after those that were committed when the sender last skipped ahead. */
  lemma Received(s: C.State, ls: seq<C.Step>, t: C.State, c: C.Connection, i: nat)
    requires C.Initial(s) && C.Runs(s, ls, t) && C.NoZero(ls) && ByWriters(ls)
    requires c in C.Connections(t) && i < |TakeAll(c.wire).0|
    ensures c.first + i < |C.Begun(ls)|
    ensures exists m :: Valid(m) && C.Begun(ls)[c.first + i] == ToFrame(m)
                        && DecodeBody(TakeAll(c.wire).0[i].header, TakeAll(c.wire).0[i].body) == Some(m)
  {
    DeliveredIsBegun(s, ls, t, c, i);
    BegunByWriters(ls, c.first + i);
    var m :| Valid(m) && C.Begun(ls)[c.first + i] == ToFrame(m);
    MessageRoundTrip(m);
  }

  /** The `i`-th frame that a connection delivers whole is the one begun as the `i`-th after its first. */
  lemma DeliveredIsBegun(s: C.State, ls: seq<C.Step>, t: C.State, c: C.Connection, i: nat)
    requires C.Initial(s) && C.Runs(s, ls, t) && C.NoZero(ls)
    requires c in C.Connections(t) && i < |TakeAll(c.wire).0|
    ensures c.first + i < |C.Begun(ls)| && C.Begun(ls)[c.first + i] == TakeAll(c.wire).0[i]
  {
    C.Delivery(s, ls, t, c);
    C.FramesBegun(s, ls, t);
    assert C.Made(s) + C.Begun(ls) == C.Begun(ls);
    assert TakeAll(c.wire).0[i] == t.h.frames[c.first..][i] == t.h.frames[c.first + i] == C.Made(t)[c.first + i];
  }

  lemma {:induction false} BegunByWriters(ls: seq<C.Step>, k: nat)
    requires ByWriters(ls) && k < |C.Begun(ls)|
    ensures exists m :: Valid(m) && C.Begun(ls)[k] == ToFrame(m)
    decreases |ls|
  {
    if ls[0].Begin? && k == 0 {
      assert Annotation(ls[0].frame, ls[0].room);
    } else {
      BegunByWriters(ls[1..], if ls[0].Begin? then k - 1 else k);
    }
  }
}
