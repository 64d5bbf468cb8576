/**
 * The connections of one thread follow each other along the stream of its messages: what one carried is not carried
 * again by a later one.
 */
module Order {
  import opened Bytes
  import opened Framing
  import opened Channel

  /** The first byte of the log that a connection carries, and the first that it does not. */
  function Start(frames: seq<Frame>, c: Connection): nat
    requires c.first <= |frames|
  {
    Before(frames, c.first)
  }

  function End(frames: seq<Frame>, c: Connection): nat
    requires c.first <= |frames|
  {
    Before(frames, c.first) + |c.wire|
  }

  ghost predicate Known(frames: seq<Frame>, cs: seq<Connection>) {
    forall i :: 0 <= i < |cs| ==> cs[i].first <= |frames|
  }

  ghost predicate Below(frames: seq<Frame>, cs: seq<Connection>, n: nat) {
    forall i :: 0 <= i < |cs| ==> cs[i].first <= |frames| && End(frames, cs[i]) <= n
  }

  ghost predicate InOrder(frames: seq<Frame>, cs: seq<Connection>)
    requires Known(frames, cs)
  {
    forall i, j :: 0 <= i < j < |cs| ==> End(frames, cs[i]) <= Start(frames, cs[j])
  }

  /** Closed connections end before the open one starts, or before what is to be consumed next. */
  ghost predicate OrderInv(s: State) {
    && Known(s.h.frames, s.h.past) && InOrder(s.h.frames, s.h.past)
    && (s.fd >= 0 ==>
          s.h.connection.first <= |s.h.frames| && Below(s.h.frames, s.h.past, Start(s.h.frames, s.h.connection)))
    && (s.fd < 0 ==> Below(s.h.frames, s.h.past, s.h.consumed))
    && (s.fd >= 0 && s.sender == Closing ==> End(s.h.frames, s.h.connection) <= s.h.consumed)
  }

  lemma OrderCommit(s: State, l: Step)
    requires WireInv(s) && OrderInv(s) && Enabled(s, l) && l.Commit?
    ensures OrderInv(Apply(s, l))
  {
    var f, t := s.writer.frame, Apply(s, l);
    forall i | 0 <= i < |s.h.past|
      ensures Before(t.h.frames, s.h.past[i].first) == Before(s.h.frames, s.h.past[i].first)
    {
      BeforeGrows(s.h.frames, f, s.h.past[i].first);
    }
    if s.fd >= 0 { BeforeGrows(s.h.frames, f, s.h.connection.first); }
  }

  lemma OrderClose(s: State, l: Step)
    requires WireInv(s) && OrderInv(s) && Enabled(s, l) && l.Close?
    ensures OrderInv(Apply(s, l))
  {
    var t := Apply(s, l);
    if s.fd > 0 {
      assert t.h.past == s.h.past + [s.h.connection];
      assert Below(t.h.frames, t.h.past, t.h.consumed);
      assert InOrder(t.h.frames, t.h.past);
    }
  }

  lemma OrderStep(s: State, l: Step)
    requires WireInv(s) && OrderInv(s) && Enabled(s, l)
    ensures OrderInv(Apply(s, l))
  {
    match l
    case Commit => OrderCommit(s, l);
    case Close => OrderClose(s, l);
    case _ =>
  }

  lemma {:induction false} OrderRuns(s: State, ls: seq<Step>, t: State)
    requires WireInv(s) && OrderInv(s) && Runs(s, ls, t) && NoZero(ls)
    ensures OrderInv(t)
    decreases |ls|
  {
    if ls != [] {
      OrderStep(s, ls[0]);
      WireStep(s, ls[0]);
      OrderRuns(Apply(s, ls[0]), ls[1..], t);
    }
  }

  /** In every run, the bytes that a connection carries come after all bytes that earlier connections carried. */
  lemma ConnectionsInOrder(s: State, ls: seq<Step>, t: State)
    requires Initial(s) && Runs(s, ls, t) && NoZero(ls)
    ensures Known(t.h.frames, Connections(t)) && InOrder(t.h.frames, Connections(t))
  {
    InitialOk(s);
    OrderRuns(s, ls, t);
    var cs := Connections(t);
    forall i, j | 0 <= i < j < |cs|
      ensures cs[i].first <= |t.h.frames| && cs[j].first <= |t.h.frames|
      ensures End(t.h.frames, cs[i]) <= Start(t.h.frames, cs[j])
    {
      assert cs[i] == t.h.past[i];
    }
  }

  lemma {:induction false} LengthAppend(a: seq<Frame>, b: seq<Frame>)
    ensures Length(a + b) == Length(a) + Length(b)
    decreases |a|
  {
    if a == [] {
      assert a + b == b;
    } else {
      assert (a + b)[1..] == a[1..] + b;
      LengthAppend(a[1..], b);
    }
  }

  /** Later messages start later. */
  lemma BeforeRises(frames: seq<Frame>, a: nat, b: nat)
    requires a <= |frames| && b <= |frames| && Before(frames, a) <= Before(frames, b)
    ensures a <= b
  {
    if b < a {
      assert frames[..a] == frames[..b] + frames[b..a];
      LengthAppend(frames[..b], frames[b..a]);
      assert false;
    }
  }

  /** No message is delivered whole by two connections: the messages of the later one were committed after those of the
      earlier one. */
  lemma NotTwice(s: State, ls: seq<Step>, t: State, i: nat, j: nat)
    requires Initial(s) && Runs(s, ls, t) && NoZero(ls) && i < j < |Connections(t)|
    ensures var c, d := Connections(t)[i], Connections(t)[j];
      c.first + |TakeAll(c.wire).0| <= d.first <= |t.h.frames|
  {
    var c, d := Connections(t)[i], Connections(t)[j];
    var n := Delivered(s, ls, t, c);
    Follows(s, ls, t, i, j);
    BeforeRises(t.h.frames, n, d.first);
  }

  lemma Delivered(s: State, ls: seq<Step>, t: State, c: Connection) returns (n: nat)
    requires Initial(s) && Runs(s, ls, t) && NoZero(ls) && c in Connections(t)
    ensures n == c.first + |TakeAll(c.wire).0| <= |t.h.frames| && Before(t.h.frames, n) <= End(t.h.frames, c)
  {
    Delivery(s, ls, t, c);
    DeliveredEnd(t.h.frames, c, TakeAll(c.wire).0, TakeAll(c.wire).1);
    n := c.first + |TakeAll(c.wire).0|;
  }

  lemma Follows(s: State, ls: seq<Step>, t: State, i: nat, j: nat)
    requires Initial(s) && Runs(s, ls, t) && NoZero(ls) && i < j < |Connections(t)|
    ensures var c, d := Connections(t)[i], Connections(t)[j];
      c.first <= |t.h.frames| && d.first <= |t.h.frames| && End(t.h.frames, c) <= Before(t.h.frames, d.first)
  {
    ConnectionsInOrder(s, ls, t);
  }

  /** The messages that a connection delivers whole end where it ends or before. */
  lemma DeliveredEnd(frames: seq<Frame>, c: Connection, got: seq<Frame>, left: seq<byte>)
    requires AllSized(frames) && c.first <= |frames| && IsCut(frames[c.first..], c.wire, got, left)
    ensures c.first + |got| <= |frames| && Before(frames, c.first + |got|) <= End(frames, c)
  {
    var n := c.first + |got|;
    assert got == frames[c.first..][..|got|] == frames[c.first..n];
    LengthOfStream(got);
    assert |c.wire| == |Stream(got)| + |left|;
    LengthAppend(frames[..c.first], got);
    assert frames[..n] == frames[..c.first] + got;
  }
}
