/**
 * The channel from one annotating thread to the receiver: the thread that writes messages into its ring, and
 * the sender thread that drains the ring into a socket, as two processes that take turns in any order.
 *
 * Every load or store of a shared variable, every byte stored and every `send` is a step of its own. `send`
 * may take any positive number of bytes up to what it was asked for, or fail. Shared variables are read and
 * written atomically and in program order.
 *
 * The fields of `History`, and the numbers `seen` and `messages` in the sender's states, record what happened;
 * no step depends on them.
 */
module Channel {
  import opened Bytes
  import opened Ring
  import opened Framing
  import opened Gator

  /** Where the annotating thread is: outside; in a call that found capture on, in which it waits for room; or storing
      the bytes of a message that it has room for. One call may write several messages. */
  datatype Writer = Idle | Entered | Writing(frame: Frame, raw: seq<byte>, stored: set<nat>)

  /** Where the sender is with this thread's record. `seen` counts the bytes committed when it loaded write_pos,
      `messages` the messages. */
  datatype Sender =
    | Away                                                     // elsewhere in its loop
    | Snapped(snapshot: Index, seen: nat)                      // has loaded write_pos
    | Advancing(count: nat, second: Option<Index>)             // has sent `count` bytes, read_pos not yet moved
    | Second(snapshot: Index)                                  // about to send from the start of the buffer
    | Stopping                                                 // has cleared `capturing`
    | StopLoaded(target: Index, seen: nat, messages: nat)      // has loaded write_pos to skip to it
    | Closing                                                  // has skipped; the socket is still open

  /** A connection: how many messages were committed before its first byte, and its bytes after the handshake. */
  datatype Connection = Connection(first: nat, wire: seq<byte>)

  /** All committed messages and their bytes; how many bytes were sent or skipped; the number of messages before
      the last skip; the open connection and those that were closed. */
  datatype History = History(
    frames: seq<Frame>, log: seq<byte>, consumed: nat, base: nat, connection: Connection, past: seq<Connection>)

  datatype State = State(
    buf: seq<byte>, writePos: Index, readPos: Index, fd: int, capturing: bool,
    writer: Writer, sender: Sender, h: History)

  datatype Step =
    | Enter                            // gator_get_thread finds capture on
    | Begin(frame: Frame, room: nat)   // the wait for `room` bytes returns, whether capture is still on or not
    | Store(offset: nat)               // one byte of the message, in whatever order the writer stores them
    | Commit                           // gator_msg_end publishes write_pos
    | Leave                            // the call returns
    | Connect(fd: int)                 // gator_connect succeeds
    | Snapshot                         // the sender loads write_pos and finds something to send
    | Send(count: nat)                 // a `send` takes `count` bytes
    | SendFails                        // a `send` fails, or was asked for nothing, so capture stops
    | Advance                          // the sender stores read_pos
    | Stop                             // capture stops for another reason
    | LoadTarget                       // gator_stop_capturing loads write_pos
    | StoreTarget                      // and stores it in read_pos
    | Close                            // and closes the socket, if its number is positive
    | Restart                          // gator_start_capturing

  predicate Initial(s: State) {
    && |s.buf| == SIZE && s.writePos == s.readPos == 0 && s.fd == -1
    && s.writer == Idle && s.sender == Away
    && s.h.frames == [] && s.h.log == [] && s.h.consumed == 0 && s.h.base == 0 && s.h.past == []
  }

  /** What the `send` that comes next is asked for. */
  function Want(s: State): nat {
    match s.sender
    case Snapped(w, _) => FirstWant(s.readPos, w)
    case Second(w) => w
    case _ => 0
  }

  predicate Enabled(s: State, l: Step) {
    match l
    case Enter => s.capturing && s.writer == Idle
    case Begin(f, room) =>
      s.writer == Entered && 5 + |f.body| <= room <= SIZE / 2 && room <= Free(s.readPos, s.writePos)
    case Store(k) => s.writer.Writing? && k < |s.writer.raw| && |s.buf| == SIZE
    case Commit => s.writer.Writing? && forall k :: 0 <= k < |s.writer.raw| ==> k in s.writer.stored
    case Leave => s.writer == Entered
    case Connect(fd) => s.sender == Away && s.capturing && s.fd < 0 && fd >= 0
    case Snapshot => s.sender == Away && s.capturing && s.fd >= 0 && s.writePos != s.readPos
    case Send(n) => (s.sender.Snapped? || s.sender.Second?) && 0 < n <= Want(s) && |s.buf| == SIZE
    case SendFails => s.sender.Snapped? || s.sender.Second?
    case Advance => s.sender.Advancing?
    case Stop => s.sender == Away && s.capturing
    case LoadTarget => s.sender == Stopping
    case StoreTarget => s.sender.StopLoaded?
    case Close => s.sender == Closing
    case Restart => s.sender == Away && !s.capturing
  }

  function Apply(s: State, l: Step): State
    requires Enabled(s, l)
  {
    match l
    case Enter => s.(writer := Entered)
    case Begin(f, _) => s.(writer := Writing(f, Raw(f), {}))
    case Store(k) =>
      s.(buf := s.buf[Pos(s.writePos + k) := s.writer.raw[k]],
         writer := s.writer.(stored := s.writer.stored + {k}))
    case Commit =>
      s.(writePos := Pos(s.writePos + |s.writer.raw|), writer := Entered,
         h := s.h.(frames := s.h.frames + [s.writer.frame], log := s.h.log + s.writer.raw))
    case Leave => s.(writer := Idle)
    case Connect(fd) => s.(fd := fd, h := s.h.(connection := Connection(s.h.base, [])))
    case Snapshot => s.(sender := Snapped(s.writePos, |s.h.log|))
    case Send(n) =>
      var second := if s.sender.Snapped? && s.sender.snapshot <= s.readPos && n == Want(s)
                    then Some(s.sender.snapshot) else None;
      var c := s.h.connection;
      s.(sender := Advancing(n, second),
         h := s.h.(connection := c.(wire := c.wire + Slice(s.buf, s.readPos, n))))
    case SendFails => s.(sender := Stopping, capturing := false)
    case Advance =>
      s.(readPos := Pos(s.readPos + s.sender.count),
         sender := if s.sender.second.Some? then Second(s.sender.second.value) else Away,
         h := s.h.(consumed := s.h.consumed + s.sender.count))
    case Stop => s.(sender := Stopping, capturing := false)
    case LoadTarget => s.(sender := StopLoaded(s.writePos, |s.h.log|, |s.h.frames|))
    case StoreTarget =>
      s.(readPos := s.sender.target, sender := Closing,
         h := s.h.(consumed := s.sender.seen, base := s.sender.messages))
    case Close =>
      if s.fd > 0 then s.(fd := -1, sender := Away, h := s.h.(past := s.h.past + [s.h.connection]))
      else s.(sender := Away)
    case Restart => s.(capturing := true)
  }

  /** `t` can be reached from `s` by taking the steps `ls`. */
  predicate Runs(s: State, ls: seq<Step>, t: State)
    decreases |ls|
  {
    if ls == [] then s == t else Enabled(s, ls[0]) && Runs(Apply(s, ls[0]), ls[1..], t)
  }

  // ---- The ring ----

  /** The shared positions are those of the bytes committed and consumed, which are less than a turn apart. */
  predicate Positions(s: State) {
    && |s.buf| == SIZE
    && s.h.consumed <= |s.h.log| < s.h.consumed + SIZE
    && s.writePos == Pos(|s.h.log|) && s.readPos == Pos(s.h.consumed)
  }

  /** The ring holds the bytes of `log` from number `lo` on, each at the place of its number. */
  ghost predicate Holds(buf: seq<byte>, lo: nat, log: seq<byte>)
    requires |buf| == SIZE
  {
    forall k :: lo <= k < |log| ==> buf[Pos(k)] == log[k]
  }

  /** The bytes of `raw` at the offsets in `stored` are in their places after byte number `start`. */
  ghost predicate Placed(buf: seq<byte>, start: nat, raw: seq<byte>, stored: set<nat>)
    requires |buf| == SIZE
  {
    forall k <- stored :: k < |raw| && buf[Pos(start + k)] == raw[k]
  }

  /** The message being written has room, and each byte stored so far is in its place. */
  ghost predicate WriterOk(s: State)
    requires |s.buf| == SIZE
  {
    s.writer.Writing? ==>
      && 0 < |s.writer.raw| && |s.h.log| + |s.writer.raw| < s.h.consumed + SIZE
      && Placed(s.buf, |s.h.log|, s.writer.raw, s.writer.stored)
  }

  ghost predicate SenderOk(s: State) {
    match s.sender
    case Snapped(w, seen) => w == Pos(seen) && s.h.consumed < seen <= |s.h.log|
    case Advancing(n, second) =>
      && s.h.consumed + n <= |s.h.log|
      && (second.Some? ==> Pos(s.h.consumed + n) == 0 && s.h.consumed + n + second.value <= |s.h.log|)
    case Second(w) => s.readPos == 0 && s.h.consumed + w <= |s.h.log|
    case StopLoaded(w, seen, _) => w == Pos(seen) && s.h.consumed <= seen <= |s.h.log|
    case _ => true
  }

  ghost predicate RingInv(s: State) {
    Positions(s) && Holds(s.buf, s.h.consumed, s.h.log) && WriterOk(s) && SenderOk(s)
  }

  /** Two byte numbers less than a turn apart lie at different places. */
  lemma Apart(a: nat, b: nat)
    requires a < b < a + SIZE
    ensures Pos(a) != Pos(b)
  {
  }

  /** The distance between two byte numbers less than a turn apart, from their places alone. */
  lemma Gap(a: nat, b: nat)
    requires a <= b < a + SIZE
    ensures b - a == if Pos(b) >= Pos(a) then Pos(b) - Pos(a) else SIZE - Pos(a) + Pos(b)
    ensures Free(Pos(a), Pos(b)) == SIZE - 1 - (b - a)
    ensures Used(Pos(a), Pos(b)) == b - a
  {
  }

  /** A store beyond the log, less than a turn ahead, leaves the log as it was. */
  lemma StoreHolds(buf: seq<byte>, lo: nat, log: seq<byte>, at: nat, b: byte)
    requires |buf| == SIZE && Holds(buf, lo, log) && |log| <= at < lo + SIZE
    ensures Holds(buf[Pos(at) := b], lo, log)
  {
    forall k | lo <= k < |log| ensures buf[Pos(at) := b][Pos(k)] == log[k] {
      Apart(k, at);
    }
  }

  lemma StorePlaced(buf: seq<byte>, start: nat, raw: seq<byte>, stored: set<nat>, offset: nat)
    requires |buf| == SIZE && Placed(buf, start, raw, stored) && offset < |raw| <= SIZE
    ensures Placed(buf[Pos(start + offset) := raw[offset]], start, raw, stored + {offset})
  {
    forall k | k in stored && k != offset
      ensures buf[Pos(start + offset) := raw[offset]][Pos(start + k)] == raw[k]
    {
      if k < offset {
        Apart(start + k, start + offset);
      } else {
        Apart(start + offset, start + k);
      }
    }
  }

  /** A message whose every byte is stored continues the log. */
  lemma CommitHolds(buf: seq<byte>, lo: nat, log: seq<byte>, raw: seq<byte>, stored: set<nat>)
    requires |buf| == SIZE && Holds(buf, lo, log) && Placed(buf, |log|, raw, stored)
    requires forall k :: 0 <= k < |raw| ==> k in stored
    ensures Holds(buf, lo, log + raw)
  {
    forall k | lo <= k < |log + raw| ensures buf[Pos(k)] == (log + raw)[k] {
      if k >= |log| {
        assert k - |log| in stored;
        assert |log| + (k - |log|) == k;
      }
    }
  }

  /** What is sent from the ring is what the log holds. */
  lemma SliceHolds(buf: seq<byte>, lo: nat, log: seq<byte>, n: nat)
    requires |buf| == SIZE && Holds(buf, lo, log) && lo + n <= |log|
    ensures Slice(buf, Pos(lo), n) == log[lo..lo + n]
  {
    forall k | 0 <= k < n ensures Slice(buf, Pos(lo), n)[k] == log[lo..lo + n][k] {
      PosPlus(lo, k);
    }
  }

  lemma BeginStep(s: State, l: Step)
    requires RingInv(s) && Enabled(s, l) && l.Begin?
    ensures RingInv(Apply(s, l))
  {
    Gap(s.h.consumed, |s.h.log|);
  }

  lemma StoreStep(s: State, l: Step)
    requires RingInv(s) && Enabled(s, l) && l.Store?
    ensures RingInv(Apply(s, l))
  {
    var log, raw := s.h.log, s.writer.raw;
    PosPlus(|log|, l.offset);
    var buf := s.buf[Pos(|log| + l.offset) := raw[l.offset]];
    StoreHolds(s.buf, s.h.consumed, log, |log| + l.offset, raw[l.offset]);
    StorePlaced(s.buf, |log|, raw, s.writer.stored, l.offset);
    Rewritten(s, buf, s.writer.(stored := s.writer.stored + {l.offset}));
    StoreApplied(s, l, buf);
  }

  lemma StoreApplied(s: State, l: Step, buf: seq<byte>)
    requires Positions(s) && Enabled(s, l) && l.Store?
    requires buf == s.buf[Pos(|s.h.log| + l.offset) := s.writer.raw[l.offset]]
    ensures Apply(s, l) == s.(buf := buf, writer := s.writer.(stored := s.writer.stored + {l.offset}))
  {
    PosPlus(|s.h.log|, l.offset);
  }

  /** A buffer that still holds the log, and the message being written, may take the place of another one. */
  lemma Rewritten(s: State, buf: seq<byte>, writer: Writer)
    requires RingInv(s) && s.writer.Writing? && writer.Writing? && writer == s.writer.(stored := writer.stored) && |buf| == SIZE
    requires Holds(buf, s.h.consumed, s.h.log) && Placed(buf, |s.h.log|, writer.raw, writer.stored)
    ensures RingInv(s.(buf := buf, writer := writer))
  {
  }

  lemma CommitStep(s: State, l: Step)
    requires RingInv(s) && Enabled(s, l) && l.Commit?
    ensures RingInv(Apply(s, l))
  {
    var t := Apply(s, l);
    PosPlus(|s.h.log|, |s.writer.raw|);
    assert Positions(t);
    CommitHolds(s.buf, s.h.consumed, s.h.log, s.writer.raw, s.writer.stored);
  }

  lemma SendStep(s: State, l: Step)
    requires RingInv(s) && Enabled(s, l) && l.Send?
    ensures RingInv(Apply(s, l))
    ensures s.h.consumed + l.count <= |s.h.log|
  {
    if s.sender.Snapped? {
      SendBounds(s.h.consumed, s.sender.seen, |s.h.log|, s.sender.snapshot, l.count);
    }
  }

  /** What a first send of `n` bytes leaves for a second one, in byte numbers: `a` is consumed, `b` was seen. */
  lemma SendBounds(a: nat, b: nat, end: nat, snapshot: Index, n: nat)
    requires a < b <= end < a + SIZE && snapshot == Pos(b) && 0 < n <= FirstWant(Pos(a), snapshot)
    ensures a + n <= end
    ensures snapshot <= Pos(a) && n == FirstWant(Pos(a), snapshot) ==> Pos(a + n) == 0 && a + n + snapshot <= end
  {
    Gap(a, b);
    PosPlus(a, n);
  }

  lemma AdvanceStep(s: State, l: Step)
    requires RingInv(s) && Enabled(s, l) && l.Advance?
    ensures RingInv(Apply(s, l))
  {
    PosPlus(s.h.consumed, s.sender.count);
    HoldsLater(s.buf, s.h.consumed, s.h.consumed + s.sender.count, s.h.log);
  }

  lemma HoldsLater(buf: seq<byte>, lo: nat, hi: nat, log: seq<byte>)
    requires |buf| == SIZE && Holds(buf, lo, log) && lo <= hi
    ensures Holds(buf, hi, log)
  {
  }

  /** Every step keeps the ring in order. */
  lemma RingStep(s: State, l: Step)
    requires RingInv(s) && Enabled(s, l)
    ensures RingInv(Apply(s, l))
  {
    match l
    case Begin(_, _) => BeginStep(s, l);
    case Store(_) => StoreStep(s, l);
    case Commit => CommitStep(s, l);
    case Send(_) => SendStep(s, l);
    case Advance => AdvanceStep(s, l);
    case _ =>
  }

  // ---- What is on the wire ----

  /** The bytes of the first `n` messages. */
  function Before(frames: seq<Frame>, n: nat): nat
    requires n <= |frames|
  {
    Length(frames[..n])
  }

  ghost predicate Boundary(frames: seq<Frame>, n: nat, bytes: nat) {
    n <= |frames| && bytes == Before(frames, n)
  }

  /** What connection `c` carried is a stretch of the log that starts with the first byte of a message. */
  ghost predicate OnLog(frames: seq<Frame>, log: seq<byte>, c: Connection) {
    && c.first <= |frames|
    && Before(frames, c.first) + |c.wire| <= |log|
    && c.wire == log[Before(frames, c.first)..Before(frames, c.first) + |c.wire|]
  }

  ghost predicate LogOk(s: State) {
    && AllSized(s.h.frames) && s.h.log == Stream(s.h.frames)
    && (s.writer.Writing? ==> Sized(s.writer.frame) && s.writer.raw == Raw(s.writer.frame))
  }

  /** While a socket is open, all that was consumed since it was opened is on its wire; otherwise what comes next
      is the start of a message. */
  ghost predicate ConnectionOk(s: State) {
    && (s.sender.StopLoaded? ==> Boundary(s.h.frames, s.sender.messages, s.sender.seen))
    && (s.fd < 0 || s.sender == Closing ==> Boundary(s.h.frames, s.h.base, s.h.consumed))
    && (s.fd >= 0 ==> OnLog(s.h.frames, s.h.log, s.h.connection))
    && (s.fd >= 0 && s.sender != Closing ==>
          Before(s.h.frames, s.h.connection.first) + |s.h.connection.wire|
          == s.h.consumed + if s.sender.Advancing? then s.sender.count else 0)
    && (s.sender.Snapped? || s.sender.Advancing? || s.sender.Second? ==> s.fd >= 0)
  }

  ghost predicate PastOk(s: State) {
    forall i :: 0 <= i < |s.h.past| ==> OnLog(s.h.frames, s.h.log, s.h.past[i])
  }

  ghost predicate WireInv(s: State) {
    RingInv(s) && s.fd != 0 && LogOk(s) && ConnectionOk(s) && PastOk(s)
  }

  /** More frames leave the bytes before a given one as they were. */
  lemma BeforeGrows(frames: seq<Frame>, f: Frame, n: nat)
    requires n <= |frames|
    ensures Before(frames + [f], n) == Before(frames, n)
  {
    assert (frames + [f])[..n] == frames[..n];
  }

  lemma LogCommit(s: State, l: Step)
    requires WireInv(s) && Enabled(s, l) && l.Commit?
    ensures LogOk(Apply(s, l)) && |s.h.log| == Length(s.h.frames)
  {
    LengthOfStream(s.h.frames);
    StreamAppend(s.h.frames, [s.writer.frame]);
    assert Stream([s.writer.frame]) == Raw(s.writer.frame);
  }

  lemma OnLogGrows(frames: seq<Frame>, log: seq<byte>, f: Frame, raw: seq<byte>, c: Connection)
    requires OnLog(frames, log, c)
    ensures OnLog(frames + [f], log + raw, c)
    ensures Before(frames + [f], c.first) == Before(frames, c.first)
  {
    BeforeGrows(frames, f, c.first);
  }

  lemma WireCommit(s: State, l: Step)
    requires WireInv(s) && Enabled(s, l) && l.Commit?
    ensures ConnectionOk(Apply(s, l)) && PastOk(Apply(s, l))
  {
    var f, raw := s.writer.frame, s.writer.raw;
    if s.sender.StopLoaded? {
      BeforeGrows(s.h.frames, f, s.sender.messages);
    }
    if s.fd < 0 || s.sender == Closing {
      BeforeGrows(s.h.frames, f, s.h.base);
    }
    if s.fd >= 0 {
      OnLogGrows(s.h.frames, s.h.log, f, raw, s.h.connection);
    }
    forall i | 0 <= i < |s.h.past|
      ensures OnLog(s.h.frames + [f], s.h.log + raw, s.h.past[i])
    {
      OnLogGrows(s.h.frames, s.h.log, f, raw, s.h.past[i]);
    }
  }

  lemma OnLogLonger(frames: seq<Frame>, log: seq<byte>, c: Connection, n: nat)
    requires OnLog(frames, log, c) && Before(frames, c.first) + |c.wire| + n <= |log|
    ensures var end := Before(frames, c.first) + |c.wire|;
            OnLog(frames, log, c.(wire := c.wire + log[end..end + n]))
  {
    var start := Before(frames, c.first);
    var end := start + |c.wire|;
    Joined(log, start, end, end + n);
    assert |log[end..end + n]| == n;
  }

  lemma Joined(log: seq<byte>, a: nat, b: nat, c: nat)
    requires a <= b <= c <= |log|
    ensures log[a..b] + log[b..c] == log[a..c]
  {
  }

  lemma SentIsLog(s: State, l: Step)
    requires RingInv(s) && Enabled(s, l) && l.Send?
    ensures s.h.consumed + l.count <= |s.h.log|
    ensures Slice(s.buf, s.readPos, l.count) == s.h.log[s.h.consumed..s.h.consumed + l.count]
  {
    SendStep(s, l);
    SliceHolds(s.buf, s.h.consumed, s.h.log, l.count);
  }

  lemma WireSend(s: State, l: Step)
    requires ConnectionOk(s) && Enabled(s, l) && l.Send?
    requires s.h.consumed + l.count <= |s.h.log|
    requires Slice(s.buf, s.readPos, l.count) == s.h.log[s.h.consumed..s.h.consumed + l.count]
    ensures ConnectionOk(Apply(s, l))
  {
    OnLogLonger(s.h.frames, s.h.log, s.h.connection, l.count);
  }

  lemma WireLoad(s: State, l: Step)
    requires WireInv(s) && Enabled(s, l) && l.LoadTarget?
    ensures ConnectionOk(Apply(s, l))
  {
    LengthOfStream(s.h.frames);
    assert s.h.frames[..|s.h.frames|] == s.h.frames;
  }

  /** Every step keeps the wire in order, as long as no connection is given the descriptor number 0. */
  lemma WireStep(s: State, l: Step)
    requires WireInv(s) && Enabled(s, l)
    requires l.Connect? ==> l.fd != 0
    ensures WireInv(Apply(s, l))
  {
    RingStep(s, l);
    match l
    case Commit =>
      LogCommit(s, l);
      WireCommit(s, l);
    case Send(_) =>
      SentIsLog(s, l);
      WireSend(s, l);
    case LoadTarget => WireLoad(s, l);
    case Connect(_) => WireConnect(s, l);
    case Close => WireConnect(s, l);
    case Advance => WireMove(s, l);
    case StoreTarget => WireMove(s, l);
    case _ => WireQuiet(s, l);
  }

  lemma WireConnect(s: State, l: Step)
    requires WireInv(s) && Enabled(s, l) && (l.Close? || (l.Connect? && l.fd != 0))
    ensures var t := Apply(s, l); LogOk(t) && ConnectionOk(t) && PastOk(t)
  {
  }

  lemma WireMove(s: State, l: Step)
    requires WireInv(s) && Enabled(s, l) && (l.Advance? || l.StoreTarget?)
    ensures var t := Apply(s, l); LogOk(t) && ConnectionOk(t) && PastOk(t)
  {
  }

  /** Steps that move neither position and touch no connection. */
  lemma WireQuiet(s: State, l: Step)
    requires WireInv(s) && Enabled(s, l)
    requires l.Enter? || l.Begin? || l.Store? || l.Leave? || l.Snapshot? || l.SendFails? || l.Stop? || l.Restart?
    ensures var t := Apply(s, l); LogOk(t) && ConnectionOk(t) && PastOk(t)
  {
    assert Apply(s, l).h == s.h;
  }

  // ---- Whole runs ----

  lemma {:induction false} RingRuns(s: State, ls: seq<Step>, t: State)
    requires RingInv(s) && Runs(s, ls, t)
    ensures RingInv(t)
    decreases |ls|
  {
    if ls != [] {
      RingStep(s, ls[0]);
      RingRuns(Apply(s, ls[0]), ls[1..], t);
    }
  }

  predicate NoZero(ls: seq<Step>) {
    forall i :: 0 <= i < |ls| && ls[i].Connect? ==> ls[i].fd != 0
  }

  lemma {:induction false} WireRuns(s: State, ls: seq<Step>, t: State)
    requires WireInv(s) && Runs(s, ls, t) && NoZero(ls)
    ensures WireInv(t)
    decreases |ls|
  {
    if ls != [] {
      WireStep(s, ls[0]);
      WireRuns(Apply(s, ls[0]), ls[1..], t);
    }
  }

  lemma InitialOk(s: State)
    requires Initial(s)
    ensures WireInv(s)
  {
  }

  ghost function Connections(s: State): seq<Connection> {
    s.h.past + if s.fd >= 0 then [s.h.connection] else []
  }

  /** In every run, every connection carries whole committed messages in order, from the start of one on, and ends
      anywhere; the receiver takes out exactly the whole ones. */
  lemma Delivery(s: State, ls: seq<Step>, t: State, c: Connection)
    requires Initial(s) && Runs(s, ls, t) && NoZero(ls)
    requires c in Connections(t)
    ensures AllSized(t.h.frames) && c.first <= |t.h.frames|
    ensures c.wire <= Stream(t.h.frames[c.first..])
    ensures IsCut(t.h.frames[c.first..], c.wire, TakeAll(c.wire).0, TakeAll(c.wire).1)
  {
    InitialOk(s);
    WireRuns(s, ls, t);
    var frames := t.h.frames;
    assert OnLog(frames, t.h.log, c);
    assert frames == frames[..c.first] + frames[c.first..];
    StreamAppend(frames[..c.first], frames[c.first..]);
    LengthOfStream(frames[..c.first]);
    CutStream(frames[c.first..], c.wire);
  }

  /** In every run, whatever descriptors there are: a byte about to be stored goes where no unsent byte is, and the
      room that the writer found only grows while the sender moves. */
  lemma NoOverwrite(s: State, ls: seq<Step>, t: State, offset: nat, unsent: nat)
    requires Initial(s) && Runs(s, ls, t) && Enabled(t, Store(offset))
    requires t.h.consumed <= unsent < |t.h.log|
    ensures Pos(t.writePos + offset) != Pos(unsent)
    ensures t.buf[Pos(unsent)] == t.h.log[unsent]
  {
    InitialOk(s);
    RingRuns(s, ls, t);
    PosPlus(|t.h.log|, offset);
    Apart(unsent, |t.h.log| + offset);
  }

  /** Publishing a message never makes the ring look empty. */
  lemma NoCollision(s: State, ls: seq<Step>, t: State)
    requires Initial(s) && Runs(s, ls, t) && Enabled(t, Commit)
    ensures Apply(t, Commit).writePos != Apply(t, Commit).readPos
    ensures Used(Apply(t, Commit).readPos, Apply(t, Commit).writePos)
         == Used(t.readPos, t.writePos) + |t.writer.raw|
  {
    InitialOk(s);
    RingRuns(s, ls, t);
    CommitGap(t.h.consumed, |t.h.log|, |t.writer.raw|);
  }

  /** The places of two byte numbers before and after the later one moves on by `n`. */
  lemma CommitGap(a: nat, b: nat, n: nat)
    requires a <= b && b + n < a + SIZE
    ensures Used(Pos(a), Pos(Pos(b) + n)) == Used(Pos(a), Pos(b)) + n
    ensures n > 0 ==> Pos(Pos(b) + n) != Pos(a)
  {
    PosPlus(b, n);
    Gap(a, b);
    Gap(a, b + n);
  }

  predicate OfSender(l: Step) {
    !l.Enter? && !l.Begin? && !l.Store? && !l.Commit? && !l.Leave?
  }

  lemma SenderOnlyFrees(s: State, ls: seq<Step>, t: State, l: Step)
    requires Initial(s) && Runs(s, ls, t) && Enabled(t, l) && OfSender(l)
    ensures Free(Apply(t, l).readPos, Apply(t, l).writePos) >= Free(t.readPos, t.writePos)
  {
    InitialOk(s);
    RingRuns(s, ls, t);
    RingStep(t, l);
    Gap(t.h.consumed, |t.h.log|);
    Gap(Apply(t, l).h.consumed, |t.h.log|);
  }

  /** The messages begun by the steps `ls`, in order. */
  function Begun(ls: seq<Step>): seq<Frame> {
    if ls == [] then [] else (if ls[0].Begin? then [ls[0].frame] else []) + Begun(ls[1..])
  }

  /** The messages committed, and the one being written. */
  function Made(s: State): seq<Frame> {
    s.h.frames + if s.writer.Writing? then [s.writer.frame] else []
  }

  /** The messages committed are those begun, in the same order and each once; only the last one may be pending. */
  lemma {:induction false} FramesBegun(s: State, ls: seq<Step>, t: State)
    requires Runs(s, ls, t)
    ensures Made(t) == Made(s) + Begun(ls)
    decreases |ls|
  {
    if ls == [] {
      assert Made(s) + Begun(ls) == Made(s);
    } else {
      var u := Apply(s, ls[0]);
      FramesBegun(u, ls[1..], t);
      MadeStep(s, ls[0]);
      FramesAssoc(Made(s), if ls[0].Begin? then [ls[0].frame] else [], Begun(ls[1..]));
    }
  }

  lemma MadeStep(s: State, l: Step)
    requires Enabled(s, l)
    ensures Made(Apply(s, l)) == Made(s) + if l.Begin? then [l.frame] else []
  {
  }

  lemma FramesAssoc(a: seq<Frame>, b: seq<Frame>, c: seq<Frame>)
    ensures a + b + c == a + (b + c)
  {
  }

  /** A writer may begin a message after capture has stopped: what counts is what it found when it entered. */
  lemma LateWriter(s: State, f: Frame) returns (ls: seq<Step>, t: State)
    requires Initial(s) && s.capturing && 5 + |f.body| <= SIZE / 2
    ensures Runs(s, ls, t) && !t.capturing && Enabled(t, Begin(f, 5 + |f.body|))
  {
    var a := Apply(s, Enter);
    assert [Enter][1..] == [] && [Enter, Stop][1..] == [Stop] && [Stop][1..] == [];
    ls, t := [Enter, Stop], Apply(a, Stop);
    assert Free(t.readPos, t.writePos) == SIZE - 1;
  }

  // ---- A stop ----

  predicate Stops(sender: Sender) { sender == Stopping || sender.StopLoaded? || sender == Closing }

  /** In every run, capture is off while it is being stopped. */
  lemma {:induction false} OffWhileStopping(s: State, ls: seq<Step>, t: State)
    requires Runs(s, ls, t) && (Stops(s.sender) ==> !s.capturing)
    ensures Stops(t.sender) ==> !t.capturing
    decreases |ls|
  {
    if ls != [] { OffWhileStopping(Apply(s, ls[0]), ls[1..], t); }
  }

  /** After a send that fails, with no step of the writer in between: capture is off, what was unsent is skipped, the
      connection keeps what it carried, and its socket is closed if its number is positive. */
  lemma FailedSend(s: State, ls: seq<Step>, u: State) returns (ls': seq<Step>, t: State)
    requires Runs(s, ls, u) && Enabled(u, SendFails)
    ensures Runs(s, ls', t) && !t.capturing && t.sender == Away
    ensures t.readPos == u.writePos == t.writePos && t.writer == u.writer && t.buf == u.buf
    ensures t.h.consumed == |u.h.log| && t.h.log == u.h.log && t.h.base == |u.h.frames|
    ensures u.fd > 0 ==> t.fd == -1 && t.h.past == u.h.past + [u.h.connection]
    ensures u.fd <= 0 ==> t.fd == u.fd && t.h.past == u.h.past && t.h.connection == u.h.connection
  {
    ls', t := ls, u;
    RunsSnoc(s, ls', t, SendFails);
    ls', t := ls' + [SendFails], Apply(t, SendFails);
    RunsSnoc(s, ls', t, LoadTarget);
    ls', t := ls' + [LoadTarget], Apply(t, LoadTarget);
    RunsSnoc(s, ls', t, StoreTarget);
    ls', t := ls' + [StoreTarget], Apply(t, StoreTarget);
    RunsSnoc(s, ls', t, Close);
    ls', t := ls' + [Close], Apply(t, Close);
  }

  // ---- The descriptor number 0 ----

  /** The descriptors that a run hands out. */
  function Handed(ls: seq<Step>): set<int> {
    if ls == [] then {} else Handed(ls[..|ls| - 1]) + HandedBy(ls[|ls| - 1])
  }

  function HandedBy(l: Step): set<int> { if l.Connect? then {l.fd} else {} }

  lemma {:induction false} HandedNoZero(ls: seq<Step>)
    ensures 0 !in Handed(ls) <==> NoZero(ls)
  {
    if ls != [] {
      var n := |ls| - 1;
      HandedNoZero(ls[..n]);
      assert ls == ls[..n] + [ls[n]];
      assert forall i :: 0 <= i < n ==> ls[..n][i] == ls[i];
    }
  }

  lemma RunsSnoc(s: State, ls: seq<Step>, t: State, l: Step)
    requires Runs(s, ls, t) && Enabled(t, l)
    ensures Runs(s, ls + [l], Apply(t, l))
    ensures Handed(ls + [l]) == Handed(ls) + HandedBy(l)
  {
    RunsLonger(s, ls, t, l);
    assert (ls + [l])[..|ls|] == ls;
  }

  lemma {:induction false} RunsLonger(s: State, ls: seq<Step>, t: State, l: Step)
    requires Runs(s, ls, t) && Enabled(t, l)
    ensures Runs(s, ls + [l], Apply(t, l))
    decreases |ls|
  {
    if ls == [] {
      assert [l][1..] == [];
    } else {
      RunsLonger(Apply(s, ls[0]), ls[1..], t, l);
      assert (ls + [l])[1..] == ls[1..] + [l];
    }
  }

  /** The first `k` bytes of a message, stored one after the other. */
  lemma {:induction false} StoreFirst(s: State, ls: seq<Step>, u: State, k: nat)
    returns (ls': seq<Step>, t: State, stored: set<nat>)
    requires Runs(s, ls, u) && |u.buf| == SIZE && u.writer.Writing? && k <= |u.writer.raw|
    ensures Runs(s, ls', t) && Handed(ls') == Handed(ls)
    ensures t == HasStored(u, k, stored)
    ensures forall i :: 0 <= i < k ==> i in stored
    decreases k
  {
    if k == 0 {
      ls', t, stored := ls, u, u.writer.stored;
    } else {
      ls', t, stored := StoreFirst(s, ls, u, k - 1);
      StoreNextByte(u, k - 1, stored);
      RunsSnoc(s, ls', t, Store(k - 1));
      ls', t, stored := ls' + [Store(k - 1)], Apply(t, Store(k - 1)), stored + {k - 1};
    }
  }

  /** A writer that has stored the bytes before number `k`. */
  function HasStored(u: State, k: nat, stored: set<nat>): State
    requires |u.buf| == SIZE && u.writer.Writing? && k <= |u.writer.raw|
  {
    u.(buf := Stored(u.buf, u.writePos, u.writer.raw[..k]), writer := u.writer.(stored := stored))
  }

  lemma StoreNextByte(u: State, k: nat, stored: set<nat>)
    requires |u.buf| == SIZE && u.writer.Writing? && k < |u.writer.raw|
    ensures var t := HasStored(u, k, stored);
      Enabled(t, Store(k)) && Apply(t, Store(k)) == HasStored(u, k + 1, stored + {k})
  {
    assert u.writer.raw[..k + 1][..k] == u.writer.raw[..k];
  }

  /** A writer that has room can write a whole message without a step of the sender in between, and leaves the
      buffer as `Gator.Thread.WriteFrame` does. */
  lemma WriteWhole(s: State, ls: seq<Step>, u: State, f: Frame) returns (ls': seq<Step>, t: State)
    requires Runs(s, ls, u) && |u.buf| == SIZE && u.writer == Entered
    requires 5 + |f.body| <= SIZE / 2 && 5 + |f.body| <= Free(u.readPos, u.writePos)
    ensures Runs(s, ls', t) && Handed(ls') == Handed(ls)
    ensures t == u.(buf := Stored(u.buf, u.writePos, Raw(f)), writePos := Pos(u.writePos + 5 + |f.body|),
                    h := u.h.(frames := u.h.frames + [f], log := u.h.log + Raw(f)))
  {
    var begin, stored := Begin(f, 5 + |f.body|), {};
    RunsSnoc(s, ls, u, begin);
    ls', t, stored := StoreFirst(s, ls + [begin], Apply(u, begin), 5 + |f.body|);
    assert Raw(f)[..5 + |f.body|] == Raw(f);
    RunsSnoc(s, ls', t, Commit);
    ls', t := ls' + [Commit], Apply(t, Commit);
  }

  /** The state after the next `n` bytes of the ring were handed to the socket and read_pos has moved past them. */
  function Sent(u: State, n: nat): State
    requires |u.buf| == SIZE
  {
    var c := u.h.connection;
    u.(readPos := Pos(u.readPos + n),
       h := u.h.(consumed := u.h.consumed + n,
                 connection := c.(wire := c.wire + Slice(u.buf, u.readPos, n))))
  }

  lemma SentTwice(u: State, a: nat, b: nat)
    requires |u.buf| == SIZE
    ensures Sent(Sent(u, a), b) == Sent(u, a + b)
  {
    PosPlus(u.readPos + a, b);
    SliceAppend(u.buf, u.readPos, a, b);
    WireAssoc(u.h.connection.wire, Slice(u.buf, u.readPos, a), Slice(u.buf, Pos(u.readPos + a), b));
  }

  lemma WireAssoc(a: seq<byte>, b: seq<byte>, c: seq<byte>)
    ensures a + b + c == a + (b + c)
  {
  }

  /** One `send` that takes `n` bytes, and the store of read_pos after it. */
  lemma SendAndAdvance(s: State, ls: seq<Step>, u: State, n: nat) returns (ls': seq<Step>, t: State)
    requires Runs(s, ls, u) && Enabled(u, Send(n))
    ensures Runs(s, ls', t) && Handed(ls') == Handed(ls)
    ensures t == Sent(u, n).(sender := if u.sender.Snapped? && u.sender.snapshot <= u.readPos && n == Want(u)
                                       then Second(u.sender.snapshot) else Away)
  {
    RunsSnoc(s, ls, u, Send(n));
    var a := Apply(u, Send(n));
    RunsSnoc(s, ls + [Send(n)], a, Advance);
    ls', t := ls + [Send(n)] + [Advance], Apply(a, Advance);
  }

  /** A `gator_send` whose sends succeed is a run of these steps, and leaves read_pos and hands over the bytes that
      `Gator.Thread.Send` says. */
  lemma SendWhole(s: State, ls: seq<Step>, u: State, first: nat, second: nat) returns (ls': seq<Step>, t: State, n: nat)
    requires Runs(s, ls, u) && |u.buf| == SIZE && Enabled(u, Snapshot)
    requires 0 < first <= FirstWant(u.readPos, u.writePos)
    requires u.writePos <= u.readPos && first == SIZE - u.readPos ==> 0 < second <= u.writePos
    ensures n == Taken(u.readPos, u.writePos, first, second)
    ensures Runs(s, ls', t) && Handed(ls') == Handed(ls) && t == Sent(u, n)
  {
    n := first;
    ls', t := SendFirst(s, ls, u, first);
    if u.writePos <= u.readPos && first == SIZE - u.readPos {
      ls', t := SendSecond(s, ls', t, second);
      n := first + second;
      SentTwice(u, first, second);
    }
  }

  lemma SendFirst(s: State, ls: seq<Step>, u: State, first: nat) returns (ls': seq<Step>, t: State)
    requires Runs(s, ls, u) && |u.buf| == SIZE && Enabled(u, Snapshot)
    requires 0 < first <= FirstWant(u.readPos, u.writePos)
    ensures Runs(s, ls', t) && Handed(ls') == Handed(ls)
    ensures t == Sent(u, first).(sender := if u.writePos <= u.readPos && first == SIZE - u.readPos
                                           then Second(u.writePos) else Away)
  {
    RunsSnoc(s, ls, u, Snapshot);
    ls', t := SendAndAdvance(s, ls + [Snapshot], Apply(u, Snapshot), first);
  }

  lemma SendSecond(s: State, ls: seq<Step>, u: State, second: nat) returns (ls': seq<Step>, t: State)
    requires Runs(s, ls, u) && |u.buf| == SIZE && u.sender.Second? && 0 < second <= u.sender.snapshot
    ensures Runs(s, ls', t) && Handed(ls') == Handed(ls) && t == Sent(u, second).(sender := Away)
  {
    ls', t := SendAndAdvance(s, ls, u, second);
  }

  /** The sender finds bytes to send, and the socket takes one of them. */
  lemma SendOne(s: State, ls: seq<Step>, u: State) returns (ls': seq<Step>, t: State)
    requires Initial(s) && Runs(s, ls, u) && u.capturing && u.sender == Away && u.fd >= 0 && u.writePos > u.readPos
    ensures Runs(s, ls', t) && Handed(ls') == Handed(ls) && u.h.consumed < |u.h.log|
    ensures t == u.(readPos := t.readPos,
                    h := u.h.(consumed := u.h.consumed + 1,
                              connection := u.h.connection.(
                                wire := u.h.connection.wire + [u.h.log[u.h.consumed]])))
  {
    InitialOk(s);
    RingRuns(s, ls, u);
    var n;
    ls', t, n := SendWhole(s, ls, u, 1, 0);
    SliceHolds(u.buf, u.h.consumed, u.h.log, 1);
  }

  /** Capture stops, with a socket that is not closed, and starts again. */
  lemma StopAndRestart(s: State, ls: seq<Step>, u: State) returns (ls': seq<Step>, t: State)
    requires Runs(s, ls, u) && u.capturing && u.sender == Away && u.fd == 0
    ensures Runs(s, ls', t) && Handed(ls') == Handed(ls)
    ensures t == u.(readPos := u.writePos, h := u.h.(consumed := |u.h.log|, base := |u.h.frames|))
  {
    ls', t := ls, u;
    RunsSnoc(s, ls', t, Stop);
    ls', t := ls' + [Stop], Apply(t, Stop);
    RunsSnoc(s, ls', t, LoadTarget);
    ls', t := ls' + [LoadTarget], Apply(t, LoadTarget);
    RunsSnoc(s, ls', t, StoreTarget);
    ls', t := ls' + [StoreTarget], Apply(t, StoreTarget);
    RunsSnoc(s, ls', t, Close);
    ls', t := ls' + [Close], Apply(t, Close);
    RunsSnoc(s, ls', t, Restart);
    ls', t := ls' + [Restart], Apply(t, Restart);
  }

  /** Capture is on, and nothing else has happened. */
  lemma Started(s: State) returns (ls: seq<Step>, t: State)
    requires Initial(s)
    ensures Runs(s, ls, t) && Handed(ls) == {} && t == s.(capturing := true)
  {
    ls, t := [], s;
    if !s.capturing {
      RunsSnoc(s, [], s, Restart);
      ls, t := [] + [Restart], Apply(s, Restart);
    }
  }

  /** A message is committed while a connection with descriptor 0 is open. */
  lemma ZeroWritten(s: State) returns (ls: seq<Step>, t: State)
    requires Initial(s)
    ensures Runs(s, ls, t) && Handed(ls) == {0}
    ensures t.capturing && t.writer == Entered && t.sender == Away && t.fd == 0
    ensures t.readPos == 0 && t.writePos == 5 && t.h.consumed == 0
    ensures t.h.frames == [Frame(1, [])] && t.h.log == [1, 0, 0, 0, 0] && t.h.connection == Connection(0, [])
  {
    ls, t := Started(s);
    RunsSnoc(s, ls, t, Connect(0));
    ls, t := ls + [Connect(0)], Apply(t, Connect(0));
    RunsSnoc(s, ls, t, Enter);
    ls, t := ls + [Enter], Apply(t, Enter);
    assert Free(t.readPos, t.writePos) == SIZE - 1;
    ls, t := WriteWhole(s, ls, t, Frame(1, []));
    assert Raw(Frame(1, [])) == [1, 0, 0, 0, 0];
  }

  /** One byte of it is sent before capture stops and restarts. */
  lemma ZeroStopped(s: State) returns (ls: seq<Step>, t: State)
    requires Initial(s)
    ensures Runs(s, ls, t) && Handed(ls) == {0}
    ensures t.capturing && t.writer == Entered && t.sender == Away && t.fd == 0 && |t.buf| == SIZE
    ensures t.readPos == t.writePos == 5 && t.h.consumed == 5
    ensures t.h.frames == [Frame(1, [])] && t.h.log == [1, 0, 0, 0, 0] && t.h.connection == Connection(0, [1])
  {
    ls, t := ZeroWritten(s);
    ls, t := SendOne(s, ls, t);
    ls, t := StopAndRestart(s, ls, t);
    InitialOk(s);
    RingRuns(s, ls, t);
  }

  /** The condition on descriptors is needed: number 0 passes for a socket but is not closed when capture stops, so
      after a restart the same connection goes on with another message in the middle of the first one. */
  lemma ZeroBreaksDelivery(s: State) returns (ls: seq<Step>, t: State)
    requires Initial(s)
    ensures Runs(s, ls, t) && Handed(ls) == {0} && t.fd == 0 && AllSized(t.h.frames)
    ensures t.h.connection.first == 0 && !(t.h.connection.wire <= Stream(t.h.frames))
  {
    ls, t := ZeroStopped(s);
    assert Free(t.readPos, t.writePos) == SIZE - 1;
    ls, t := WriteWhole(s, ls, t, Frame(2, []));
    assert t.h.log == [1, 0, 0, 0, 0] + [2, 0, 0, 0, 0];
    ls, t := SendOne(s, ls, t);
    assert t.h.connection.wire == [1, 2];
    assert t.h.frames[0] == Frame(1, []) && Stream(t.h.frames)[1] == 0;
  }

  /** Every connection carries a prefix of whole committed messages, from the start of one on. */
  ghost predicate Delivers(t: State) {
    AllSized(t.h.frames) && forall c :: c in Connections(t) ==>
      c.first <= |t.h.frames| && c.wire <= Stream(t.h.frames[c.first..])
  }

  /** Delivery in every run that hands out descriptors from `fds` only. */
  ghost predicate AlwaysDelivers(s: State, fds: set<int>) {
    forall ls, t :: Runs(s, ls, t) && Handed(ls) <= fds ==> Delivers(t)
  }

  /** The channel delivers in every run, from any initial state, if and only if descriptor 0 is never handed out. */
  lemma DeliveryExact(s: State, fds: set<int>)
    requires Initial(s)
    ensures AlwaysDelivers(s, fds) <==> 0 !in fds
  {
    if 0 in fds {
      var ls, t := ZeroBreaksDelivery(s);
      NotDelivered(t);
    } else {
      forall ls, t | Runs(s, ls, t) && Handed(ls) <= fds ensures Delivers(t) {
        HandedNoZero(ls);
        RunDelivers(s, ls, t);
      }
    }
  }

  lemma NotDelivered(t: State)
    requires AllSized(t.h.frames) && t.fd == 0
    requires t.h.connection.first == 0 && !(t.h.connection.wire <= Stream(t.h.frames))
    ensures !Delivers(t)
  {
    assert t.h.connection in Connections(t);
    assert t.h.frames[0..] == t.h.frames;
  }

  lemma RunDelivers(s: State, ls: seq<Step>, t: State)
    requires Initial(s) && Runs(s, ls, t) && NoZero(ls)
    ensures Delivers(t)
  {
    InitialOk(s);
    WireRuns(s, ls, t);
    forall c | c in Connections(t)
      ensures c.first <= |t.h.frames| && c.wire <= Stream(t.h.frames[c.first..])
    {
      Delivery(s, ls, t, c);
    }
  }
}
