/**
 * The annotation messages: what each writer puts on the wire, how much room it reserves first, and the
 * receiver's decoder.
 *
 * A message is one marker byte, the length of the body as a little-endian word, and the body, a list of
 * fields. `Fields` lists, per message, the fields that its writer emits, in the writer's order.
 */
module Messages {
  import opened Bytes
  import opened Leb128
  import opened Ring
  import opened Framing

  /** Text is a C string without its terminator, so it holds no NUL. */
  type Text = seq<byte>

  datatype Activity = Activity(name: Text, color: uint32)

  datatype Message =
    | Str(time: uint64, channel: uint32, str: Text)
    | ColorStr(time: uint64, channel: uint32, color: uint32, str: Text)
    | NameChannel(time: uint64, channel: uint32, group: uint32, str: Text)
    | NameGroup(time: uint64, group: uint32, str: Text)
    | Marker(time: uint64, str: Text)
    | MarkerColor(time: uint64, color: uint32, str: Text)
    | Counter(id: uint32, perCpu: uint32, class_: uint32, display: uint32, modifier: uint32,
              composition: uint32, rendering: uint32, averageSelection: uint32, averageCores: uint32,
              percentage: uint32, activities: seq<Activity>, cores: uint32, color: uint32,
              title: Text, name: Text, units: Text, description: Text)
    | CounterValue(time: uint64, core: uint32, id: uint32, value: uint32)
    | ActivitySwitch(time: uint64, core: uint32, id: uint32, activity: uint32, tid: uint32)
    | CamTrack(view: uint32, track: uint32, parent: uint32, name: Text)
    | CamJob(view: uint32, job: uint32, track: uint32, start: uint64, duration: uint64, color: uint32,
             primary: uint32, dependencies: seq<uint32>, name: Text)
    | CamViewName(view: uint32, name: Text)
    | CamJobStart(view: uint32, job: uint32, track: uint32, time: uint64, color: uint32, name: Text)
    | CamJobSetDeps(view: uint32, job: uint32, time: uint64, primary: uint32, dependencies: seq<uint32>)
    | CamJobStop(view: uint32, job: uint32, time: uint64)

  // ---- Fields ----

  datatype Kind = KInt | KLong | KColor | KText | KLine

  /** A line is a text with its NUL; a bare text runs to the end of the body. */
  datatype Field = Int(w: uint32) | Long(l: uint64) | Rgb(c: uint32) | Tail(s: Text) | Line(s: Text)
  {
    function Kind(): Kind {
      match this
      case Int(_) => KInt
      case Long(_) => KLong
      case Rgb(_) => KColor
      case Tail(_) => KText
      case Line(_) => KLine
    }

    function Bytes(): seq<byte> {
      match this
      case Int(w) => Pack(AsInt32(w))
      case Long(l) => Pack(AsInt64(l))
      case Rgb(c) => Color(c)
      case Tail(s) => s
      case Line(s) => s + [0]
    }
  }

  function Kinds(fs: seq<Field>): (ks: seq<Kind>)
    ensures |ks| == |fs|
  {
    seq<Kind>(|fs|, i requires 0 <= i < |fs| => fs[i].Kind())
  }

  lemma KindsAppend(a: seq<Field>, b: seq<Field>)
    ensures Kinds(a + b) == Kinds(a) + Kinds(b)
  {
  }

  function Body(fs: seq<Field>): seq<byte> {
    if fs == [] then [] else fs[0].Bytes() + Body(fs[1..])
  }

  lemma {:induction false} BodyAppend(a: seq<Field>, b: seq<Field>)
    ensures Body(a + b) == Body(a) + Body(b)
    decreases |a|
  {
    if a == [] {
      assert a + b == b;
    } else {
      assert (a + b)[1..] == a[1..] + b;
      BodyAppend(a[1..], b);
    }
  }

  /** The body of one more field. */
  lemma BodyStep(fs: seq<Field>, i: nat)
    requires i < |fs|
    ensures Body(fs[..i + 1]) == Body(fs[..i]) + fs[i].Bytes()
    ensures |Body(fs[..i])| + |fs[i].Bytes()| <= |Body(fs)|
  {
    var a, f, b := fs[..i], fs[i], fs[i + 1..];
    assert fs[..i + 1] == a + [f];
    assert fs == (a + [f]) + b;
    BodyAppend(a, [f]);
    BodyAppend(a + [f], b);
    assert Body([f]) == f.Bytes() + Body([]) == f.Bytes();
  }

  function Ints(ws: seq<uint32>): (fs: seq<Field>) {
    seq<Field>(|ws|, i requires 0 <= i < |ws| => Int(ws[i]))
  }

  function ActivityFields(acts: seq<Activity>): (fs: seq<Field>)
    ensures |fs| == 2 * |acts|
  {
    if acts == [] then [] else [Line(acts[0].name), Rgb(acts[0].color)] + ActivityFields(acts[1..])
  }

  // ---- What the writers emit and reserve ----

  /** Sizes that the source holds in 32-bit variables do not wrap there. */
  predicate Countable(m: Message) {
    && (m.Counter? ==> |m.activities| < 0x8000_0000)
    && (m.CamJob? || m.CamJobSetDeps? ==> |m.dependencies| < 0x8000_0000)
  }

  predicate Valid(m: Message) {
    && Countable(m)
    && Sized(ToFrame(m))
    && forall f <- Fields(m) :: f.Line? ==> 0 !in f.s
  }

  function Header(m: Message): byte {
    match m
    case Str(_, _, _) => 1
    case ColorStr(_, _, _, _) => 2
    case NameChannel(_, _, _, _) => 3
    case NameGroup(_, _, _) => 4
    case Marker(_, _) => 6
    case MarkerColor(_, _, _) => 7
    case Counter(_, _, _, _, _, _, _, _, _, _, _, _, _, _, _, _, _) => 8
    case CounterValue(_, _, _, _) => 9
    case ActivitySwitch(_, _, _, _, _) => 10
    case CamTrack(_, _, _, _) => 11
    case CamJob(_, _, _, _, _, _, _, _, _) => 12
    case CamViewName(_, _) => 13
    case CamJobStart(_, _, _, _, _, _) => 14
    case CamJobSetDeps(_, _, _, _, _) => 15
    case CamJobStop(_, _, _) => 16
  }

  /** The eleven numbers of a counter up to the number of its activities. */
  function CounterHead(m: Message): (fs: seq<Field>)
    requires m.Counter? && Countable(m)
  {
    [Int(m.id), Int(m.perCpu), Int(m.class_), Int(m.display), Int(m.modifier), Int(m.composition)]
    + [Int(m.rendering), Int(m.averageSelection), Int(m.averageCores), Int(m.percentage), Int(|m.activities|)]
  }

  /** The fields of a counter after the number of its activities. */
  function CounterTail(m: Message): (fs: seq<Field>)
    requires m.Counter?
  {
    [Int(m.cores), Rgb(m.color)]
    + (ActivityFields(m.activities) + [Line(m.title), Line(m.name), Line(m.units), Tail(m.description)])
  }

  function Fields(m: Message): seq<Field>
    requires Countable(m)
  {
    match m
    case Str(t, ch, s) => [Long(t), Int(ch), Tail(s)]
    case ColorStr(t, ch, c, s) => [Long(t), Int(ch), Rgb(c), Tail(s)]
    case NameChannel(t, ch, g, s) => [Long(t), Int(ch), Int(g), Tail(s)]
    case NameGroup(t, g, s) => [Long(t), Int(g), Tail(s)]
    case Marker(t, s) => [Long(t), Tail(s)]
    case MarkerColor(t, c, s) => [Long(t), Rgb(c), Tail(s)]
    case Counter(_, _, _, _, _, _, _, _, _, _, _, _, _, _, _, _, _) =>
      CounterHead(m) + CounterTail(m)
    case CounterValue(t, core, id, v) => [Long(t), Int(core), Int(id), Int(v)]
    case ActivitySwitch(t, core, id, a, tid) => [Long(t), Int(core), Int(id), Int(a), Int(tid)]
    case CamTrack(v, tr, p, n) => [Int(v), Int(tr), Int(p), Tail(n)]
    case CamJob(v, j, tr, st, du, c, p, deps, n) =>
      [Int(v), Int(j), Int(tr), Long(st), Long(du), Rgb(c), Int(p), Int(|deps|)] + (Ints(deps) + [Tail(n)])
    case CamViewName(v, n) => [Int(v), Tail(n)]
    case CamJobStart(v, j, tr, t, c, n) => [Int(v), Int(j), Int(tr), Long(t), Rgb(c), Tail(n)]
    case CamJobSetDeps(v, j, t, p, deps) => [Int(v), Int(j), Long(t), Int(p), Int(|deps|)] + Ints(deps)
    case CamJobStop(v, j, t) => [Int(v), Int(j), Long(t)]
  }

  function ToFrame(m: Message): Frame
    requires Countable(m)
  {
    Frame(Header(m), Body(Fields(m)))
  }

  function Packed(w: uint32): seq<byte> { Pack(AsInt32(w)) }

  function Packed64(l: uint64): seq<byte> { Pack(AsInt64(l)) }

  /** The markers. */
  lemma Markers(m: Message)
    ensures m.Str? ==> Header(m) == 0x01
    ensures m.ColorStr? ==> Header(m) == 0x02
    ensures m.NameChannel? ==> Header(m) == 0x03
    ensures m.NameGroup? ==> Header(m) == 0x04
    ensures m.Marker? ==> Header(m) == 0x06
    ensures m.MarkerColor? ==> Header(m) == 0x07
    ensures m.Counter? ==> Header(m) == 0x08
    ensures m.CounterValue? ==> Header(m) == 0x09
    ensures m.ActivitySwitch? ==> Header(m) == 0x0a
    ensures m.CamTrack? ==> Header(m) == 0x0b
    ensures m.CamJob? ==> Header(m) == 0x0c
    ensures m.CamViewName? ==> Header(m) == 0x0d
    ensures m.CamJobStart? ==> Header(m) == 0x0e
    ensures m.CamJobSetDeps? ==> Header(m) == 0x0f
    ensures m.CamJobStop? ==> Header(m) == 0x10
  {
  }

  lemma Two(a: Field, b: Field)
    ensures Body([a, b]) == a.Bytes() + b.Bytes()
  {
    OneLast([a], b);
    assert [a] + [b] == [a, b] && [a][1..] == [] && Body([a]) == a.Bytes();
  }

  lemma Three(a: Field, b: Field, c: Field)
    ensures Body([a, b, c]) == a.Bytes() + b.Bytes() + c.Bytes()
  {
    Two(a, b);
    OneLast([a, b], c);
    assert [a, b] + [c] == [a, b, c];
  }

  lemma Four(a: Field, b: Field, c: Field, d: Field)
    ensures Body([a, b, c, d]) == a.Bytes() + b.Bytes() + c.Bytes() + d.Bytes()
  {
    Three(a, b, c);
    OneLast([a, b, c], d);
    assert [a, b, c] + [d] == [a, b, c, d];
  }

  lemma Five(a: Field, b: Field, c: Field, d: Field, e: Field)
    ensures Body([a, b, c, d, e]) == a.Bytes() + b.Bytes() + c.Bytes() + d.Bytes() + e.Bytes()
  {
    Four(a, b, c, d);
    OneLast([a, b, c, d], e);
    assert [a, b, c, d] + [e] == [a, b, c, d, e];
  }

  lemma Six(a: Field, b: Field, c: Field, d: Field, e: Field, f: Field)
    ensures Body([a, b, c, d, e, f]) == a.Bytes() + b.Bytes() + c.Bytes() + d.Bytes() + e.Bytes() + f.Bytes()
  {
    Five(a, b, c, d, e);
    OneLast([a, b, c, d, e], f);
    assert [a, b, c, d, e] + [f] == [a, b, c, d, e, f];
  }

  lemma OneLast(fs: seq<Field>, f: Field)
    ensures Body(fs + [f]) == Body(fs) + f.Bytes()
  {
    BodyAppend(fs, [f]);
    assert [f][1..] == [] && Body([f]) == f.Bytes();
  }

  /** The bodies of the annotations of channels, groups and markers. */
  lemma TextFormat(m: Message)
    requires Countable(m)
    ensures m.Str? ==> Body(Fields(m)) == Packed64(m.time) + Packed(m.channel) + m.str
    ensures m.ColorStr? ==> Body(Fields(m)) == Packed64(m.time) + Packed(m.channel) + Color(m.color) + m.str
    ensures m.NameChannel? ==> Body(Fields(m)) == Packed64(m.time) + Packed(m.channel) + Packed(m.group) + m.str
    ensures m.NameGroup? ==> Body(Fields(m)) == Packed64(m.time) + Packed(m.group) + m.str
    ensures m.Marker? ==> Body(Fields(m)) == Packed64(m.time) + m.str
    ensures m.MarkerColor? ==> Body(Fields(m)) == Packed64(m.time) + Color(m.color) + m.str
  {
    match m
    case Str(t, ch, s) => Three(Long(t), Int(ch), Tail(s));
    case ColorStr(t, ch, c, s) => Four(Long(t), Int(ch), Rgb(c), Tail(s));
    case NameChannel(t, ch, g, s) => Four(Long(t), Int(ch), Int(g), Tail(s));
    case NameGroup(t, g, s) => Three(Long(t), Int(g), Tail(s));
    case Marker(t, s) => Two(Long(t), Tail(s));
    case MarkerColor(t, c, s) => Three(Long(t), Rgb(c), Tail(s));
    case _ =>
  }

  /** The bodies of counter values and of views. */
  lemma ViewFormat(m: Message)
    requires Countable(m)
    ensures m.CounterValue? ==>
      Body(Fields(m)) == Packed64(m.time) + Packed(m.core) + Packed(m.id) + Packed(m.value)
    ensures m.ActivitySwitch? ==>
      Body(Fields(m)) == Packed64(m.time) + Packed(m.core) + Packed(m.id) + Packed(m.activity) + Packed(m.tid)
    ensures m.CamTrack? ==> Body(Fields(m)) == Packed(m.view) + Packed(m.track) + Packed(m.parent) + m.name
    ensures m.CamViewName? ==> Body(Fields(m)) == Packed(m.view) + m.name
    ensures m.CamJobStart? ==>
      Body(Fields(m)) == Packed(m.view) + Packed(m.job) + Packed(m.track) + Packed64(m.time) + Color(m.color) + m.name
    ensures m.CamJobStop? ==> Body(Fields(m)) == Packed(m.view) + Packed(m.job) + Packed64(m.time)
  {
    match m
    case CounterValue(t, core, id, v) => Four(Long(t), Int(core), Int(id), Int(v));
    case ActivitySwitch(t, core, id, a, tid) => Five(Long(t), Int(core), Int(id), Int(a), Int(tid));
    case CamTrack(v, tr, p, n) => Four(Int(v), Int(tr), Int(p), Tail(n));
    case CamViewName(v, n) => Two(Int(v), Tail(n));
    case CamJobStart(v, j, tr, t, c, n) => Six(Int(v), Int(j), Int(tr), Long(t), Rgb(c), Tail(n));
    case CamJobStop(v, j, t) => Three(Int(v), Int(j), Long(t));
    case _ =>
  }

  /** A list of packed numbers, one after the other. */
  function PackedAll(ws: seq<uint32>): seq<byte> {
    if ws == [] then [] else Packed(ws[0]) + PackedAll(ws[1..])
  }

  lemma {:induction false} BodyOfInts(ws: seq<uint32>)
    ensures Body(Ints(ws)) == PackedAll(ws)
    decreases |ws|
  {
    if ws != [] {
      assert Ints(ws)[1..] == Ints(ws[1..]);
      BodyOfInts(ws[1..]);
    }
  }

  /** The bodies of jobs: the number of dependencies comes before them. */
  lemma JobFormat(m: Message)
    requires m.CamJob? && Countable(m)
    ensures Body(Fields(m))
         == (Packed(m.view) + Packed(m.job) + Packed(m.track) + Packed64(m.start) + Packed64(m.duration) + Color(m.color))
            + ((Packed(m.primary) + Packed(|m.dependencies|)) + (PackedAll(m.dependencies) + m.name))
  {
    var a := [Int(m.view), Int(m.job), Int(m.track), Long(m.start), Long(m.duration), Rgb(m.color)];
    var b, deps := [Int(m.primary), Int(|m.dependencies|)], Ints(m.dependencies);
    assert Fields(m) == a + (b + (deps + [Tail(m.name)]));
    BodyAppend(a, b + (deps + [Tail(m.name)]));
    BodyAppend(b, deps + [Tail(m.name)]);
    OneLast(deps, Tail(m.name));
    Six(Int(m.view), Int(m.job), Int(m.track), Long(m.start), Long(m.duration), Rgb(m.color));
    Two(Int(m.primary), Int(|m.dependencies|));
    BodyOfInts(m.dependencies);
  }

  lemma SetDepsFormat(m: Message)
    requires m.CamJobSetDeps? && Countable(m)
    ensures Body(Fields(m)) == (Packed(m.view) + Packed(m.job) + Packed64(m.time) + Packed(m.primary)
                                + Packed(|m.dependencies|)) + PackedAll(m.dependencies)
  {
    var a := [Int(m.view), Int(m.job), Long(m.time), Int(m.primary), Int(|m.dependencies|)];
    BodyAppend(a, Ints(m.dependencies));
    Five(Int(m.view), Int(m.job), Long(m.time), Int(m.primary), Int(|m.dependencies|));
    BodyOfInts(m.dependencies);
  }

  /** Activities: each name with its NUL, then its colour. */
  function ActivityBytes(acts: seq<Activity>): seq<byte> {
    if acts == [] then [] else acts[0].name + [0] + Color(acts[0].color) + ActivityBytes(acts[1..])
  }

  lemma {:induction false} BodyOfActivities(acts: seq<Activity>)
    ensures Body(ActivityFields(acts)) == ActivityBytes(acts)
    decreases |acts|
  {
    if acts != [] {
      var first := [Line(acts[0].name), Rgb(acts[0].color)];
      BodyAppend(first, ActivityFields(acts[1..]));
      Two(Line(acts[0].name), Rgb(acts[0].color));
      BodyOfActivities(acts[1..]);
    }
  }

  /** The body of a counter: eleven numbers, the last of which is the number of activities, then the cores, the colour,
      the activities and the texts. */
  lemma CounterFormat(m: Message)
    requires m.Counter? && Countable(m)
    ensures Body(Fields(m))
         == PackedAll([m.id, m.perCpu, m.class_, m.display, m.modifier, m.composition])
            + PackedAll([m.rendering, m.averageSelection, m.averageCores, m.percentage, |m.activities|])
            + ((Packed(m.cores) + Color(m.color))
               + (ActivityBytes(m.activities) + (m.title + [0] + (m.name + [0]) + (m.units + [0]) + m.description)))
  {
    var a := [m.id, m.perCpu, m.class_, m.display, m.modifier, m.composition];
    var b := [m.rendering, m.averageSelection, m.averageCores, m.percentage, |m.activities|];
    var numbers, acts := [Int(m.cores), Rgb(m.color)], ActivityFields(m.activities);
    var texts := [Line(m.title), Line(m.name), Line(m.units), Tail(m.description)];
    assert CounterHead(m) == Ints(a) + Ints(b);
    BodyAppend(Ints(a), Ints(b));
    BodyOfInts(a);
    BodyOfInts(b);
    BodyAppend(CounterHead(m), numbers + (acts + texts));
    BodyAppend(numbers, acts + texts);
    BodyAppend(acts, texts);
    Two(Int(m.cores), Rgb(m.color));
    BodyOfActivities(m.activities);
    Four(Line(m.title), Line(m.name), Line(m.units), Tail(m.description));
  }

  const INT := 5
  const LONG := 10
  const COLOR := 4

  function ActivitySize(acts: seq<Activity>): nat {
    if acts == [] then 0 else |acts[0].name| + COLOR + ActivitySize(acts[1..])
  }

  /** The argument of `gator_buf_wait_bytes` in each writer. */
  function Reserve(m: Message): nat {
    5 + match m
    case Str(_, _, s) => LONG + INT + |s|
    case ColorStr(_, _, _, s) => LONG + INT + COLOR + |s|
    case NameChannel(_, _, _, s) => LONG + 2 * INT + |s|
    case NameGroup(_, _, s) => LONG + INT + |s|
    case Marker(_, s) => LONG + |s|
    case MarkerColor(_, _, s) => LONG + COLOR + |s|
    case Counter(_, _, _, _, _, _, _, _, _, _, acts, _, _, title, name, units, desc) =>
      12 * INT + COLOR + ActivitySize(acts) + |title| + 1 + |name| + 1 + |units| + 1 + |desc|
    case CounterValue(_, _, _, _) => LONG + 3 * INT
    case ActivitySwitch(_, _, _, _, _) => LONG + 4 * INT
    case CamTrack(_, _, _, n) => 3 * INT + |n|
    case CamJob(_, _, _, _, _, _, _, deps, n) => 5 * INT + 2 * LONG + COLOR + |deps| * INT + |n|
    case CamViewName(_, n) => INT + |n|
    case CamJobStart(_, _, _, _, _, n) => 3 * INT + LONG + COLOR + |n|
    case CamJobSetDeps(_, _, _, _, deps) => 4 * INT + LONG + |deps| * INT
    case CamJobStop(_, _, _) => 2 * INT + LONG
  }

  // ---- No writer emits more than it reserved, except a counter with many activities ----

  /** The most bytes a field can take; numbers vary, the other fields take exactly this. */
  function Room(f: Field): nat {
    match f
    case Int(_) => INT
    case Long(_) => LONG
    case Rgb(_) => COLOR
    case Tail(s) => |s|
    case Line(s) => |s| + 1
  }

  function RoomAt(fs: seq<Field>, i: nat): nat {
    if i < |fs| then Room(fs[i]) else 0
  }

  lemma FieldRoom(f: Field)
    ensures |f.Bytes()| <= Room(f)
    ensures !f.Int? && !f.Long? ==> |f.Bytes()| == Room(f)
  {
    WordSizes(if f.Int? then f.w else 0, if f.Long? then f.l else 0);
  }

  lemma {:induction false} ShortBody(fs: seq<Field>)
    requires |fs| <= 6
    ensures |Body(fs)| <= RoomAt(fs, 0) + RoomAt(fs, 1) + RoomAt(fs, 2) + RoomAt(fs, 3) + RoomAt(fs, 4) + RoomAt(fs, 5)
    ensures (forall f <- fs :: !f.Int? && !f.Long?) ==>
              |Body(fs)| == RoomAt(fs, 0) + RoomAt(fs, 1) + RoomAt(fs, 2) + RoomAt(fs, 3) + RoomAt(fs, 4) + RoomAt(fs, 5)
    decreases |fs|
  {
    if fs != [] {
      FieldRoom(fs[0]);
      ShortBody(fs[1..]);
    }
  }

  lemma {:induction false} IntsBody(ws: seq<uint32>)
    ensures |Body(Ints(ws))| <= INT * |ws|
    decreases |ws|
  {
    if ws != [] {
      assert Ints(ws)[1..] == Ints(ws[1..]);
      IntsBody(ws[1..]);
      WordSizes(ws[0], 0);
    }
  }

  /** Each activity takes one byte, its NUL, that the reservation leaves out. */
  lemma {:induction false} ActivityBody(acts: seq<Activity>)
    ensures |Body(ActivityFields(acts))| == ActivitySize(acts) + |acts|
    decreases |acts|
  {
    if acts != [] {
      var first := [Line(acts[0].name), Rgb(acts[0].color)];
      BodyAppend(first, ActivityFields(acts[1..]));
      ShortBody(first);
      ActivityBody(acts[1..]);
    }
  }

  /** The packed size of the twelve numbers of a counter message. */
  function CounterInts(m: Message): nat
    requires m.Counter? && Countable(m)
  {
    |Body(CounterHead(m))| + |Body([Int(m.cores)])|
  }

  lemma CounterIntsFit(m: Message)
    requires m.Counter? && Countable(m)
    ensures CounterInts(m) <= 12 * INT
  {
    var a := [Int(m.id), Int(m.perCpu), Int(m.class_), Int(m.display), Int(m.modifier), Int(m.composition)];
    var b := [Int(m.rendering), Int(m.averageSelection), Int(m.averageCores), Int(m.percentage), Int(|m.activities|)];
    BodyAppend(a, b);
    ShortBody(a);
    ShortBody(b);
    ShortBody([Int(m.cores)]);
  }

  lemma FourParts(a: seq<Field>, b: seq<Field>, c: seq<Field>, d: seq<Field>)
    ensures |Body(a + (b + (c + d)))| == |Body(a)| + |Body(b)| + |Body(c)| + |Body(d)|
  {
    BodyAppend(a, b + (c + d));
    BodyAppend(b, c + d);
    BodyAppend(c, d);
  }

  /** A counter message stays within its reservation exactly when its activities' NULs fit in the bytes
      that its numbers left unused. */
  lemma CounterFits(m: Message)
    requires m.Counter? && Countable(m)
    ensures 5 + |Body(Fields(m))| <= Reserve(m) <==> |m.activities| <= 12 * INT - CounterInts(m)
    ensures 5 + |Body(Fields(m))| - Reserve(m) == |m.activities| - (12 * INT - CounterInts(m))
  {
    var numbers := [Int(m.cores), Rgb(m.color)];
    var texts := [Line(m.title), Line(m.name), Line(m.units), Tail(m.description)];
    FourParts(CounterHead(m), numbers, ActivityFields(m.activities), texts);
    assert |Body(numbers)| == |Body([Int(m.cores)])| + COLOR by {
      BodyAppend([Int(m.cores)], [Rgb(m.color)]);
      ShortBody([Rgb(m.color)]);
      assert numbers == [Int(m.cores)] + [Rgb(m.color)];
    }
    ActivityBody(m.activities);
    ShortBody(texts);
  }

  lemma CamJobFits(m: Message)
    requires m.CamJob? && Countable(m)
    ensures 5 + |Body(Fields(m))| <= Reserve(m)
  {
    var a := [Int(m.view), Int(m.job), Int(m.track), Long(m.start), Long(m.duration), Rgb(m.color)];
    var b := [Int(m.primary), Int(|m.dependencies|)];
    var deps := Ints(m.dependencies);
    assert Fields(m) == a + (b + (deps + [Tail(m.name)]));
    FourParts(a, b, deps, [Tail(m.name)]);
    IntsBody(m.dependencies);
    ShortBody(a);
    ShortBody(b);
    ShortBody([Tail(m.name)]);
  }

  /** Every message without activities fits its reservation. */
  lemma Fits(m: Message)
    requires Countable(m)
    requires m.Counter? ==> m.activities == []
    ensures 5 + |Body(Fields(m))| <= Reserve(m)
  {
    if m.Counter? {
      CounterFits(m);
      CounterIntsFit(m);
    } else if m.CamJob? {
      CamJobFits(m);
    } else if m.CamJobSetDeps? {
      SetDepsFits(m);
    } else if Header(m) <= 7 {
      TextFits(m);
    } else {
      PlainFits(m);
    }
  }

  lemma SetDepsFits(m: Message)
    requires m.CamJobSetDeps? && Countable(m)
    ensures 5 + |Body(Fields(m))| <= Reserve(m)
  {
    var a := [Int(m.view), Int(m.job), Long(m.time), Int(m.primary), Int(|m.dependencies|)];
    BodyAppend(a, Ints(m.dependencies));
    IntsBody(m.dependencies);
    ShortBody(a);
  }

  lemma TextFits(m: Message)
    requires Countable(m) && Header(m) <= 7
    ensures 5 + |Body(Fields(m))| <= Reserve(m)
  {
    ShortBody(Fields(m));
  }

  lemma PlainFits(m: Message)
    requires Countable(m) && Header(m) > 7 && !m.Counter? && !m.CamJob? && !m.CamJobSetDeps?
    ensures 5 + |Body(Fields(m))| <= Reserve(m)
  {
    ShortBody(Fields(m));
  }

  /** The twelve numbers of a counter at their largest leave four spare bytes; the fifth activity overruns. */
  lemma CounterOverrun() returns (m: Message)
    ensures m.Counter? && Countable(m) && |m.activities| == 5
    ensures 5 + |Body(Fields(m))| == Reserve(m) + 1
  {
    var w, a := 0x8000_0000, Activity([], 0);
    m := Counter(w, w, w, w, w, w, w, w, w, w, [a, a, a, a, a], w, 0, [], [], [], []);
    CounterFits(m);
    LargeCounter(m, w);
  }

  lemma LargeCounter(m: Message, w: uint32)
    requires m.Counter? && Countable(m) && w == 0x8000_0000 && |m.activities| == 5
    requires m.id == m.perCpu == m.class_ == m.display == m.modifier == m.composition == m.rendering == w
    requires m.averageSelection == m.averageCores == m.percentage == m.cores == w
    ensures CounterInts(m) == 56
  {
    var six, four := [Int(w), Int(w), Int(w), Int(w), Int(w), Int(w)], [Int(w), Int(w), Int(w), Int(w)];
    assert CounterHead(m) == six + (four + [Int(5)]);
    BodyAppend(six, four + [Int(5)]);
    BodyAppend(four, [Int(5)]);
    LargeNumbers(six);
    LargeNumbers(four);
    LargeNumbers([Int(w)]);
    assert Pack(5) == [5] && Body([Int(5)]) == [5];
  }

  lemma {:induction false} LargeNumbers(fs: seq<Field>)
    requires forall i :: 0 <= i < |fs| ==> fs[i] == Int(0x8000_0000)
    ensures |Body(fs)| == 5 * |fs|
    decreases |fs|
  {
    if fs != [] {
      BoundsAreTight();
      assert |fs[0].Bytes()| == 5;
      LargeNumbers(fs[1..]);
    }
  }

  // ---- How large the reservation is ----

  /** The number of fields of a kind. */
  function HowMany(fs: seq<Field>, k: Kind): nat {
    if fs == [] then 0 else (if fs[0].Kind() == k then 1 else 0) + HowMany(fs[1..], k)
  }

  /** The length of all texts, with the NULs that end lines. */
  function TextLength(fs: seq<Field>): nat {
    if fs == [] then 0
    else (if fs[0].Tail? then |fs[0].s| else if fs[0].Line? then |fs[0].s| + 1 else 0) + TextLength(fs[1..])
  }

  /** The bytes that packing saves, against 5 bytes for each 32-bit and 10 for each 64-bit number. */
  function Saved(fs: seq<Field>): int {
    if fs == [] then 0
    else (if fs[0].Int? then 5 - |fs[0].Bytes()| else if fs[0].Long? then 10 - |fs[0].Bytes()| else 0) + Saved(fs[1..])
  }

  lemma {:induction false} Measured(fs: seq<Field>)
    ensures |Body(fs)| + Saved(fs)
         == 5 * HowMany(fs, KInt) + 10 * HowMany(fs, KLong) + 4 * HowMany(fs, KColor) + TextLength(fs)
    ensures 0 <= Saved(fs) <= 4 * HowMany(fs, KInt) + 9 * HowMany(fs, KLong)
    decreases |fs|
  {
    if fs != [] {
      FieldRoom(fs[0]);
      WordSizes(if fs[0].Int? then fs[0].w else 0, if fs[0].Long? then fs[0].l else 0);
      Measured(fs[1..]);
    }
  }

  lemma {:induction false} HowManyAppend(a: seq<Field>, b: seq<Field>, k: Kind)
    ensures HowMany(a + b, k) == HowMany(a, k) + HowMany(b, k)
    ensures TextLength(a + b) == TextLength(a) + TextLength(b)
    decreases |a|
  {
    if a == [] {
      assert a + b == b;
    } else {
      assert (a + b)[1..] == a[1..] + b;
      HowManyAppend(a[1..], b, k);
    }
  }

  /** What the fields need at most: 5 bytes per 32-bit number, 10 per 64-bit number, 4 per colour, and the texts. */
  function Worst(fs: seq<Field>): nat {
    5 * HowMany(fs, KInt) + 10 * HowMany(fs, KLong) + 4 * HowMany(fs, KColor) + TextLength(fs)
  }

  lemma WorstAppend(a: seq<Field>, b: seq<Field>)
    ensures Worst(a + b) == Worst(a) + Worst(b)
  {
    HowManyAppend(a, b, KInt);
    HowManyAppend(a, b, KLong);
    HowManyAppend(a, b, KColor);
  }

  lemma {:induction false} WorstShort(fs: seq<Field>)
    requires |fs| <= 6
    ensures Worst(fs) == RoomAt(fs, 0) + RoomAt(fs, 1) + RoomAt(fs, 2) + RoomAt(fs, 3) + RoomAt(fs, 4) + RoomAt(fs, 5)
    decreases |fs|
  {
    if fs != [] { WorstShort(fs[1..]); }
  }

  lemma {:induction false} WorstInts(ws: seq<uint32>)
    ensures Worst(Ints(ws)) == 5 * |ws|
    decreases |ws|
  {
    if ws != [] {
      assert Ints(ws)[1..] == Ints(ws[1..]);
      WorstInts(ws[1..]);
    }
  }

  lemma {:induction false} WorstActivities(acts: seq<Activity>)
    ensures Worst(ActivityFields(acts)) == ActivitySize(acts) + |acts|
    decreases |acts|
  {
    if acts != [] {
      var first := [Line(acts[0].name), Rgb(acts[0].color)];
      WorstAppend(first, ActivityFields(acts[1..]));
      WorstShort(first);
      WorstActivities(acts[1..]);
    }
  }

  lemma WorstFour(a: seq<Field>, b: seq<Field>, c: seq<Field>, d: seq<Field>)
    ensures Worst(a + (b + (c + d))) == Worst(a) + Worst(b) + Worst(c) + Worst(d)
  {
    WorstAppend(a, b + (c + d));
    WorstAppend(b, c + d);
    WorstAppend(c, d);
  }

  lemma CounterReserve(m: Message)
    requires m.Counter? && Countable(m)
    ensures Reserve(m) == 5 + Worst(Fields(m)) - |m.activities|
  {
    var a := [Int(m.id), Int(m.perCpu), Int(m.class_), Int(m.display), Int(m.modifier), Int(m.composition)];
    var b := [Int(m.rendering), Int(m.averageSelection), Int(m.averageCores), Int(m.percentage), Int(|m.activities|)];
    var numbers := [Int(m.cores), Rgb(m.color)];
    var texts := [Line(m.title), Line(m.name), Line(m.units), Tail(m.description)];
    WorstAppend(a, b);
    WorstShort(a);
    WorstShort(b);
    WorstFour(a + b, numbers, ActivityFields(m.activities), texts);
    WorstShort(numbers);
    WorstActivities(m.activities);
    WorstShort(texts);
  }

  lemma CamJobReserve(m: Message)
    requires m.CamJob? && Countable(m)
    ensures Reserve(m) == 5 + Worst(Fields(m))
  {
    var a := [Int(m.view), Int(m.job), Int(m.track), Long(m.start), Long(m.duration), Rgb(m.color)];
    var b := [Int(m.primary), Int(|m.dependencies|)];
    var deps := Ints(m.dependencies);
    assert Fields(m) == a + (b + (deps + [Tail(m.name)]));
    WorstFour(a, b, deps, [Tail(m.name)]);
    WorstInts(m.dependencies);
    WorstShort(a);
    WorstShort(b);
    WorstShort([Tail(m.name)]);
  }

  lemma SetDepsReserve(m: Message)
    requires m.CamJobSetDeps? && Countable(m)
    ensures Reserve(m) == 5 + Worst(Fields(m))
  {
    var a := [Int(m.view), Int(m.job), Long(m.time), Int(m.primary), Int(|m.dependencies|)];
    WorstAppend(a, Ints(m.dependencies));
    WorstInts(m.dependencies);
    WorstShort(a);
  }

  lemma TextReserve(m: Message)
    requires Countable(m) && Header(m) <= 7
    ensures Reserve(m) == 5 + Worst(Fields(m))
  {
    WorstShort(Fields(m));
  }

  lemma PlainReserve(m: Message)
    requires Countable(m) && Header(m) > 7 && !m.Counter? && !m.CamJob? && !m.CamJobSetDeps?
    ensures Reserve(m) == 5 + Worst(Fields(m))
  {
    WorstShort(Fields(m));
  }

  /** The reservation of every message: 5 bytes for marker and length, 5 per 32-bit and 10 per 64-bit number, 4 per
      colour and the texts; less one per activity. It exceeds what is written by exactly the bytes that packing saves,
      less one per activity. */
  lemma ReserveExact(m: Message)
    requires Countable(m)
    ensures var fs, missing := Fields(m), if m.Counter? then |m.activities| else 0;
      && Reserve(m) == 5 + (5 * HowMany(fs, KInt) + 10 * HowMany(fs, KLong) + 4 * HowMany(fs, KColor) + TextLength(fs))
                       - missing
      && Reserve(m) - (5 + |Body(fs)|) == Saved(fs) - missing
  {
    Measured(Fields(m));
    if m.Counter? {
      CounterReserve(m);
    } else if m.CamJob? {
      CamJobReserve(m);
    } else if m.CamJobSetDeps? {
      SetDepsReserve(m);
    } else if Header(m) <= 7 {
      TextReserve(m);
    } else {
      PlainReserve(m);
    }
  }

  lemma {:induction false} ActivitySizeBound(acts: seq<Activity>)
    ensures ActivitySize(acts) >= COLOR * |acts|
    decreases |acts|
  {
    if acts != [] {
      ActivitySizeBound(acts[1..]);
    }
  }

  /** Even an overrun stays far from the size of the ring. */
  lemma EmitBound(m: Message)
    requires Countable(m)
    ensures 5 + |Body(Fields(m))| <= Reserve(m) + Reserve(m) / COLOR
  {
    if m.Counter? {
      CounterFits(m);
      CounterIntsFit(m);
      ActivitySizeBound(m.activities);
    } else {
      Fits(m);
    }
  }

  // ---- The receiver ----

  /** The kinds of the fields of a message up to the count that governs the rest, if it has one. */
  function HeadKinds(header: byte): seq<Kind> {
    match header
    case 1 => [KLong, KInt, KText]
    case 2 => [KLong, KInt, KColor, KText]
    case 3 => [KLong, KInt, KInt, KText]
    case 4 => [KLong, KInt, KText]
    case 6 => [KLong, KText]
    case 7 => [KLong, KColor, KText]
    case 8 => [KInt, KInt, KInt, KInt, KInt, KInt, KInt, KInt, KInt, KInt, KInt]
    case 9 => [KLong, KInt, KInt, KInt]
    case 10 => [KLong, KInt, KInt, KInt, KInt]
    case 11 => [KInt, KInt, KInt, KText]
    case 12 => [KInt, KInt, KInt, KLong, KLong, KColor, KInt, KInt]
    case 13 => [KInt, KText]
    case 14 => [KInt, KInt, KInt, KLong, KColor, KText]
    case 15 => [KInt, KInt, KLong, KInt, KInt]
    case 16 => [KInt, KInt, KLong]
    case _ => []
  }

  function ActivityKinds(n: nat): (ks: seq<Kind>)
    ensures |ks| == 2 * n
  {
    if n == 0 then [] else [KLine, KColor] + ActivityKinds(n - 1)
  }

  /** The kinds of the fields after the count `n`. */
  function TailKinds(header: byte, n: nat): seq<Kind> {
    match header
    case 8 => [KInt, KColor] + ActivityKinds(n) + [KLine, KLine, KLine, KText]
    case 12 => seq<Kind>(n, _ => KInt) + [KText]
    case 15 => seq<Kind>(n, _ => KInt)
    case _ => []
  }

  predicate Known(header: byte) {
    header != 0 && header != 5 && header <= 16
  }

  /** The count, read from the last head field of the messages that have one. */
  function Count(header: byte, head: seq<Field>): nat
    requires Kinds(head) == HeadKinds(header)
  {
    if header == 8 || header == 12 || header == 15 then
      assert Kinds(head)[|head| - 1] == KInt;
      head[|head| - 1].w
    else 0
  }

  /** The line at the front of `s`, if there is a NUL, and what follows it. */
  function TakeLine(s: seq<byte>): Option<(seq<byte>, seq<byte>)> {
    if s == [] then None
    else if s[0] == 0 then Some(([], s[1..]))
    else match TakeLine(s[1..])
      case None => None
      case Some((line, rest)) => Some(([s[0]] + line, rest))
  }

  /** One field of a given kind; numbers are read back modulo the width of their word. */
  function TakeField(k: Kind, s: seq<byte>): (r: Option<(Field, seq<byte>)>)
    ensures r.Some? ==> r.value.0.Kind() == k
  {
    match k
    case KInt => (match Unpack(s)
      case Some((x, rest)) => Some((Int(x % 0x1_0000_0000), rest))
      case None => None)
    case KLong => (match Unpack(s)
      case Some((x, rest)) => Some((Long(x % 0x1_0000_0000_0000_0000), rest))
      case None => None)
    case KColor => if |s| < 4 then None else Some((Rgb(FromColor(s[..4])), s[4..]))
    case KText => Some((Tail(s), []))
    case KLine => (match TakeLine(s)
      case Some((line, rest)) => Some((Line(line), rest))
      case None => None)
  }

  function TakeFields(ks: seq<Kind>, s: seq<byte>): (r: Option<(seq<Field>, seq<byte>)>)
    ensures r.Some? ==> Kinds(r.value.0) == ks
  {
    if ks == [] then Some(([], s))
    else match TakeField(ks[0], s)
      case None => None
      case Some((f, s1)) => (match TakeFields(ks[1..], s1)
        case None => None
        case Some((fs, s2)) => assert ks == [ks[0]] + ks[1..]; Some(([f] + fs, s2)))
  }

  function FromActivities(fs: seq<Field>, n: nat): (acts: seq<Activity>)
    requires Kinds(fs) == ActivityKinds(n)
    ensures |acts| == n
  {
    if n == 0 then []
    else
      assert Kinds(fs)[0] == KLine && Kinds(fs)[1] == KColor;
      assert Kinds(fs[2..]) == Kinds(fs)[2..];
      [Activity(fs[0].s, fs[1].c)] + FromActivities(fs[2..], n - 1)
  }

  function FromInts(fs: seq<Field>): (ws: seq<uint32>)
    requires forall f <- fs :: f.Int?
  {
    seq<uint32>(|fs|, i requires 0 <= i < |fs| => fs[i].w)
  }

  /** Kinds, one index at a time. */
  lemma KindAt(fs: seq<Field>, ks: seq<Kind>)
    requires Kinds(fs) == ks
    ensures |fs| == |ks| && forall i :: 0 <= i < |fs| ==> fs[i].Kind() == ks[i]
  {
    forall i | 0 <= i < |fs| ensures fs[i].Kind() == ks[i] {
      assert Kinds(fs)[i] == ks[i];
    }
  }

  function CounterFrom(h: seq<Field>, t: seq<Field>): Message
    requires Kinds(h) == HeadKinds(8) && Kinds(t) == TailKinds(8, Count(8, h))
  {
    var n := Count(8, h);
    KindAt(h, HeadKinds(8));
    KindAt(t, TailKinds(8, n));
    assert Kinds(t[2..2 + 2 * n]) == ActivityKinds(n);
    Counter(h[0].w, h[1].w, h[2].w, h[3].w, h[4].w, h[5].w, h[6].w, h[7].w, h[8].w, h[9].w,
            FromActivities(t[2..2 + 2 * n], n), t[0].w, t[1].c,
            t[2 + 2 * n].s, t[3 + 2 * n].s, t[4 + 2 * n].s, t[5 + 2 * n].s)
  }

  /** The message that a decoded head and tail stand for. */
  function FromFields(header: byte, h: seq<Field>, t: seq<Field>): Message
    requires Known(header)
    requires Kinds(h) == HeadKinds(header) && Kinds(t) == TailKinds(header, Count(header, h))
  {
    KindAt(h, HeadKinds(header));
    KindAt(t, TailKinds(header, Count(header, h)));
    match header
    case 1 => Str(h[0].l, h[1].w, h[2].s)
    case 2 => ColorStr(h[0].l, h[1].w, h[2].c, h[3].s)
    case 3 => NameChannel(h[0].l, h[1].w, h[2].w, h[3].s)
    case 4 => NameGroup(h[0].l, h[1].w, h[2].s)
    case 6 => Marker(h[0].l, h[1].s)
    case 7 => MarkerColor(h[0].l, h[1].c, h[2].s)
    case 8 => CounterFrom(h, t)
    case 9 => CounterValue(h[0].l, h[1].w, h[2].w, h[3].w)
    case 10 => ActivitySwitch(h[0].l, h[1].w, h[2].w, h[3].w, h[4].w)
    case 11 => CamTrack(h[0].w, h[1].w, h[2].w, h[3].s)
    case 12 =>
      var n := Count(header, h);
      CamJob(h[0].w, h[1].w, h[2].w, h[3].l, h[4].l, h[5].c, h[6].w, FromInts(t[..n]), t[n].s)
    case 13 => CamViewName(h[0].w, h[1].s)
    case 14 => CamJobStart(h[0].w, h[1].w, h[2].w, h[3].l, h[4].c, h[5].s)
    case 15 => CamJobSetDeps(h[0].w, h[1].w, h[2].l, h[3].w, FromInts(t))
    case 16 => CamJobStop(h[0].w, h[1].w, h[2].l)
  }

  /** The message in a frame, if its body is one. */
  function DecodeBody(header: byte, body: seq<byte>): Option<Message> {
    if !Known(header) then None
    else match TakeFields(HeadKinds(header), body)
      case None => None
      case Some((head, s)) => (match TakeFields(TailKinds(header, Count(header, head)), s)
        case None => None
        case Some((tail, rest)) => if rest == [] then Some(FromFields(header, head, tail)) else None)
  }

  // ---- Decoding what was encoded ----

  lemma {:induction false} LineRoundTrip(line: seq<byte>, rest: seq<byte>)
    requires 0 !in line
    ensures TakeLine(line + [0] + rest) == Some((line, rest))
    decreases |line|
  {
    var s := line + [0] + rest;
    if line == [] {
      assert s[1..] == rest;
    } else {
      assert s[1..] == line[1..] + [0] + rest;
      LineRoundTrip(line[1..], rest);
      assert line == [line[0]] + line[1..];
    }
  }

  /** A field can be read back wherever it stands; a bare text only where nothing follows it. */
  predicate Readable(f: Field, rest: seq<byte>) {
    && (f.Line? ==> 0 !in f.s)
    && (f.Tail? ==> rest == [])
  }

  lemma FieldRoundTrip(f: Field, rest: seq<byte>)
    requires Readable(f, rest)
    ensures TakeField(f.Kind(), f.Bytes() + rest) == Some((f, rest))
  {
    match f
    case Int(w) => IntField(w, rest);
    case Long(l) => LongField(l, rest);
    case Rgb(c) => ColorField(c, rest);
    case Tail(s) => assert s + rest == s;
    case Line(s) => LineRoundTrip(s, rest);
  }

  lemma IntField(w: uint32, rest: seq<byte>)
    ensures TakeField(KInt, Pack(AsInt32(w)) + rest) == Some((Int(w), rest))
  {
    RoundTrip(AsInt32(w), rest);
  }

  lemma LongField(l: uint64, rest: seq<byte>)
    ensures TakeField(KLong, Pack(AsInt64(l)) + rest) == Some((Long(l), rest))
  {
    RoundTrip(AsInt64(l), rest);
  }

  lemma ColorField(c: uint32, rest: seq<byte>)
    ensures TakeField(KColor, Color(c) + rest) == Some((Rgb(c), rest))
  {
    ColorRoundTrip(c);
    assert (Color(c) + rest)[..4] == Color(c) && (Color(c) + rest)[4..] == rest;
  }

  predicate AllReadable(fs: seq<Field>, rest: seq<byte>) {
    forall i :: 0 <= i < |fs| ==>
      && (fs[i].Line? ==> 0 !in fs[i].s)
      && (fs[i].Tail? ==> i == |fs| - 1 && rest == [])
  }

  lemma TakeNext(k: Kind, ks: seq<Kind>, s: seq<byte>, f: Field, fs: seq<Field>, between: seq<byte>, rest: seq<byte>)
    requires TakeField(k, s) == Some((f, between))
    requires TakeFields(ks, between) == Some((fs, rest))
    ensures TakeFields([k] + ks, s) == Some(([f] + fs, rest))
  {
    assert ([k] + ks)[1..] == ks;
  }

  lemma OneMoreField(f: Field, tail: seq<Field>, rest: seq<byte>)
    requires TakeFields(Kinds(tail), Body(tail) + rest) == Some((tail, rest))
    requires Readable(f, Body(tail) + rest)
    ensures TakeFields(Kinds([f] + tail), Body([f] + tail) + rest) == Some(([f] + tail, rest))
  {
    var between := Body(tail) + rest;
    FieldRoundTrip(f, between);
    TakeNext(f.Kind(), Kinds(tail), f.Bytes() + between, f, tail, between, rest);
    KindsCons(f, tail);
    BodyCons(f, tail, rest);
  }

  lemma KindsCons(f: Field, tail: seq<Field>)
    ensures Kinds([f] + tail) == [f.Kind()] + Kinds(tail)
  {
    KindsAppend([f], tail);
    assert Kinds([f]) == [f.Kind()];
  }

  lemma BodyCons(f: Field, tail: seq<Field>, rest: seq<byte>)
    ensures Body([f] + tail) + rest == f.Bytes() + (Body(tail) + rest)
  {
    assert ([f] + tail)[1..] == tail;
  }

  lemma {:induction false} FieldsRoundTrip(fs: seq<Field>, rest: seq<byte>)
    requires AllReadable(fs, rest)
    ensures TakeFields(Kinds(fs), Body(fs) + rest) == Some((fs, rest))
    decreases |fs|
  {
    if fs == [] {
      assert Body(fs) + rest == rest;
    } else {
      var tail := fs[1..];
      FieldsRoundTrip(tail, rest);
      OneMoreField(fs[0], tail, rest);
      assert fs == [fs[0]] + tail;
    }
  }

  /** The fields of `m` up to its count, and the rest. */
  function HeadFields(m: Message): seq<Field>
    requires Countable(m)
  {
    if |HeadKinds(Header(m))| <= |Fields(m)| then Fields(m)[..|HeadKinds(Header(m))|] else []
  }

  function TailFields(m: Message): seq<Field>
    requires Countable(m)
  {
    if |HeadKinds(Header(m))| <= |Fields(m)| then Fields(m)[|HeadKinds(Header(m))|..] else []
  }

  /** The kinds that the decoder expects are the kinds that the writer emits, and reading them off gives `m`. */
  ghost predicate Shaped(m: Message)
    requires Countable(m)
  {
    var header, h, t := Header(m), HeadFields(m), TailFields(m);
    && Fields(m) == h + t
    && Kinds(h) == HeadKinds(header)
    && Kinds(t) == TailKinds(header, Count(header, h))
    && FromFields(header, h, t) == m
  }

  lemma {:induction false} ActivitiesShaped(acts: seq<Activity>)
    ensures Kinds(ActivityFields(acts)) == ActivityKinds(|acts|)
    ensures FromActivities(ActivityFields(acts), |acts|) == acts
    decreases |acts|
  {
    if acts != [] {
      var fs := ActivityFields(acts);
      ActivitiesShaped(acts[1..]);
      assert fs[2..] == ActivityFields(acts[1..]);
      assert Kinds(fs) == [KLine, KColor] + Kinds(fs[2..]);
      assert acts == [Activity(fs[0].s, fs[1].c)] + acts[1..];
    }
  }

  lemma CounterTailShaped(m: Message)
    requires m.Counter?
    ensures Kinds(CounterTail(m)) == [KInt, KColor] + ActivityKinds(|m.activities|) + [KLine, KLine, KLine, KText]
    ensures CounterTail(m)[2..2 + 2 * |m.activities|] == ActivityFields(m.activities)
  {
    var numbers, acts := [Int(m.cores), Rgb(m.color)], ActivityFields(m.activities);
    var texts := [Line(m.title), Line(m.name), Line(m.units), Tail(m.description)];
    ActivitiesShaped(m.activities);
    assert Kinds(numbers) == [KInt, KColor] && Kinds(texts) == [KLine, KLine, KLine, KText];
    ThreeKinds(numbers, acts, texts);
    MiddlePart(numbers, acts, texts);
  }

  lemma ThreeKinds(a: seq<Field>, b: seq<Field>, c: seq<Field>)
    ensures Kinds(a + (b + c)) == Kinds(a) + Kinds(b) + Kinds(c)
  {
    KindsAppend(a, b + c);
    KindsAppend(b, c);
  }

  lemma MiddlePart(a: seq<Field>, b: seq<Field>, c: seq<Field>)
    ensures (a + (b + c))[|a|..|a| + |b|] == b
  {
  }

  lemma CounterRebuilt(m: Message)
    requires m.Counter? && Countable(m)
    requires Kinds(CounterHead(m)) == HeadKinds(8)
    requires Kinds(CounterTail(m)) == TailKinds(8, Count(8, CounterHead(m)))
    ensures CounterFrom(CounterHead(m), CounterTail(m)) == m
  {
    CounterTailShaped(m);
    ActivitiesShaped(m.activities);
    var t, k := CounterTail(m), 2 + 2 * |m.activities|;
    assert t[k] == Line(m.title) && t[k + 1] == Line(m.name) && t[k + 2] == Line(m.units);
    assert t[k + 3] == Tail(m.description);
  }

  lemma CounterShaped(m: Message)
    requires m.Counter? && Countable(m)
    ensures Shaped(m)
  {
    var h, t := CounterHead(m), CounterTail(m);
    CounterHeadShaped(m);
    SplitFields(h, t);
    assert HeadFields(m) == h && TailFields(m) == t;
    CounterTailShaped(m);
    CounterRebuilt(m);
  }

  lemma CounterHeadShaped(m: Message)
    requires m.Counter? && Countable(m)
    ensures |CounterHead(m)| == 11 && Kinds(CounterHead(m)) == HeadKinds(8)
    ensures Count(8, CounterHead(m)) == |m.activities|
  {
  }

  lemma SplitFields(h: seq<Field>, t: seq<Field>)
    ensures (h + t)[..|h|] == h && (h + t)[|h|..] == t
  {
  }

  lemma IntsShaped(ws: seq<uint32>)
    ensures Kinds(Ints(ws)) == seq<Kind>(|ws|, _ => KInt)
    ensures FromInts(Ints(ws)) == ws
  {
  }

  lemma JobShaped(m: Message)
    requires m.CamJob? && Countable(m)
    ensures Shaped(m)
  {
    var n, deps := |m.dependencies|, Ints(m.dependencies);
    var h := [Int(m.view), Int(m.job), Int(m.track), Long(m.start), Long(m.duration), Rgb(m.color),
              Int(m.primary), Int(n)];
    var t := deps + [Tail(m.name)];
    assert HeadFields(m) == h && TailFields(m) == t;
    IntsShaped(m.dependencies);
    assert t[..n] == deps && t[n] == Tail(m.name);
    assert Kinds(t) == Kinds(deps) + [KText];
    assert Kinds(h) == HeadKinds(12);
  }

  lemma SetDepsShaped(m: Message)
    requires m.CamJobSetDeps? && Countable(m)
    ensures Shaped(m)
  {
    var h := [Int(m.view), Int(m.job), Long(m.time), Int(m.primary), Int(|m.dependencies|)];
    assert HeadFields(m) == h && TailFields(m) == Ints(m.dependencies);
    IntsShaped(m.dependencies);
    assert Kinds(h) == HeadKinds(15);
  }

  lemma FieldsShaped(m: Message)
    requires Countable(m)
    ensures Shaped(m)
  {
    if m.Counter? {
      CounterShaped(m);
    } else if m.CamJob? {
      JobShaped(m);
    } else if m.CamJobSetDeps? {
      SetDepsShaped(m);
    } else if Header(m) <= 3 {
      TextShaped(m);
    } else if Header(m) <= 7 {
      MarkerShaped(m);
    } else if Header(m) <= 11 {
      ValueShaped(m);
    } else {
      CamShaped(m);
    }
  }

  /** Without a count, the fields up to the count are all. */
  lemma WholeHead(m: Message)
    requires Countable(m) && |HeadKinds(Header(m))| == |Fields(m)|
    ensures HeadFields(m) == Fields(m) && TailFields(m) == [] && Kinds(TailFields(m)) == []
    ensures HeadFields(m) + TailFields(m) == Fields(m)
  {
  }

  lemma TextShaped(m: Message)
    requires Countable(m) && Header(m) <= 3
    ensures Shaped(m)
  {
    WholeHead(m);
    assert Kinds(Fields(m)) == HeadKinds(Header(m));
  }

  lemma MarkerShaped(m: Message)
    requires Countable(m) && 3 < Header(m) <= 7
    ensures Shaped(m)
  {
    WholeHead(m);
    assert Kinds(Fields(m)) == HeadKinds(Header(m));
  }

  lemma ValueShaped(m: Message)
    requires Countable(m) && 8 < Header(m) <= 11
    ensures Shaped(m)
  {
    WholeHead(m);
    assert Kinds(Fields(m)) == HeadKinds(Header(m));
  }

  lemma CamShaped(m: Message)
    requires Countable(m) && Header(m) > 12 && Header(m) != 15
    ensures Shaped(m)
  {
    WholeHead(m);
    assert Kinds(Fields(m)) == HeadKinds(Header(m));
  }

  lemma {:induction false} ActivityKindsHaveNoText(n: nat)
    ensures KText !in ActivityKinds(n)
  {
    if n > 0 {
      ActivityKindsHaveNoText(n - 1);
    }
  }

  /** A bare text comes last, and a message with a count has none before the count. */
  lemma TextIsLast(header: byte, n: nat)
    ensures forall i :: 0 <= i < |HeadKinds(header)| && HeadKinds(header)[i] == KText ==>
                    i == |HeadKinds(header)| - 1 && TailKinds(header, n) == []
    ensures forall i :: 0 <= i < |TailKinds(header, n)| && TailKinds(header, n)[i] == KText ==>
                    i == |TailKinds(header, n)| - 1
  {
    TailTextIsLast(header, n);
  }

  lemma TailTextIsLast(header: byte, n: nat)
    ensures forall i :: 0 <= i < |TailKinds(header, n)| && TailKinds(header, n)[i] == KText ==>
                    i == |TailKinds(header, n)| - 1
  {
    ActivityKindsHaveNoText(n);
    if header == 8 {
      var ks := TailKinds(header, n);
      assert forall i :: 0 <= i < 2 * n ==> ks[2 + i] == ActivityKinds(n)[i];
    }
  }

  /** Fields of the kinds that `header` asks for can be read back one after the other. */
  lemma FieldsReadable(header: byte, h: seq<Field>, t: seq<Field>)
    requires Kinds(h) == HeadKinds(header) && Kinds(t) == TailKinds(header, Count(header, h))
    requires forall f <- h + t :: f.Line? ==> 0 !in f.s
    ensures AllReadable(h, Body(t)) && AllReadable(t, [])
  {
    KindAt(h, HeadKinds(header));
    KindAt(t, TailKinds(header, Count(header, h)));
    TextIsLast(header, Count(header, h));
    assert forall i :: 0 <= i < |h| ==> h[i] in h + t;
    assert forall i :: 0 <= i < |t| ==> t[i] in h + t;
  }

  lemma BodyRoundTrip(header: byte, h: seq<Field>, t: seq<Field>)
    requires Known(header)
    requires Kinds(h) == HeadKinds(header) && Kinds(t) == TailKinds(header, Count(header, h))
    requires forall f <- h + t :: f.Line? ==> 0 !in f.s
    ensures DecodeBody(header, Body(h + t)) == Some(FromFields(header, h, t))
  {
    FieldsReadable(header, h, t);
    BodyAppend(h, t);
    FieldsRoundTrip(h, Body(t));
    FieldsRoundTrip(t, []);
    assert Body(t) + [] == Body(t);
  }

  /** The body of a message decodes to the message, for every message a writer can emit. */
  lemma MessageRoundTrip(m: Message)
    requires Valid(m)
    ensures DecodeBody(ToFrame(m).header, ToFrame(m).body) == Some(m)
  {
    FieldsShaped(m);
    BodyRoundTrip(Header(m), HeadFields(m), TailFields(m));
  }
}
