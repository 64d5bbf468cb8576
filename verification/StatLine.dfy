/**
 * From a line of /proc/<pid>/stat to the fields that post-processing reads: `parse_stat` cuts the line up in
 * place, the collector writes the pieces as a row, and the post-processor splits the row again.
 */
module StatLine {

  const NUL: char := '\0'

  /** The field numbers of `pid_stat_spec`, in ascending order. */
  function Spec(i: nat): (f: nat)
    requires i < WANTED
    ensures f <= 38
    ensures i > 0 <==> f > 0
    ensures i == 1 <==> f == 1
  {
    if i <= 1 then i else if i == 2 then 3 else if i <= 6 then i + 10 else if i == 7 then 19 else if i == 8 then 21
    else 38
  }

  const WANTED := 10

  lemma SpecTable()
    ensures Spec(0) == 0 && Spec(1) == 1 && Spec(2) == 3 && Spec(3) == 13 && Spec(4) == 14
    ensures Spec(5) == 15 && Spec(6) == 16 && Spec(7) == 19 && Spec(8) == 21 && Spec(9) == 38
  {
  }

  // ---- parse_stat ----

  /** Where the scan is: the characters as they were left behind, the places where wanted fields begin, the number
      of fields begun, whether the scan is inside one, and the field that spaces belong to (1 inside the name). */
  datatype Scan = Scan(out: string, starts: seq<nat>, count: nat, inside: bool, curr: nat)

  const START := Scan("", [], 0, false, 0)

  /** One character. Past the last wanted field there is no further entry to compare with. */
  function Step(st: Scan, c: char): Scan {
    if c == ' ' then
      if st.curr == 1 then st.(out := st.out + "_") else st.(out := st.out + [NUL], inside := false)
    else if st.inside then
      st.(out := st.out + [c], curr := if st.curr == 1 && c == ')' then st.count else st.curr)
    else
      Scan(st.out + [c],
           if |st.starts| < WANTED && st.count == Spec(|st.starts|) then st.starts + [|st.out|] else st.starts,
           st.count + 1, true, if st.count == 1 then 1 else st.curr)
  }

  /** The scan of `s` up to a NUL or the end of the line. */
  function ScanAll(st: Scan, s: string): (r: Scan)
    ensures |st.out| <= |r.out| <= |st.out| + |s|
    decreases |s|
  {
    if s == [] || s[0] == NUL || s[0] == '\n' then st else ScanAll(Step(st, s[0]), s[1..])
  }

  /** The C string at the front of `s`. */
  function CString(s: string): string {
    if s == [] || s[0] == NUL then [] else [s[0]] + CString(s[1..])
  }

  /** The pieces that begin at `starts`, each after a space. */
  function Pieces(buf: string, starts: seq<nat>): string {
    if starts == [] then ""
    else
      var last := |starts| - 1;
      Pieces(buf, starts[..last]) + " " + if starts[last] <= |buf| then CString(buf[starts[last]..]) else ""
  }

  /** The buffer as `parse_stat` leaves it. */
  function Cut(line: string): string {
    var r := ScanAll(START, line);
    r.out + line[|r.out|..]
  }

  function ParseStat(line: string): string {
    Pieces(Cut(line), ScanAll(START, line).starts)
  }

  /** One turn of the loop, on the character at `i`. */
  method CutOne(buf: array<char>, i: nat, starts: seq<nat>, count: nat, inside: bool, curr: nat)
    returns (starts': seq<nat>, count': nat, inside': bool, curr': nat)
    requires i < buf.Length
    modifies buf
    ensures forall k :: i < k < buf.Length ==> buf[k] == old(buf[k])
    ensures Scan(buf[..i + 1], starts', count', inside', curr')
         == Step(Scan(old(buf[..i]), starts, count, inside, curr), old(buf[i]))
  {
    starts', count', inside', curr' := starts, count, inside, curr;
    if buf[i] == ' ' {
      if curr == 1 {
        buf[i] := '_';
      } else {
        buf[i] := NUL;
        inside' := false;
      }
    } else {
      if inside && curr == 1 {
        if buf[i] == ')' {
          curr' := count;
        }
      }
      if !inside {
        inside' := true;
        if count == 1 {
          curr' := count;
        }
        if |starts| < WANTED && count == Spec(|starts|) {
          starts' := starts + [i];
        }
        count' := count + 1;
      }
    }
    assert buf[..i + 1] == old(buf[..i]) + [buf[i]];
  }

  method CutInPlace(buf: array<char>) returns (starts: seq<nat>)
    requires exists i :: 0 <= i < buf.Length && buf[i] == NUL
    modifies buf
    ensures buf[..] == Cut(old(buf[..]))
    ensures starts == ScanAll(START, old(buf[..])).starts
  {
    ghost var line := buf[..];
    ghost var end :| 0 <= end < buf.Length && buf[end] == NUL;
    ghost var st;
    starts, st := CutLoop(buf, end);
    var i := |st.out|;
    assert buf[..] == buf[..i] + line[i..];
  }

  /** The loop; `st` is where the scan ends. */
  method CutLoop(buf: array<char>, ghost end: nat) returns (starts: seq<nat>, ghost st: Scan)
    requires end < buf.Length && buf[end] == NUL
    modifies buf
    ensures st == ScanAll(START, old(buf[..])) && starts == st.starts
    ensures |st.out| <= buf.Length && buf[..|st.out|] == st.out
    ensures forall k :: |st.out| <= k < buf.Length ==> buf[k] == old(buf[k])
  {
    ghost var line, whole := buf[..], ScanAll(START, buf[..]);
    st := START;
    var i, count, inside, curr := 0, 0, false, 0;
    starts := [];
    while buf[i] != NUL && buf[i] != '\n'
      invariant 0 <= i <= end < buf.Length == |line| && line[end] == NUL
      invariant forall k :: i <= k < buf.Length ==> buf[k] == line[k]
      invariant st == Scan(buf[..i], starts, count, inside, curr)
      invariant whole == ScanAll(st, line[i..])
      decreases buf.Length - i
    {
      ScanNext(st, line, i);
      st := Step(st, line[i]);
      starts, count, inside, curr := CutOne(buf, i, starts, count, inside, curr);
      i := i + 1;
    }
    ScanEnds(st, line, i);
  }

  lemma ScanEnds(st: Scan, line: string, i: nat)
    requires i < |line| && (line[i] == NUL || line[i] == '\n')
    ensures ScanAll(st, line[i..]) == st
  {
    assert line[i..][0] == line[i];
  }

  lemma ScanNext(st: Scan, line: string, i: nat)
    requires i < |line| && line[i] != NUL && line[i] != '\n'
    ensures ScanAll(st, line[i..]) == ScanAll(Step(st, line[i]), line[i + 1..])
  {
    assert line[i..][0] == line[i] && line[i..][1..] == line[i + 1..];
  }

  // ---- splitting a row again ----

  /** The characters before the first space. */
  function Word(s: string): (w: string)
    ensures |w| <= |s| && w == s[..|w|]
    ensures forall i :: 0 <= i < |w| ==> w[i] != ' '
    ensures |w| < |s| ==> s[|w|] == ' '
  {
    if s == "" || s[0] == ' ' then "" else [s[0]] + Word(s[1..])
  }

  /** The words of `s`: a space at the very end starts no further word. */
  function Split(s: string): seq<string>
    decreases |s|
  {
    if s == "" then [] else
    var w := Word(s);
    if |w| == |s| then [w] else [w] + Split(s[|w| + 1..])
  }

  method WordAt(s: string, i: nat) returns (j: nat)
    requires i <= |s|
    ensures i <= j <= |s| && s[i..j] == Word(s[i..])
  {
    j := i;
    while j < |s| && s[j] != ' '
      invariant i <= j <= |s|
      invariant forall k :: i <= k < j ==> s[k] != ' '
    {
      j := j + 1;
    }
    WordOf(s[i..j], s[j..]);
    assert s[i..] == s[i..j] + s[j..];
  }

  method SplitString(s: string) returns (tokens: seq<string>)
    ensures tokens == Split(s)
  {
    var i := 0;
    tokens := [];
    while i < |s|
      invariant 0 <= i <= |s|
      invariant Split(s) == tokens + Split(s[i..])
    {
      var j := WordAt(s, i);
      var word := s[i..j];
      var next := if j < |s| then j + 1 else j;
      SplitNext(s, i, j, next);
      ListAssoc(tokens, [word], Split(s[next..]));
      tokens := tokens + [word];
      i := next;
    }
  }

  lemma ListAssoc(a: seq<string>, b: seq<string>, c: seq<string>)
    ensures a + b + c == a + (b + c)
  {
  }

  lemma SplitNext(s: string, i: nat, j: nat, next: nat)
    requires i < |s| && i <= j <= |s| && s[i..j] == Word(s[i..]) && next == if j < |s| then j + 1 else j
    ensures Split(s[i..]) == [s[i..j]] + Split(s[next..])
  {
    var t := s[i..];
    assert |Word(t)| == j - i;
    if j < |s| { assert t[j - i + 1..] == s[next..]; } else { assert s[next..] == ""; }
  }

  function Joined(ws: seq<string>): string {
    if ws == [] then "" else if |ws| == 1 then ws[0] else ws[0] + (" " + Joined(ws[1..]))
  }

  /** For every string: no word holds a space, and the words joined by spaces are the string, but for a space at its very
      end. */
  lemma {:induction false} SplitMeans(s: string)
    requires s != ""
    ensures Split(s) != [] && Spaceless(Split(s))
    ensures s == Joined(Split(s)) + Ending(s)
    decreases |s|
  {
    var w := Word(s);
    assert ' ' !in w;
    if |w| == |s| {
      assert Joined([w]) == s && Ending(s) == "";
    } else if |w| == |s| - 1 {
      assert s == w + " " && s[|w| + 1..] == "";
      assert [w] + Split("") == [w] && Joined([w]) == w;
    } else {
      var rest := s[|w| + 1..];
      SplitMeans(rest);
      JoinedCons(w, Split(rest));
      MoreWords(w, Split(rest));
      JoinedEnding(s, w, rest, Joined(Split(rest)), Ending(rest));
    }
  }

  function Ending(s: string): string { if s != "" && s[|s| - 1] == ' ' then " " else "" }

  predicate Spaceless(ws: seq<string>) { forall k :: 0 <= k < |ws| ==> ' ' !in ws[k] }

  lemma JoinedEnding(s: string, w: string, rest: string, j: string, e: string)
    requires |w| < |s| - 1 && s[..|w|] == w && s[|w|] == ' ' && rest == s[|w| + 1..] && rest == j + e
    ensures s == w + (" " + j) + e
  {
    assert s == s[..|w|] + ([s[|w|]] + s[|w| + 1..]);
  }

  lemma JoinedCons(w: string, ws: seq<string>)
    requires ws != []
    ensures Joined([w] + ws) == w + (" " + Joined(ws))
  {
    assert ([w] + ws)[1..] == ws;
  }

  lemma MoreWords(w: string, ws: seq<string>)
    requires ' ' !in w && Spaceless(ws)
    ensures Spaceless([w] + ws)
  {
  }

  /** What `ferret_process_status` stores for the words of a row: all but the first, the name without its first and
      last character. */
  function Status(row: seq<string>): seq<string> {
    if |row| <= 2 then (if row == [] then [] else row[1..])
    else [row[1], Inner(row[2])] + row[3..]
  }

  function Inner(s: string): string {
    if |s| < 2 then "" else s[1..|s| - 1]
  }

  // ---- lines as the kernel writes them ----

  predicate Plain(s: string) {
    forall i :: 0 <= i < |s| ==> s[i] != NUL && s[i] != '\n'
  }

  predicate IsToken(s: string) {
    s != "" && Plain(s) && forall i :: 0 <= i < |s| ==> s[i] != ' '
  }

  predicate IsName(s: string) {
    Plain(s) && forall i :: 0 <= i < |s| ==> s[i] != ')'
  }

  /** The fields of a stat line; the name is given without its parentheses. */
  predicate IsStat(fs: seq<string>) {
    forall k :: 0 <= k < |fs| ==> if k == 1 then IsName(fs[k]) else IsToken(fs[k])
  }

  function Shown(fs: seq<string>, k: nat): string
    requires k < |fs|
  {
    if k == 1 then "(" + fs[k] + ")" else fs[k]
  }

  /** The first `n` fields, each followed by a space. */
  function Lead(fs: seq<string>, n: nat): string
    requires n <= |fs|
  {
    if n == 0 then "" else Lead(fs, n - 1) + (Shown(fs, n - 1) + " ")
  }

  function Line(fs: seq<string>): string
    requires fs != []
  {
    Lead(fs, |fs| - 1) + (Shown(fs, |fs| - 1) + "\n")
  }

  function Underscored(s: string): (r: string)
    ensures |r| == |s|
    ensures forall i :: 0 <= i < |s| ==> r[i] == if s[i] == ' ' then '_' else s[i]
  {
    if s == "" then "" else [if s[0] == ' ' then '_' else s[0]] + Underscored(s[1..])
  }

  function Stored(fs: seq<string>, k: nat): string
    requires k < |fs|
  {
    if k == 1 then "(" + Underscored(fs[k]) + ")" else fs[k]
  }

  /** The buffer over the first `n` fields. */
  function Left(fs: seq<string>, n: nat): string
    requires n <= |fs|
  {
    if n == 0 then "" else Left(fs, n - 1) + (Stored(fs, n - 1) + [NUL])
  }

  /** How many wanted fields have a number below `k`. */
  function Matched(k: nat): (m: nat)
    ensures m <= WANTED
    ensures m < WANTED ==> Spec(m) >= k
    ensures m > 0 ==> Spec(m - 1) < k
  {
    if k == 0 then 0
    else
      var m := Matched(k - 1);
      if m < WANTED && Spec(m) == k - 1 then m + 1 else m
  }

  /** The places where the first `m` wanted fields begin. */
  function Places(fs: seq<string>, m: nat): (r: seq<nat>)
    requires m <= WANTED
    requires m > 0 ==> Spec(m - 1) <= |fs|
    ensures |r| == m
  {
    if m == 0 then [] else Places(fs, m - 1) + [|Left(fs, Spec(m - 1))|]
  }

  function Middle(fs: seq<string>, n: nat): Scan
    requires n <= |fs|
  {
    Scan(Left(fs, n), Places(fs, Matched(n)), n, false, if n >= 2 then 2 else 0)
  }

  // ---- the scan of such a line ----

  lemma {:induction false} ScanAppend(st: Scan, a: string, b: string)
    requires Plain(a)
    ensures ScanAll(st, a + b) == ScanAll(ScanAll(st, a), b)
    decreases |a|
  {
    if a == "" {
      assert a + b == b;
    } else {
      assert (a + b)[0] == a[0] && (a + b)[1..] == a[1..] + b;
      ScanAppend(Step(st, a[0]), a[1..], b);
    }
  }

  lemma {:induction false} ScanInside(st: Scan, s: string)
    requires st.inside && st.curr != 1 && Plain(s) && forall i :: 0 <= i < |s| ==> s[i] != ' '
    ensures ScanAll(st, s) == st.(out := st.out + s)
    decreases |s|
  {
    if s == "" {
      assert st.out + s == st.out;
    } else {
      ScanInside(Step(st, s[0]), s[1..]);
      assert st.out + [s[0]] + s[1..] == st.out + s;
    }
  }

  lemma {:induction false} ScanName(st: Scan, s: string)
    requires st.inside && st.curr == 1 && IsName(s)
    ensures ScanAll(st, s) == st.(out := st.out + Underscored(s))
    decreases |s|
  {
    if s == "" {
      assert st.out + Underscored(s) == st.out;
    } else {
      var c := if s[0] == ' ' then '_' else s[0];
      assert Step(st, s[0]) == st.(out := st.out + [c]);
      ScanName(st.(out := st.out + [c]), s[1..]);
      Assoc(st.out, [c], Underscored(s[1..]));
    }
  }

  lemma Assoc(a: string, b: string, c: string)
    ensures a + b + c == a + (b + c)
  {
  }

  function Begin(st: Scan): seq<nat> {
    if |st.starts| < WANTED && st.count == Spec(|st.starts|) then st.starts + [|st.out|] else st.starts
  }

  lemma ScanToken(st: Scan, s: string)
    requires !st.inside && st.curr != 1 && st.count != 1 && IsToken(s)
    ensures ScanAll(st, s) == Scan(st.out + s, Begin(st), st.count + 1, true, st.curr)
  {
    ScanInside(Step(st, s[0]), s[1..]);
    assert st.out + [s[0]] + s[1..] == st.out + s;
  }

  lemma One(st: Scan, c: char)
    requires c != NUL && c != '\n'
    ensures ScanAll(st, [c]) == Step(st, c)
  {
    assert [c][1..] == "";
  }

  lemma ScanOpen(st: Scan, name: string)
    requires !st.inside && st.curr != 1 && st.count == 1 && IsName(name)
    ensures ScanAll(st, "(" + name) == Scan(st.out + "(" + Underscored(name), Begin(st), 2, true, 1)
  {
    ScanAppend(st, "(", name);
    One(st, '(');
    ScanName(Step(st, '('), name);
  }

  lemma ScanComm(st: Scan, name: string)
    requires !st.inside && st.curr != 1 && st.count == 1 && IsName(name)
    ensures ScanAll(st, "(" + name + ")") == Scan(st.out + ("(" + Underscored(name) + ")"), Begin(st), 2, true, 2)
  {
    ScanOpen(st, name);
    var open := "(" + name;
    ScanAppend(st, open, ")");
    var a := ScanAll(st, open);
    One(a, ')');
    assert Step(a, ')') == Scan(a.out + ")", a.starts, 2, true, 2);
    Assoc(st.out, "(", Underscored(name));
    Assoc(st.out, "(" + Underscored(name), ")");
  }

  lemma BeginIs(fs: seq<string>, n: nat)
    requires n < |fs|
    ensures Begin(Middle(fs, n)) == Places(fs, Matched(n + 1))
  {
    var m := Matched(n);
    if m < WANTED && Spec(m) == n {
      assert Places(fs, m + 1) == Places(fs, m) + [|Left(fs, n)|];
    }
  }

  lemma ScanField(fs: seq<string>, n: nat)
    requires IsStat(fs) && n < |fs|
    ensures ScanAll(Middle(fs, n), Shown(fs, n))
         == Scan(Left(fs, n) + Stored(fs, n), Places(fs, Matched(n + 1)), n + 1, true, if n >= 1 then 2 else 0)
  {
    var st := Middle(fs, n);
    BeginIs(fs, n);
    if n == 1 { ScanComm(st, fs[n]); } else { ScanToken(st, fs[n]); }
  }

  lemma ShownPlain(fs: seq<string>, n: nat)
    requires IsStat(fs) && n < |fs|
    ensures Plain(Shown(fs, n))
  {
  }

  lemma {:induction false} LeadPlain(fs: seq<string>, n: nat)
    requires IsStat(fs) && n <= |fs|
    ensures Plain(Lead(fs, n))
  {
    if n > 0 { LeadPlain(fs, n - 1); ShownPlain(fs, n - 1); }
  }

  lemma {:induction false} ScanLead(fs: seq<string>, n: nat)
    requires IsStat(fs) && n <= |fs|
    ensures ScanAll(START, Lead(fs, n)) == Middle(fs, n)
  {
    if n > 0 {
      var m := n - 1;
      var front, next := Lead(fs, m), Shown(fs, m) + " ";
      ScanLead(fs, m);
      LeadPlain(fs, m);
      ScanAppend(START, front, next);
      ScanStep(fs, m);
      assert Lead(fs, n) == front + next;
    }
  }

  /** One field and the space after it. */
  lemma ScanStep(fs: seq<string>, m: nat)
    requires IsStat(fs) && m < |fs|
    ensures ScanAll(Middle(fs, m), Shown(fs, m) + " ") == Middle(fs, m + 1)
  {
    ShownPlain(fs, m);
    ScanAppend(Middle(fs, m), Shown(fs, m), " ");
    ScanField(fs, m);
    var st := ScanAll(Middle(fs, m), Shown(fs, m));
    One(st, ' ');
    assert Step(st, ' ') == st.(out := st.out + [NUL], inside := false);
    Assoc(Left(fs, m), Stored(fs, m), [NUL]);
  }

  /** Every place recorded on a line is where a wanted field begins, and the buffer starts with the fields, each
      ended by a NUL. */
  lemma ScanLine(fs: seq<string>, rest: string)
    requires IsStat(fs) && |fs| >= 40
    ensures var r := ScanAll(START, Line(fs) + rest);
      r.starts == Places(fs, Matched(|fs|)) && r.out == Left(fs, |fs| - 1) + Stored(fs, |fs| - 1)
  {
    var n := |fs| - 1;
    var tail := "\n" + rest;
    assert Line(fs) + rest == Lead(fs, n) + (Shown(fs, n) + tail);
    LeadPlain(fs, n);
    ScanAppend(START, Lead(fs, n), Shown(fs, n) + tail);
    ScanLead(fs, n);
    ShownPlain(fs, n);
    ScanAppend(Middle(fs, n), Shown(fs, n), tail);
    ScanField(fs, n);
  }

  /** The buffer over the first `n` fields is as long as the line over them. */
  lemma {:induction false} LeftLength(fs: seq<string>, n: nat)
    requires n <= |fs|
    ensures |Left(fs, n)| == |Lead(fs, n)|
  {
    if n > 0 { LeftLength(fs, n - 1); }
  }

  lemma {:induction false} PlacesLength(fs: seq<string>, m: nat, i: nat)
    requires i < m <= WANTED && |fs| >= 40
    ensures Places(fs, m)[i] == |Lead(fs, Spec(i))|
  {
    if i == m - 1 { LeftLength(fs, Spec(i)); } else { PlacesLength(fs, m - 1, i); }
  }

  /** `piece` stands in `s` at place `at`. */
  predicate HasAt(s: string, at: nat, piece: string) {
    at + |piece| <= |s| && forall i :: 0 <= i < |piece| ==> s[at + i] == piece[i]
  }

  lemma HasAtLonger(s: string, more: string, at: nat, piece: string)
    requires HasAt(s, at, piece)
    ensures HasAt(s + more, at, piece)
  {
  }

  lemma HasAtNext(s: string, piece: string, more: string)
    ensures HasAt(s + (piece + more), |s|, piece)
  {
  }

  /** On a line, what precedes field `k` is followed by the field. */
  lemma {:induction false} FieldAt(fs: seq<string>, k: nat, n: nat)
    requires k < n <= |fs|
    ensures HasAt(Lead(fs, n), |Lead(fs, k)|, Shown(fs, k))
  {
    if k < n - 1 {
      FieldAt(fs, k, n - 1);
      HasAtLonger(Lead(fs, n - 1), Shown(fs, n - 1) + " ", |Lead(fs, k)|, Shown(fs, k));
    } else {
      HasAtNext(Lead(fs, k), Shown(fs, k), " ");
    }
  }

  lemma LineHas(fs: seq<string>, at: nat, piece: string)
    requires fs != [] && HasAt(Lead(fs, |fs| - 1), at, piece)
    ensures HasAt(Line(fs), at, piece)
  {
    var front, end := Lead(fs, |fs| - 1), Shown(fs, |fs| - 1) + "\n";
    HasAtLonger(front, end, at, piece);
    assert Line(fs) == front + end;
  }

  lemma TenPlaces(fs: seq<string>, rest: string, i: nat)
    requires IsStat(fs) && |fs| >= 40 && i < WANTED
    ensures var r := ScanAll(START, Line(fs) + rest);
      |r.starts| == WANTED && r.starts[i] == |Lead(fs, Spec(i))|
  {
    ScanLine(fs, rest);
    PlacesLength(fs, Matched(|fs|), i);
  }

  /** The places that the scan of a line records: there are ten, and the `i`-th is where on the line the `i`-th
      specified field begins. */
  lemma RecordedPlaces(fs: seq<string>, rest: string, i: nat, k: nat)
    requires IsStat(fs) && |fs| >= 40 && i < 10 && k == [0, 1, 3, 13, 14, 15, 16, 19, 21, 38][i]
    ensures var starts := ScanAll(START, Line(fs) + rest).starts;
      |starts| == 10 && HasAt(Line(fs), starts[i], Shown(fs, k))
  {
    SpecTable();
    assert Spec(i) == k;
    TenPlaces(fs, rest, i);
    FieldAt(fs, k, |fs| - 1);
    LineHas(fs, |Lead(fs, k)|, Shown(fs, k));
  }

  // ---- the pieces ----

  lemma {:induction false} CStringOf(s: string, rest: string)
    requires forall i :: 0 <= i < |s| ==> s[i] != NUL
    ensures CString(s + [NUL] + rest) == s
  {
    if s == "" {
      assert s + [NUL] + rest == [NUL] + rest;
    } else {
      assert (s + [NUL] + rest)[1..] == s[1..] + [NUL] + rest;
      CStringOf(s[1..], rest);
    }
  }

  lemma {:induction false} LeftHas(fs: seq<string>, k: nat, n: nat)
    requires k < n <= |fs|
    ensures HasAt(Left(fs, n), |Left(fs, k)|, Stored(fs, k) + [NUL])
  {
    if k < n - 1 {
      LeftHas(fs, k, n - 1);
      LeftLonger(fs, n - 1, |Left(fs, k)|, Stored(fs, k) + [NUL]);
    } else {
      HasAtNext(Left(fs, k), Stored(fs, k) + [NUL], "");
      assert Stored(fs, k) + [NUL] + "" == Stored(fs, k) + [NUL];
    }
  }

  lemma LeftLonger(fs: seq<string>, n: nat, at: nat, piece: string)
    requires n < |fs| && HasAt(Left(fs, n), at, piece)
    ensures HasAt(Left(fs, n + 1), at, piece)
  {
    HasAtLonger(Left(fs, n), Stored(fs, n) + [NUL], at, piece);
  }

  lemma StoredPlain(fs: seq<string>, k: nat)
    requires IsStat(fs) && k < |fs|
    ensures forall i :: 0 <= i < |Stored(fs, k)| ==> Stored(fs, k)[i] != NUL
  {
  }

  lemma CStringAt(buf: string, at: nat, piece: string)
    requires HasAt(buf, at, piece + [NUL]) && forall i :: 0 <= i < |piece| ==> piece[i] != NUL
    ensures CString(buf[at..]) == piece
  {
    var end := at + |piece|;
    assert buf[end] == (piece + [NUL])[|piece|];
    assert forall i :: 0 <= i < |piece| ==> buf[at + i] == (piece + [NUL])[i];
    assert buf[at..] == piece + [NUL] + buf[end + 1..];
    CStringOf(piece, buf[end + 1..]);
  }

  lemma PieceAt(fs: seq<string>, k: nat, n: nat, more: string)
    requires IsStat(fs) && k < n <= |fs|
    ensures var buf := Left(fs, n) + more;
      |Left(fs, k)| <= |buf| && CString(buf[|Left(fs, k)|..]) == Stored(fs, k)
  {
    LeftHas(fs, k, n);
    HasAtLonger(Left(fs, n), more, |Left(fs, k)|, Stored(fs, k) + [NUL]);
    StoredPlain(fs, k);
    CStringAt(Left(fs, n) + more, |Left(fs, k)|, Stored(fs, k));
  }

  /** The first `m` wanted fields as the row carries them. */
  function Wanted(fs: seq<string>, m: nat): (r: seq<string>)
    requires m <= WANTED && |fs| >= 40
    ensures |r| == m && forall i :: 0 <= i < m ==> r[i] == Stored(fs, Spec(i))
  {
    if m == 0 then [] else Wanted(fs, m - 1) + [Stored(fs, Spec(m - 1))]
  }

  function Spaced(words: seq<string>): string {
    if words == [] then "" else Spaced(words[..|words| - 1]) + " " + words[|words| - 1]
  }

  lemma PiecesSnoc(buf: string, starts: seq<nat>, at: nat)
    requires at <= |buf|
    ensures Pieces(buf, starts + [at]) == Pieces(buf, starts) + " " + CString(buf[at..])
  {
    assert (starts + [at])[..|starts|] == starts;
  }

  lemma SpacedSnoc(words: seq<string>, w: string)
    ensures Spaced(words + [w]) == Spaced(words) + " " + w
  {
    assert (words + [w])[..|words|] == words;
  }

  lemma {:induction false} PiecesOf(fs: seq<string>, m: nat, more: string)
    requires IsStat(fs) && |fs| >= 40 && m <= WANTED
    ensures Pieces(Left(fs, |fs| - 1) + more, Places(fs, m)) == Spaced(Wanted(fs, m))
  {
    if m > 0 {
      PiecesOf(fs, m - 1, more);
      NextPiece(fs, m - 1, Left(fs, |fs| - 1) + more, more);
    }
  }

  lemma NextPiece(fs: seq<string>, m: nat, buf: string, more: string)
    requires IsStat(fs) && |fs| >= 40 && m < WANTED && buf == Left(fs, |fs| - 1) + more
    requires Pieces(buf, Places(fs, m)) == Spaced(Wanted(fs, m))
    ensures Pieces(buf, Places(fs, m + 1)) == Spaced(Wanted(fs, m + 1))
  {
    var k := Spec(m);
    var at, piece := |Left(fs, k)|, Stored(fs, k);
    PieceAt(fs, k, |fs| - 1, more);
    PiecesSnoc(buf, Places(fs, m), at);
    SpacedSnoc(Wanted(fs, m), piece);
  }

  // ---- the whole way ----

  lemma {:induction false} WordOf(w: string, rest: string)
    requires forall i :: 0 <= i < |w| ==> w[i] != ' '
    requires rest == "" || rest[0] == ' '
    ensures Word(w + rest) == w
  {
    if w == "" {
      assert w + rest == rest;
    } else {
      assert (w + rest)[0] == w[0] && (w + rest)[1..] == w[1..] + rest;
      WordOf(w[1..], rest);
    }
  }

  predicate Words(ws: seq<string>) {
    forall k :: 0 <= k < |ws| ==> ws[k] != "" && forall i :: 0 <= i < |ws[k]| ==> ws[k][i] != ' '
  }

  lemma {:induction false} SpacedFront(ws: seq<string>)
    requires ws != []
    ensures Spaced(ws) == " " + ws[0] + Spaced(ws[1..])
  {
    var n := |ws| - 1;
    if n == 0 {
      assert Spaced(ws[..0]) == "" && ws[1..] == [];
      assert Spaced(ws) == " " + ws[0];
    } else {
      SpacedFront(ws[..n]);
      var middle := ws[1..][..n - 1];
      assert ws[..n][1..] == middle && ws[1..][n - 1] == ws[n];
      Assoc(" " + ws[0], Spaced(middle), " ");
      Assoc(" " + ws[0], Spaced(middle) + " ", ws[n]);
    }
  }

  lemma {:induction false} SplitSpaced(w: string, ws: seq<string>)
    requires Words([w] + ws)
    ensures Split(w + Spaced(ws)) == [w] + ws
    decreases |ws|
  {
    var s := w + Spaced(ws);
    WordsRest(w, ws);
    if ws == [] {
      assert s == w;
      WordOf(w, "");
      assert w + "" == w;
    } else {
      var rest := ws[0] + Spaced(ws[1..]);
      SpacedFront(ws);
      assert Spaced(ws) == " " + rest;
      assert [ws[0]] + ws[1..] == ws;
      SplitSpaced(ws[0], ws[1..]);
      SplitFirst(w, rest);
    }
  }

  lemma SplitFirst(w: string, rest: string)
    requires forall i :: 0 <= i < |w| ==> w[i] != ' '
    ensures Split(w + (" " + rest)) == [w] + Split(rest)
  {
    var s := w + (" " + rest);
    WordOf(w, " " + rest);
    assert s[|w| + 1..] == rest;
  }

  lemma WordsRest(w: string, ws: seq<string>)
    requires Words([w] + ws)
    ensures w != "" && Words(ws) && forall i :: 0 <= i < |w| ==> w[i] != ' '
  {
    assert ([w] + ws)[0] == w;
    forall k | 0 <= k < |ws| ensures ws[k] != "" && forall i :: 0 <= i < |ws[k]| ==> ws[k][i] != ' ' {
      assert ws[k] == ([w] + ws)[k + 1];
    }
  }

  lemma StoredIsWord(fs: seq<string>, k: nat)
    requires IsStat(fs) && k < |fs|
    ensures Stored(fs, k) != "" && forall i :: 0 <= i < |Stored(fs, k)| ==> Stored(fs, k)[i] != ' '
  {
  }

  /** The row that the collector writes for a line, without its newline. */
  function Row(line: string): string { "S" + ParseStat(line) }

  lemma RowOf(fs: seq<string>, rest: string)
    requires IsStat(fs) && |fs| >= 40
    ensures Row(Line(fs) + rest) == "S" + Spaced(Wanted(fs, Matched(|fs|)))
  {
    ScanLine(fs, rest);
    var n := |fs| - 1;
    var tail := ParseFrom(Line(fs) + rest, Left(fs, n), Stored(fs, n));
    PiecesOf(fs, Matched(|fs|), Stored(fs, n) + tail);
  }

  lemma ParseFrom(line: string, a: string, b: string) returns (tail: string)
    requires ScanAll(START, line).out == a + b
    ensures ParseStat(line) == Pieces(a + (b + tail), ScanAll(START, line).starts)
  {
    tail := line[|a + b|..];
    Assoc(a, b, tail);
  }

  lemma WantedAreWords(fs: seq<string>)
    requires IsStat(fs) && |fs| >= 40
    ensures Words(["S"] + Wanted(fs, Matched(|fs|)))
  {
    var all := ["S"] + Wanted(fs, Matched(|fs|));
    forall k | 0 <= k < |all| ensures all[k] != "" && forall i :: 0 <= i < |all[k]| ==> all[k][i] != ' ' {
      if k > 0 {
        StoredIsWord(fs, Spec(k - 1));
        assert all[k] == Stored(fs, Spec(k - 1));
      }
    }
  }

  /** The row of a line, split and read back, gives the ten specified fields; only the spaces in the name have
      changed. */
  lemma FieldsRecovered(fs: seq<string>, rest: string)
    requires IsStat(fs) && |fs| >= 40
    ensures Split(Row(Line(fs) + rest)) != [] && Split(Row(Line(fs) + rest))[0] == "S"
    ensures var r := Status(Split(Row(Line(fs) + rest)));
      && |r| == 10
      && r[0] == fs[0] && r[1] == Underscored(fs[1]) && r[2] == fs[3] && r[3] == fs[13] && r[4] == fs[14]
      && r[5] == fs[15] && r[6] == fs[16] && r[7] == fs[19] && r[8] == fs[21] && r[9] == fs[38]
  {
    SpecifiedRecovered(fs, rest);
    SpecTable();
  }

  lemma SpecifiedRecovered(fs: seq<string>, rest: string)
    requires IsStat(fs) && |fs| >= 40
    ensures Split(Row(Line(fs) + rest)) != [] && Split(Row(Line(fs) + rest))[0] == "S"
    ensures var r := Status(Split(Row(Line(fs) + rest)));
      && |r| == WANTED
      && forall i :: 0 <= i < WANTED ==> r[i] == if i == 1 then Underscored(fs[1]) else fs[Spec(i)]
  {
    RowOf(fs, rest);
    WantedAreWords(fs);
    var ws := Wanted(fs, Matched(|fs|));
    SplitSpaced("S", ws);
    StatusOf(ws);
    StatusFields(fs, ws);
  }

  lemma StatusFields(fs: seq<string>, ws: seq<string>)
    requires |fs| >= 40 && ws == Wanted(fs, Matched(|fs|))
    ensures |ws| == WANTED
    ensures var r := [ws[0], Inner(ws[1])] + ws[2..];
      |r| == WANTED && forall i :: 0 <= i < WANTED ==> r[i] == if i == 1 then Underscored(fs[1]) else fs[Spec(i)]
  {
    var r := [ws[0], Inner(ws[1])] + ws[2..];
    forall i | 0 <= i < WANTED ensures r[i] == if i == 1 then Underscored(fs[1]) else fs[Spec(i)] {
      StatusField(fs, ws, i);
    }
  }

  lemma StatusField(fs: seq<string>, ws: seq<string>, i: nat)
    requires |fs| >= 40 && ws == Wanted(fs, Matched(|fs|)) && i < WANTED
    ensures |ws| == WANTED
    ensures (if i == 1 then Inner(ws[i]) else ws[i]) == if i == 1 then Underscored(fs[1]) else fs[Spec(i)]
  {
    assert ws[i] == Stored(fs, Spec(i));
    if i == 1 { StripName(fs[1]); }
  }

  lemma StatusOf(ws: seq<string>)
    requires |ws| >= 2
    ensures Status(["S"] + ws) == [ws[0], Inner(ws[1])] + ws[2..]
  {
    var row := ["S"] + ws;
    assert row[1] == ws[0] && row[2] == ws[1] && row[3..] == ws[2..];
  }

  lemma StripName(name: string)
    ensures Inner("(" + Underscored(name) + ")") == Underscored(name)
  {
  }
}
