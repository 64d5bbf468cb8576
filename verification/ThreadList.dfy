/**
 * The lock-free list of thread records: any number of threads register by pushing a record at the head with
 * compare-and-swap, while the sender walks the list and unlinks the records of threads that have exited.
 *
 * Records live at addresses that the allocator may hand out again once they are freed. `serial` numbers the
 * registrations, so that two registrations at one address stay apart; of the book no step reads more than
 * which records are registered, since only a registered thread has a record to mark when it exits.
 */
module ThreadList {

  type Address = nat
  datatype Ref = Null | To(at: Address)

  /** A field that holds a reference: the head of the list, or the `next` field of a record. */
  datatype Slot = Head | NextOf(at: Address)

  /** A registering thread: it has a record of its own, and has or has not yet copied the head into it. */
  datatype Pusher = Pusher(record: Address, loaded: bool)

  /** The sender: between two walks; at record `thread`, reached through the field `prev`; or about to try to
      unlink `thread`, whose successor it has read. */
  datatype Sender =
    | Resting
    | Walking(prev: Slot, thread: Ref)
    | Unlinking(prev: Slot, at: Address, next: Ref)

  /** History: `serial` gives the number of the registration that each record on the list came from; `unlinked`
      lists the numbers of those that were unlinked, `gone` those whose thread has exited. */
  datatype Book = Book(serial: map<Address, nat>, registered: nat, unlinked: seq<nat>, gone: set<nat>)

  datatype State = State(
    head: Ref, next: map<Address, Ref>, exited: set<Address>, pushers: map<nat, Pusher>, sender: Sender, book: Book)

  datatype Step =
    | Allocate(thread: nat, at: Address)   // malloc returns a record
    | LoadHead(thread: nat)                // record->next = head
    | Push(thread: nat)                    // compare-and-swap on the head, which may fail
    | Exit(at: Address)                    // the destructor of a registered thread sets `exited`
    | BeginWalk                            // the sender loads the head
    | Look                                 // the sender loads thread->next and thread->exited
    | Unlink                               // compare-and-swap on `prev`, which may fail; then free

  predicate Initial(s: State) {
    s == State(Null, map[], {}, map[], Resting, Book(map[], 0, [], {}))
  }

  function Next(next: map<Address, Ref>, a: Address): Ref {
    if a in next then next[a] else Null
  }

  function Load(s: State, slot: Slot): Ref {
    match slot
    case Head => s.head
    case NextOf(a) => Next(s.next, a)
  }

  predicate Enabled(s: State, l: Step) {
    match l
    case Allocate(t, a) => t !in s.pushers && a !in s.next
    case LoadHead(t) => t in s.pushers
    case Push(t) => t in s.pushers && s.pushers[t].loaded && s.pushers[t].record in s.next
    case Exit(a) => a in s.book.serial
    case BeginWalk => s.sender == Resting
    case Look => s.sender.Walking?
    case Unlink => s.sender.Unlinking?
  }

  function Apply(s: State, l: Step): State
    requires Enabled(s, l)
  {
    match l
    case Allocate(t, a) => s.(next := s.next[a := Null], pushers := s.pushers[t := Pusher(a, false)])
    case LoadHead(t) =>
      var a := s.pushers[t].record;
      s.(next := s.next[a := s.head], pushers := s.pushers[t := Pusher(a, true)])
    case Push(t) =>
      var a := s.pushers[t].record;
      if s.head == s.next[a] then
        s.(head := To(a), pushers := s.pushers - {t}, book := Registered(s.book, a))
      else s.(pushers := s.pushers[t := Pusher(a, false)])
    case Exit(a) => s.(exited := s.exited + {a}, book := s.book.(gone := s.book.gone + {s.book.serial[a]}))
    case BeginWalk => s.(sender := Walking(Head, s.head))
    case Look =>
      (match s.sender.thread
       case Null => s.(sender := Resting)
       case To(a) =>
         var next := Load(s, NextOf(a));
         if a in s.exited then s.(sender := Unlinking(s.sender.prev, a, next))
         else s.(sender := Walking(NextOf(a), next)))
    case Unlink =>
      var a := s.sender.at;
      if Load(s, s.sender.prev) == To(a) then Freed(Redirected(s, s.sender.prev, s.sender.next), a)
      else s.(sender := Walking(NextOf(a), Load(s, NextOf(a))))
  }

  /** The successful compare-and-swap: the field `slot` now refers to `r`, where the walk goes on. */
  function Redirected(s: State, slot: Slot, r: Ref): State {
    var t := s.(sender := Walking(slot, r));
    match slot
    case Head => t.(head := r)
    case NextOf(p) => t.(next := t.next[p := r])
  }

  function Freed(s: State, a: Address): State {
    s.(next := s.next - {a}, exited := s.exited - {a}, book := Unlinked(s.book, a))
  }

  function Registered(b: Book, a: Address): Book {
    b.(serial := b.serial[a := b.registered], registered := b.registered + 1)
  }

  function Unlinked(b: Book, a: Address): Book {
    if a in b.serial then b.(serial := b.serial - {a}, unlinked := b.unlinked + [b.serial[a]]) else b
  }

  predicate Runs(s: State, ls: seq<Step>, t: State)
    decreases |ls|
  {
    if ls == [] then s == t else Enabled(s, ls[0]) && Runs(Apply(s, ls[0]), ls[1..], t)
  }

  // ---- What every step keeps ----

  /** The reference to the element of `list` at `i`. */
  function RefAt(list: seq<Address>, i: nat): Ref {
    if i < |list| then To(list[i]) else Null
  }

  /** `list` is what following the references from the head visits, and ends. */
  ghost predicate Chain(head: Ref, next: map<Address, Ref>, list: seq<Address>) {
    && head == RefAt(list, 0)
    && forall i :: 0 <= i < |list| ==> list[i] in next && next[list[i]] == RefAt(list, i + 1)
  }

  ghost predicate Distinct<T>(list: seq<T>) {
    forall i, j :: 0 <= i < j < |list| ==> list[i] != list[j]
  }

  /** Registering threads own records that are not on the list, each its own. */
  ghost predicate PushersOk(pushers: map<nat, Pusher>, next: map<Address, Ref>, list: seq<Address>) {
    && (forall t <- pushers :: pushers[t].record in next && pushers[t].record !in list)
    && (forall t, u :: t in pushers && u in pushers && t != u ==> pushers[t].record != pushers[u].record)
  }

  /** The field through which the sender came holds what it found there; only the head may change behind it. */
  ghost predicate SenderOk(sender: Sender, next: map<Address, Ref>, exited: set<Address>, list: seq<Address>) {
    match sender
    case Resting => true
    case Walking(Head, r) => r == Null || r.at in list
    case Walking(NextOf(p), r) => p in list && Next(next, p) == r
    case Unlinking(Head, a, n) => a in list && a in exited && Next(next, a) == n
    case Unlinking(NextOf(p), a, n) =>
      p in list && a in list && a in exited && Next(next, p) == To(a) && Next(next, a) == n
  }

  /** Every registration is either on the list, at one record, or was unlinked, once. */
  ghost predicate Accounts(b: Book, list: seq<Address>) {
    && b.serial.Keys == (set a | a in list)
    && (forall a <- b.serial :: b.serial[a] < b.registered && b.serial[a] !in b.unlinked)
    && (forall a, c :: a in b.serial && c in b.serial && a != c ==> b.serial[a] != b.serial[c])
    && (forall n: nat :: n < b.registered ==> n in b.unlinked || n in b.serial.Values)
    && (forall n <- b.unlinked :: n < b.registered)
    && Distinct(b.unlinked)
  }

  /** Only threads that have exited are marked so, and only their records were unlinked. */
  ghost predicate ExitsOk(b: Book, exited: set<Address>) {
    && (forall a <- exited :: a in b.serial && b.serial[a] in b.gone)
    && (forall n <- b.unlinked :: n in b.gone)
  }

  ghost predicate Inv(s: State, list: seq<Address>) {
    && Chain(s.head, s.next, list) && Distinct(list)
    && PushersOk(s.pushers, s.next, list) && SenderOk(s.sender, s.next, s.exited, list)
    && Accounts(s.book, list) && ExitsOk(s.book, s.exited)
  }

  // ---- Steps other than the unlinking ----

  /** A store to a record that is not on the list leaves the list alone. */
  lemma OffList(s: State, list: seq<Address>, a: Address, r: Ref)
    requires Inv(s, list) && a !in list
    ensures Chain(s.head, s.next[a := r], list) && SenderOk(s.sender, s.next[a := r], s.exited, list)
  {
  }

  lemma AllocateStep(s: State, list: seq<Address>, l: Step)
    requires Inv(s, list) && Enabled(s, l) && (l.Allocate? || l.LoadHead?)
    ensures Inv(Apply(s, l), list)
  {
    if l.Allocate? {
      assert l.at !in list;
      OffList(s, list, l.at, Null);
    } else {
      OffList(s, list, s.pushers[l.thread].record, s.head);
    }
  }

  lemma ChainLonger(head: Ref, next: map<Address, Ref>, list: seq<Address>, a: Address)
    requires Chain(head, next, list) && a in next && next[a] == head
    ensures Chain(To(a), next, [a] + list)
  {
    var longer := [a] + list;
    forall i | 0 <= i < |longer|
      ensures longer[i] in next && next[longer[i]] == RefAt(longer, i + 1)
    {
      if i > 0 {
        assert longer[i] == list[i - 1] && RefAt(longer, i + 1) == RefAt(list, i);
      } else {
        assert RefAt(longer, 1) == RefAt(list, 0);
      }
    }
  }

  lemma PushAccounts(b: Book, exited: set<Address>, list: seq<Address>, a: Address)
    requires Accounts(b, list) && ExitsOk(b, exited) && a !in list
    ensures Accounts(Registered(b, a), [a] + list) && ExitsOk(Registered(b, a), exited)
  {
    var c := Registered(b, a);
    assert a !in b.serial;
    forall n: nat | n < c.registered ensures n in c.unlinked || n in c.serial.Values {
      if n < b.registered && n !in b.unlinked {
        var e :| e in b.serial && b.serial[e] == n;
        assert c.serial[e] == n;
      } else if n == b.registered {
        assert c.serial[a] == n;
      }
    }
  }

  /** A push that succeeds puts its record in front of the list as it is at that moment, even if the head changed
      back and forth since it was loaded. */
  lemma PushStep(s: State, list: seq<Address>, l: Step)
    requires Inv(s, list) && Enabled(s, l) && l.Push?
    requires s.head == s.next[s.pushers[l.thread].record]
    ensures Inv(Apply(s, l), [s.pushers[l.thread].record] + list)
  {
    var a := s.pushers[l.thread].record;
    ChainLonger(s.head, s.next, list, a);
    PushAccounts(s.book, s.exited, list, a);
    assert Distinct([a] + list);
    assert PushersOk(s.pushers - {l.thread}, s.next, [a] + list);
    assert SenderOk(s.sender, s.next, s.exited, [a] + list);
  }

  lemma PushFails(s: State, list: seq<Address>, l: Step)
    requires Inv(s, list) && Enabled(s, l) && l.Push?
    requires s.head != s.next[s.pushers[l.thread].record]
    ensures Inv(Apply(s, l), list)
  {
    assert PushersOk(Apply(s, l).pushers, s.next, list);
  }

  /** The successor of a record on the list is on the list. */
  lemma Successor(head: Ref, next: map<Address, Ref>, list: seq<Address>, a: Address)
    requires Chain(head, next, list) && a in list
    ensures Next(next, a) == Null || Next(next, a).at in list
  {
    var i :| 0 <= i < |list| && list[i] == a;
    assert next[list[i]] == RefAt(list, i + 1);
  }

  lemma LookStep(s: State, list: seq<Address>, l: Step)
    requires Inv(s, list) && Enabled(s, l) && (l.BeginWalk? || l.Look?)
    ensures Inv(Apply(s, l), list)
  {
    if l.Look? && s.sender.prev.NextOf? {
      Successor(s.head, s.next, list, s.sender.prev.at);
    }
  }

  lemma ExitStep(s: State, list: seq<Address>, l: Step)
    requires Inv(s, list) && Enabled(s, l) && l.Exit?
    ensures Inv(Apply(s, l), list)
  {
    var t := Apply(s, l);
    assert Accounts(t.book, list);
    assert SenderOk(t.sender, t.next, t.exited, list);
  }

  // ---- The unlinking ----

  function Without(list: seq<Address>, k: nat): seq<Address>
    requires k < |list|
  {
    list[..k] + list[k + 1..]
  }

  lemma WithoutMembers(list: seq<Address>, k: nat)
    requires k < |list| && Distinct(list)
    ensures Distinct(Without(list, k))
    ensures forall a :: a in Without(list, k) <==> a in list && a != list[k]
  {
    var rest := Without(list, k);
    assert forall i :: 0 <= i < |rest| ==> rest[i] == if i < k then list[i] else list[i + 1];
    forall a | a in list && a != list[k] ensures a in rest {
      var i :| 0 <= i < |list| && list[i] == a;
      assert rest[if i < k then i else i - 1] == a;
    }
  }

  lemma WithoutRefs(list: seq<Address>, k: nat, i: nat)
    requires k < |list|
    ensures RefAt(Without(list, k), i) == if i < k then RefAt(list, i) else RefAt(list, i + 1)
  {
  }

  lemma ChainWithoutHead(head: Ref, next: map<Address, Ref>, list: seq<Address>)
    requires Chain(head, next, list) && Distinct(list) && list != []
    ensures Chain(Next(next, list[0]), next - {list[0]}, Without(list, 0))
  {
    var rest := Without(list, 0);
    assert rest == list[1..];
    forall i | 0 <= i < |rest| ensures rest[i] in next && rest[i] != list[0] && next[rest[i]] == RefAt(rest, i + 1) {
      assert rest[i] == list[i + 1];
      WithoutRefs(list, 0, i + 1);
    }
    WithoutRefs(list, 0, 0);
    assert next[list[0]] == RefAt(list, 1);
  }

  /** Redirecting the reference to record `k` past it takes it off the chain. */
  lemma ChainWithout(head: Ref, next: map<Address, Ref>, list: seq<Address>, k: nat)
    requires Chain(head, next, list) && Distinct(list) && 0 < k < |list|
    ensures Chain(head, next[list[k - 1] := Next(next, list[k])] - {list[k]}, Without(list, k))
  {
    var rest, next' := Without(list, k), next[list[k - 1] := Next(next, list[k])] - {list[k]};
    forall i | 0 <= i < |rest| ensures rest[i] in next' && next'[rest[i]] == RefAt(rest, i + 1) {
      LinkWithout(head, next, list, k, i);
    }
    WithoutRefs(list, k, 0);
  }

  lemma LinkWithout(head: Ref, next: map<Address, Ref>, list: seq<Address>, k: nat, i: nat)
    requires Chain(head, next, list) && Distinct(list) && 0 < k < |list| && i < |list| - 1
    ensures var a, next' := Without(list, k)[i], next[list[k - 1] := Next(next, list[k])] - {list[k]};
            a in next' && next'[a] == RefAt(Without(list, k), i + 1)
  {
    var j := if i < k then i else i + 1;
    assert Without(list, k)[i] == list[j] && list[j] != list[k];
    WithoutRefs(list, k, i + 1);
    assert next[list[j]] == RefAt(list, j + 1) && next[list[k]] == RefAt(list, k + 1);
    assert j != k - 1 ==> list[j] != list[k - 1];
  }

  lemma UnlinkAccounts(b: Book, exited: set<Address>, list: seq<Address>, k: nat)
    requires Accounts(b, list) && ExitsOk(b, exited) && Distinct(list) && k < |list| && list[k] in exited
    ensures Accounts(Unlinked(b, list[k]), Without(list, k)) && ExitsOk(Unlinked(b, list[k]), exited - {list[k]})
  {
    var a, c := list[k], Unlinked(b, list[k]);
    WithoutMembers(list, k);
    assert a in b.serial && c.serial == b.serial - {a} && c.unlinked == b.unlinked + [b.serial[a]];
    forall n: nat | n < c.registered ensures n in c.unlinked || n in c.serial.Values {
      StillAccounted(b, list, a, n);
    }
  }

  lemma StillAccounted(b: Book, list: seq<Address>, a: Address, n: nat)
    requires Accounts(b, list) && a in b.serial && n < b.registered
    ensures n in Unlinked(b, a).unlinked || n in Unlinked(b, a).serial.Values
  {
    var c := Unlinked(b, a);
    if n in b.unlinked || n == b.serial[a] {
      assert n in c.unlinked;
    } else {
      var e :| e in b.serial && b.serial[e] == n;
      assert c.serial[e] == n;
    }
  }

  lemma UnlinkHead(s: State, list: seq<Address>)
    requires Inv(s, list) && s.sender.Unlinking? && s.sender.prev == Head && s.head == To(s.sender.at)
    ensures list != [] && Inv(Apply(s, Unlink), Without(list, 0))
  {
    var t, rest := Apply(s, Unlink), Without(list, 0);
    ChainWithoutHead(s.head, s.next, list);
    WithoutMembers(list, 0);
    UnlinkAccounts(s.book, s.exited, list, 0);
    assert PushersOk(t.pushers, t.next, rest);
    assert SenderOk(t.sender, t.next, t.exited, rest);
  }

  lemma UnlinkInside(s: State, list: seq<Address>, k: nat)
    requires Inv(s, list) && s.sender.Unlinking? && 0 < k < |list| && list[k] == s.sender.at
    requires s.sender.prev == NextOf(list[k - 1])
    ensures Inv(Apply(s, Unlink), Without(list, k))
  {
    var t, rest := Apply(s, Unlink), Without(list, k);
    ChainWithout(s.head, s.next, list, k);
    WithoutMembers(list, k);
    UnlinkAccounts(s.book, s.exited, list, k);
    assert list[k - 1] != list[k];
    assert PushersOk(t.pushers, t.next, rest);
    assert SenderOk(t.sender, t.next, t.exited, rest);
  }

  lemma UnlinkStep(s: State, list: seq<Address>) returns (list': seq<Address>)
    requires Inv(s, list) && s.sender.Unlinking?
    ensures Inv(Apply(s, Unlink), list')
  {
    if s.sender.prev == Head {
      if s.head == To(s.sender.at) {
        UnlinkHead(s, list);
        list' := Without(list, 0);
      } else {
        UnlinkFails(s, list);
        list' := list;
      }
    } else {
      var k := Place(s, list);
      UnlinkInside(s, list, k);
      list' := Without(list, k);
    }
  }

  lemma UnlinkFails(s: State, list: seq<Address>)
    requires Inv(s, list) && s.sender.Unlinking? && s.sender.prev == Head && s.head != To(s.sender.at)
    ensures Inv(Apply(s, Unlink), list)
  {
    var sender := Walking(NextOf(s.sender.at), Next(s.next, s.sender.at));
    assert Apply(s, Unlink) == s.(sender := sender);
    assert SenderOk(sender, s.next, s.exited, list);
  }

  /** The place on the list of the record that the sender is about to unlink. */
  lemma Place(s: State, list: seq<Address>) returns (k: nat)
    requires Inv(s, list) && s.sender.Unlinking? && s.sender.prev.NextOf?
    ensures 0 < k < |list| && list[k] == s.sender.at && s.sender.prev == NextOf(list[k - 1])
  {
    var i :| 0 <= i < |list| && list[i] == s.sender.prev.at;
    assert s.next[list[i]] == RefAt(list, i + 1);
    k := i + 1;
  }

  // ---- Whole runs ----

  lemma KeptByStep(s: State, list: seq<Address>, l: Step) returns (list': seq<Address>)
    requires Inv(s, list) && Enabled(s, l)
    ensures Inv(Apply(s, l), list')
  {
    list' := list;
    match l
    case Allocate(_, _) => AllocateStep(s, list, l);
    case LoadHead(_) => AllocateStep(s, list, l);
    case Push(t) =>
      if s.head == s.next[s.pushers[t].record] {
        PushStep(s, list, l);
        list' := [s.pushers[t].record] + list;
      } else {
        PushFails(s, list, l);
      }
    case Exit(_) => ExitStep(s, list, l);
    case BeginWalk => LookStep(s, list, l);
    case Look => LookStep(s, list, l);
    case Unlink => list' := UnlinkStep(s, list);
  }

  lemma {:induction false} KeptByRun(s: State, list: seq<Address>, ls: seq<Step>, t: State) returns (list': seq<Address>)
    requires Inv(s, list) && Runs(s, ls, t)
    ensures Inv(t, list')
    decreases |ls|
  {
    list' := list;
    if ls != [] {
      list' := KeptByStep(s, list, ls[0]);
      list' := KeptByRun(Apply(s, ls[0]), list', ls[1..], t);
    }
  }

  /** In every interleaving of registrations, exits and walks: following the list from its head meets, once each,
      exactly the records of the registrations that were not unlinked; no registration was unlinked twice, and none
      before its thread had exited. */
  lemma NothingLost(s: State, ls: seq<Step>, t: State) returns (list: seq<Address>)
    requires Initial(s) && Runs(s, ls, t)
    ensures Chain(t.head, t.next, list) && Distinct(list)
    ensures forall n: nat :: n < t.book.registered ==>
              (n in t.book.unlinked <==> !exists a :: a in list && a in t.book.serial && t.book.serial[a] == n)
    ensures Distinct(t.book.unlinked) && forall n <- t.book.unlinked :: n < t.book.registered && n in t.book.gone
  {
    list := KeptByRun(s, [], ls, t);
    forall n: nat | n < t.book.registered
      ensures n in t.book.unlinked <==> !exists a :: a in list && a in t.book.serial && t.book.serial[a] == n
    {
      if n !in t.book.unlinked {
        var a :| a in t.book.serial && t.book.serial[a] == n;
        assert a in list;
      }
    }
  }

  /** A walk that looks at a record marked as exited goes on to unlink it. */
  lemma LookAtExited(s: State)
    requires s.sender.Walking? && s.sender.thread.To? && s.sender.thread.at in s.exited
    ensures Apply(s, Look).sender == Unlinking(s.sender.prev, s.sender.thread.at, Next(s.next, s.sender.thread.at))
  {
  }

  /** In every run, whatever happened since: the unlinking succeeds if and only if the record was not the first of the
      list or still is, that is, unless a record was pushed in front of it meanwhile. Then its registration is unlinked
      and the record is freed; otherwise nothing is lost. */
  lemma UnlinkSucceeds(s: State, ls: seq<Step>, t: State)
    requires Initial(s) && Runs(s, ls, t) && t.sender.Unlinking?
    ensures var a, u := t.sender.at, Apply(t, Unlink);
      && a in t.book.serial
      && (if t.sender.prev.NextOf? || t.head == To(a)
          then a !in u.next && a !in u.book.serial && u.book.unlinked == t.book.unlinked + [t.book.serial[a]]
          else u.next == t.next && u.book == t.book)
  {
    var list := KeptByRun(s, [], ls, t);
    UnlinkEffect(t, list);
  }

  lemma UnlinkEffect(t: State, list: seq<Address>)
    requires Inv(t, list) && t.sender.Unlinking?
    ensures var a, u := t.sender.at, Apply(t, Unlink);
      && a in t.book.serial
      && (if t.sender.prev.NextOf? || t.head == To(a)
          then a !in u.next && a !in u.book.serial && u.book.unlinked == t.book.unlinked + [t.book.serial[a]]
          else u.next == t.next && u.book == t.book)
  {
    var a := t.sender.at;
    assert a in list;
    assert Load(t, t.sender.prev) == To(a) <==> t.sender.prev.NextOf? || t.head == To(a);
    FreedMeans(Redirected(t, t.sender.prev, t.sender.next), a);
  }

  lemma FreedMeans(s: State, a: Address)
    requires a in s.book.serial
    ensures var u := Freed(s, a);
      a !in u.next && a !in u.book.serial && u.book.unlinked == s.book.unlinked + [s.book.serial[a]]
  {
  }

  /** The sender never follows a reference to a record that was freed. */
  lemma NoDanglingReference(s: State, ls: seq<Step>, t: State)
    requires Initial(s) && Runs(s, ls, t)
    ensures t.sender.Walking? && t.sender.thread.To? ==> t.sender.thread.at in t.next
    ensures t.sender.Unlinking? ==> t.sender.at in t.next
    ensures !t.sender.Resting? && t.sender.prev.NextOf? ==> t.sender.prev.at in t.next
  {
    var list := KeptByRun(s, [], ls, t);
    if t.sender.Walking? && t.sender.prev.NextOf? {
      Successor(t.head, t.next, list, t.sender.prev.at);
    }
  }
}
