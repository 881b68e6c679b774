/** Dispatching ready descriptors while callbacks change the list of descriptors. */
module Select {
  import opened Sequences
  import opened LinuxList

  /** What a callback can do. */
  datatype Act = Register(id: Node) | Unregister(id: Node)

  datatype Ready = Ready(read: set<int>, write: set<int>, except: set<int>)

  datatype Flags = Flags(read: bool, write: bool, except: bool)

  const HEAD: Node := 0

  function FlagsOf(ready: Ready, fd: int): Flags {
    Flags(fd in ready.read, fd in ready.write, fd in ready.except)
  }

  predicate Any(f: Flags) {
    f.read || f.write || f.except
  }

  function Cleared(ready: Ready, fd: int): Ready {
    Ready(ready.read - {fd}, ready.write - {fd}, ready.except - {fd})
  }

  ghost function BitsLeft(ready: Ready): nat {
    |ready.read| + |ready.write| + |ready.except|
  }

  lemma FewerBits(ready: Ready, fd: int)
    ensures BitsLeft(Cleared(ready, fd)) <= BitsLeft(ready)
    ensures Any(FlagsOf(ready, fd)) ==> BitsLeft(Cleared(ready, fd)) < BitsLeft(ready)
    ensures !Any(FlagsOf(ready, fd)) ==> Cleared(ready, fd) == ready
  {
    OneLess(ready.read, fd);
    OneLess(ready.write, fd);
    OneLess(ready.except, fd);
  }

  lemma OneLess(s: set<int>, x: int)
    ensures |s - {x}| == if x in s then |s| - 1 else |s|
    ensures x !in s ==> s - {x} == s
  {
    if x !in s { assert s - {x} == s; }
  }

  /** One call of a callback: the how manieth it is, of which descriptor, what was registered, and
      how many descriptors were unregistered since the walk was last started. */
  datatype Call = Call(number: nat, self: Node, list: seq<Node>, count: nat)

  /** The entry behind `x`. */
  function Successor(list: seq<Node>, x: Node): Node {
    if list == [] then HEAD
    else if list[0] == x then (if |list| > 1 then list[1] else HEAD)
    else Successor(list[1..], x)
  }

  /** The descriptor that was unregistered last, if any. */
  function LastGone(acts: seq<Act>): Node {
    if acts == [] then HEAD
    else if acts[|acts| - 1].Unregister? then acts[|acts| - 1].id
    else LastGone(acts[..|acts| - 1])
  }

  function Count(acts: seq<Act>): nat {
    if acts == [] then 0 else Count(acts[..|acts| - 1]) + if acts[|acts| - 1].Unregister? then 1 else 0
  }

  /** Each step of a callback is possible: only a descriptor that is not registered and whose
      number is free is registered, and only a registered one is removed. */
  ghost predicate Possible(fd: map<Node, int>, listed: seq<Node>, acts: seq<Act>)
    decreases |acts|
  {
    acts == [] ||
    (CanDo(fd, listed, acts[0]) && Possible(fd, Done(listed, acts[0]), acts[1..]))
  }

  ghost predicate CanDo(fd: map<Node, int>, listed: seq<Node>, act: Act) {
    match act
    case Register(id) => id in fd && id !in listed && forall x :: x in listed && x in fd ==> fd[x] != fd[id]
    case Unregister(id) => id in listed
  }

  function Done(listed: seq<Node>, act: Act): seq<Node> {
    match act
    case Register(id) => listed + [id]
    case Unregister(id) => Without(listed, id)
  }

  /** Registered descriptors are known and have different numbers. */
  ghost predicate ListOk(fd: map<Node, int>, listed: seq<Node>) {
    && (forall x {:trigger fd[x]} :: x in fd ==> x > 0)
    && (forall x {:trigger x in listed} :: x in listed ==> x in fd)
    && (forall x, y {:trigger fd[x], fd[y]} :: x in listed && y in listed && x != y && x in fd && y in fd ==>
      fd[x] != fd[y])
  }

  class Selector {
    const links: Links
    /** The number of each descriptor. */
    const fd: map<Node, int>
    /** What the callback of a descriptor does, as the k-th one called and given what is registered. */
    const oracle: (nat, Node, seq<Node>) -> seq<Act>
    var unregisteredCount: nat
    var calls: nat
    /** The registered descriptors, in the order of the list. */
    var listed: seq<Node>
    /** The descriptors called in this pass, and with which flags. */
    ghost var called: seq<Node>
    ghost var flags: seq<Flags>
    /** The calls of this pass. */
    ghost var log: seq<Call>
    /** The descriptors unregistered in this pass. */
    ghost var gone: set<Node>

    ghost predicate Valid()
      reads this, links
    {
      links.IsList(HEAD, listed) && ListOk(fd, listed)
    }

    /** Every callback does possible things. */
    ghost predicate PossibleCallbacks() {
      forall k, id, s {:trigger oracle(k, id, s)} :: ListOk(fd, s) && Distinct(s) && id in s ==>
        Possible(fd, s, oracle(k, id, s))
    }

    function ActsOf(c: Call): seq<Act> {
      oracle(c.number, c.self, c.list)
    }

    /** The one descriptor unregistered since the walk was started is the one it saved as the next. */
    ghost predicate Harmful(c: Call) {
      c.count == 0 && Count(ActsOf(c)) == 1 && LastGone(ActsOf(c)) == Successor(c.list, c.self)
    }

    constructor (fd: map<Node, int>, oracle: (nat, Node, seq<Node>) -> seq<Act>)
      requires forall x :: x in fd ==> x > 0
      ensures Valid() && listed == [] && this.fd == fd && this.oracle == oracle && fresh(links)
    {
      var l := new Links();
      links := l;
      this.fd := fd;
      this.oracle := oracle;
      unregisteredCount, calls := 0, 0;
      listed, called, flags, log, gone := [], [], [], [], {};
      new;
      l.InitHead(HEAD);
    }

    /** `socket_register_fd`, when the descriptor can be made non-blocking. */
    method RegisterFd(id: Node)
      requires Valid() && CanDo(fd, listed, Register(id))
      modifies this`listed, links
      ensures Valid() && listed == old(listed) + [id]
      ensures forall x :: Dangling(x, old(listed), old(links.next)) && x != id ==> Dangling(x, listed, links.next)
    {
      assert fd[id] == fd[id];
      links.AddTail(id, HEAD, listed);
      listed := listed + [id];
    }

    /** `socket_unregister_fd`. */
    method UnregisterFd(id: Node)
      requires Valid() && id in listed
      modifies this`listed, this`unregisteredCount, this`gone, links
      ensures Valid() && listed == Without(old(listed), id) && unregisteredCount == old(unregisteredCount) + 1 &&
        gone == old(gone) + {id}
      ensures Dangling(id, listed, links.next)
    {
      unregisteredCount := unregisteredCount + 1;
      WithoutMember(listed, id);
      links.Del(id, HEAD, listed);
      listed := Without(listed, id);
      gone := gone + {id};
    }

    /** The callback of `self`; `last` is the descriptor it unregistered last. */
    method Callback(self: Node) returns (last: Node)
      requires Valid() && self in listed && PossibleCallbacks()
      modifies this`listed, this`unregisteredCount, this`gone, this`calls, links
      ensures Valid() && calls == old(calls) + 1
      ensures var acts := oracle(old(calls), self, old(listed));
        && unregisteredCount == old(unregisteredCount) + Count(acts) && last == LastGone(acts)
        && (last == HEAD <==> Count(acts) == 0)
        && (Count(acts) <= 1 ==> Without(old(listed), last) <= listed && gone == old(gone) + Only(last))
        && (Count(acts) == 1 ==> last in listed || Dangling(last, listed, links.next))
      ensures old(gone) <= gone && forall x :: x in old(listed) && x !in gone ==> x in listed
    {
      hide ListOk, Possible, Count, Left, Done, CanDo, PossibleCallbacks, Ring, Without, Distinct, LastGone;
      hide Dangling, Only;
      var acts := oracle(calls, self, listed);
      PossibleActs(self);
      ghost var start, gone0 := listed, gone;
      calls := calls + 1;
      var i := 0;
      last := HEAD;
      LeftStart(start, gone0);
      assert acts[0..] == acts && acts[..0] == [];
      while i < |acts|
        invariant 0 <= i <= |acts| && Valid() && calls == old(calls) + 1 && Possible(fd, listed, acts[i..])
        invariant unregisteredCount == old(unregisteredCount) + Count(acts[..i]) && last == LastGone(acts[..i])
        invariant Left(start, gone0, acts[..i], listed, gone)
        invariant last == HEAD || last in listed || Dangling(last, listed, links.next)
      {
        PossibleFirst(fd, listed, acts, i);
        ghost var was, late := listed, gone;
        ListedOnce();
        match acts[i] {
          case Register(id) =>
            RegisterFd(id);
          case Unregister(id) =>
            ListedPositive(id);
            UnregisterFd(id);
            last := id;
        }
        LeftStep(start, gone0, acts, i, was, late, listed, gone);
        i := i + 1;
      }
      assert acts[..i] == acts;
      LeftEnd(start, gone0, acts, listed, gone);
    }

    lemma PossibleActs(self: Node)
      requires Valid() && self in listed && PossibleCallbacks()
      ensures Possible(fd, listed, oracle(calls, self, listed))
      ensures Distinct(listed) && HEAD !in listed
    {
    }

    lemma ListedPositive(id: Node)
      requires Valid() && id in listed
      ensures id > 0
    {
    }

    lemma ListedOnce()
      requires Valid()
      ensures Distinct(listed)
    {
    }

    /** The books of the pass are in order. */
    ghost predicate BooksOk(report: Ready, ready: Ready, first: nat)
      reads this
    {
      && PassOk(fd, report, ready, called, flags)
      && |log| == |called| && calls == first + |log| && LogOk(log, called, first)
    }

    /** One descriptor of the walk: it is called if something was reported for it. */
    method Visit(ufd: Node, before: Ready, ghost start: seq<Node>, ghost report: Ready, ghost first: nat, ghost i: nat)
      returns (ready: Ready, last: Node, ran: bool)
      requires Valid() && PossibleCallbacks() && i < |listed| && listed[i] == ufd && ufd in fd && unregisteredCount <= 1
      requires BooksOk(report, before, first) && NoneHarmful(log) &&
        Pending(fd, start, report, before, called, gone, listed[i..])
      requires forall x :: x in start && x !in gone ==> x in listed
      modifies this, links
      ensures Valid() && BooksOk(report, ready, first) &&
        Pending(fd, start, report, ready, called, gone, old(listed)[i + 1..])
      ensures forall x :: x in start && x !in gone ==> x in listed
      ensures ran ==> BitsLeft(ready) < BitsLeft(before) && called != []
      ensures !ran ==>
        ready == before && listed == old(listed) && called == old(called) && log == old(log) && last == HEAD
      ensures !ran ==> gone == old(gone) && unregisteredCount == old(unregisteredCount)
      ensures unregisteredCount <= 1 ==> Without(old(listed), last) <= listed && gone == old(gone) + Only(last)
      ensures unregisteredCount <= 1 && last != HEAD && last == Successor(old(listed), ufd) ==>
        && log != [] && log[|log| - 1].list == old(listed) && log[|log| - 1].self == ufd
        && Harmful(log[|log| - 1]) && last in gone && (last in listed || Dangling(last, listed, links.next))
      ensures !(unregisteredCount <= 1 && last != HEAD && last == Successor(old(listed), ufd)) ==> NoneHarmful(log)
    {
      hide ListOk, Ring, Possible, Distinct, BitsLeft, Count, Done, CanDo, PossibleCallbacks, Pending, Left, Without;
      hide LastGone, Successor, Dangling, Harmful, Only, PassOk, LogOk, NoneHarmful, FlagsOf, Cleared;
      ghost var was, earlier, late := listed, called, gone;
      KnownOnce();
      var number := fd[ufd];
      var fl := FlagsOf(before, number);
      FewerBits(before, number);
      ready := Cleared(before, number);
      last, ran := HEAD, false;
      WithoutNone(was);
      OnlyMember(HEAD);
      if Any(fl) {
        ran := true;
        ghost var c := Call(calls, ufd, listed, unregisteredCount);
        Called(fd, report, before, called, flags, ufd);
        LogMore(log, called, first, c);
        called, flags, log := called + [ufd], flags + [fl], log + [c];
        last := Callback(ufd);
        OnlyMember(last);
        Judged(log, Successor(was, ufd), last);
      }
      Visited(fd, start, report, before, ready, was, i, late, gone, earlier, called);
    }

    lemma KnownOnce()
      requires Valid()
      ensures ListOk(fd, listed) && Distinct(listed) && HEAD !in listed
    {
    }

    /** The last call of the log is harmful exactly if it unregistered the saved next one and no other. */
    lemma Judged(log: seq<Call>, next: Node, last: Node)
      requires log != [] && NoneHarmful(log[..|log| - 1])
      requires var c := log[|log| - 1]; next == Successor(c.list, c.self) && last == LastGone(ActsOf(c))
      ensures var c := log[|log| - 1];
        && (Harmful(c) <==> c.count == 0 && Count(ActsOf(c)) == 1 && last == next)
        && (!Harmful(c) ==> NoneHarmful(log))
    {
      assert forall i :: 0 <= i < |log| - 1 ==> log[i] == log[..|log| - 1][i];
    }

    /** The dispatch loop of `socket_select_main`, after `select` reported `ready`. It is `lost` when
        the walk goes on from an entry that was taken off the list. */
    method Dispatch(report: Ready) returns (work: bool, lost: bool)
      requires Valid() && PossibleCallbacks()
      modifies this, links
      ensures Valid() && (work <==> called != []) && |flags| == |called| == |log| && Distinct(called)
      ensures forall i :: 0 <= i < |called| ==>
        called[i] in fd && flags[i] == FlagsOf(report, fd[called[i]]) && Any(flags[i])
      ensures Conditions(report)
      ensures forall i :: 0 <= i < |called| ==> log[i].number == old(calls) + i && log[i].self == called[i]
      ensures lost <==> exists i :: 0 <= i < |log| && Harmful(log[i])
      ensures lost ==> log != [] && var c := log[|log| - 1];
        Harmful(c) && var t := Successor(c.list, c.self); t in gone && (t in listed || Dangling(t, listed, links.next))
      ensures !lost ==>
        forall x :: x in old(listed) && x in fd && x !in gone && Any(FlagsOf(report, fd[x])) ==> x in called
      ensures forall x :: x in old(listed) && x !in gone ==> x in listed
    {
      hide ListOk, Ring, Possible, Distinct, BitsLeft, Count, Done, CanDo, Moved, PossibleCallbacks, Pending, Left;
      hide Without;
      hide LastGone, Successor, Dangling, Harmful, Only, PassOk, LogOk, FlagsOf, Any;
      hide Selector.Conditions;
      var ready := report;
      called, flags, log, gone := [], [], [], {};
      work, lost := false, false;
      unregisteredCount := 0;
      ghost var start, first := listed, calls;
      ghost var i: nat := 0;
      RingFirst(links.next, links.prev, HEAD, listed);
      var ufd := links.next[HEAD];
      PendingStart(fd, start, report);
      LogStart(first);
      EntryNext(links.next, links.prev, listed, 0);
      var tmp := links.next[ufd];
      while ufd != HEAD
        invariant Valid() && i <= |listed| && ufd == EntryAt(HEAD, listed, i) &&
          (i < |listed| ==> tmp == EntryAt(HEAD, listed, i + 1))
        invariant unregisteredCount <= 1 && (work <==> called != []) && !lost
        invariant BooksOk(report, ready, first) && NoneHarmful(log) &&
          Pending(fd, start, report, ready, called, gone, listed[i..])
        invariant forall x :: x in start && x !in gone ==> x in listed
        decreases BitsLeft(ready), |listed| - i
      {
        KnownOnce();
        HeadEntry(fd, listed, i);
        SuccessorAt(listed, i);
        ghost var was, late, at := listed, gone, i;
        var last, ran;
        ready, last, ran := Visit(ufd, ready, start, report, first, i);
        work := work || ran;
        if unregisteredCount > 1 {
          unregisteredCount := 0;
          i := 0;
          RingFirst(links.next, links.prev, HEAD, listed);
          ufd := links.next[HEAD];
          PendingAnywhere(fd, start, report, ready, called, gone, was[at + 1..], listed);
        } else if last != HEAD && last == tmp {
          lost := true;
          BooksSay(report, ready, first);
          BooksTell(report);
          return;
        } else {
          ufd := tmp;
          i := Moved(was, i, listed, last);
          OnlyMember(last);
          MovedOk(was, at, listed, last);
          MovedStill(was, at, listed, last);
          PendingMoved(fd, start, report, ready, called, gone, was, at, listed, i);
        }
        EntryNext(links.next, links.prev, listed, i);
        tmp := links.next[ufd];
      }
      KnownOnce();
      AtHead(HEAD, listed, i);
      PendingEnd(fd, start, report, ready, called, gone, listed[i..]);
      BooksSay(report, ready, first);
      BooksTell(report);
    }

    /** Each call got exactly the conditions that were reported for its descriptor, and one at least. */
    ghost predicate Conditions(report: Ready)
      reads this
    {
      |flags| == |called| && forall i {:trigger flags[i]} :: 0 <= i < |called| ==>
        && called[i] in fd
        && (flags[i].read <==> fd[called[i]] in report.read)
        && (flags[i].write <==> fd[called[i]] in report.write)
        && (flags[i].except <==> fd[called[i]] in report.except)
        && (flags[i].read || flags[i].write || flags[i].except)
    }

    lemma BooksTell(report: Ready)
      requires |flags| == |called| && forall i :: 0 <= i < |called| ==>
        called[i] in fd && flags[i] == FlagsOf(report, fd[called[i]]) && Any(flags[i])
      ensures Conditions(report)
    {
    }

    /** What the books say about the calls. */
    lemma BooksSay(report: Ready, ready: Ready, first: nat)
      requires BooksOk(report, ready, first)
      ensures |flags| == |called| == |log| && Distinct(called)
      ensures forall i :: 0 <= i < |called| ==>
        called[i] in fd && flags[i] == FlagsOf(report, fd[called[i]]) && Any(flags[i])
      ensures forall i :: 0 <= i < |called| ==> log[i].number == first + i && log[i].self == called[i]
    {
      hide FlagsOf, Any, Distinct;
    }

    ghost predicate NoneHarmful(log: seq<Call>) {
      forall i {:trigger log[i]} :: 0 <= i < |log| ==> !Harmful(log[i])
    }
  }

  /** An entry that is off the list and whose links lead nowhere. */
  ghost predicate Dangling(x: Node, listed: seq<Node>, next: map<Node, Node>) {
    x > 0 && x !in listed && x in next && next[x] == POISON1
  }

  ghost function Only(x: Node): set<Node> {
    if x == HEAD then {} else {x}
  }

  lemma OnlyMember(x: Node)
    ensures Only(HEAD) == {} && (x != HEAD ==> Only(x) == {x})
  {
  }

  ghost predicate LogOk(log: seq<Call>, called: seq<Node>, first: nat)
    requires |log| == |called|
  {
    forall i {:trigger log[i]} :: 0 <= i < |log| ==> log[i].number == first + i && log[i].self == called[i]
  }

  lemma LogMore(log: seq<Call>, called: seq<Node>, first: nat, c: Call)
    requires |log| == |called| && LogOk(log, called, first) && c.number == first + |log|
    ensures LogOk(log + [c], called + [c.self], first) && (log + [c])[..|log|] == log
  {
  }

  lemma LogStart(first: nat)
    ensures LogOk([], [], first)
  {
  }

  /** Without a change the walk goes on one entry further. */
  lemma MovedStill(was: seq<Node>, i: nat, listed: seq<Node>, d: Node)
    requires i < |was| && HEAD !in was
    ensures d == HEAD && listed == was ==> Moved(was, i, listed, d) == i + 1
  {
  }

  lemma {:induction false} SuccessorAt(s: seq<Node>, i: nat)
    requires i < |s| && Distinct(s)
    ensures Successor(s, s[i]) == EntryAt(HEAD, s, i + 1)
  {
    if i > 0 {
      assert s[0] != s[i];
      SuccessorAt(s[1..], i - 1);
    }
  }

  lemma WithoutNone(s: seq<Node>)
    requires HEAD !in s
    ensures Without(s, HEAD) == s
  {
    WithoutAbsent(s, HEAD);
  }

  lemma PossibleFirst(fd: map<Node, int>, listed: seq<Node>, acts: seq<Act>, i: nat)
    requires i < |acts| && Possible(fd, listed, acts[i..])
    ensures CanDo(fd, listed, acts[i]) && Possible(fd, Done(listed, acts[i]), acts[i + 1..])
    ensures Done(listed, acts[i]) == if acts[i].Register? then listed + [acts[i].id] else Without(listed, acts[i].id)
    ensures acts[i].Unregister? ==> acts[i].id in listed
  {
    assert acts[i..][0] == acts[i] && acts[i..][1..] == acts[i + 1..];
  }

  /** What the steps `done` of a callback leave of the list and of the set of those that went. */
  ghost predicate Left(start: seq<Node>, gone0: set<Node>, done: seq<Act>, listed: seq<Node>, gone: set<Node>) {
    && gone0 <= gone && (LastGone(done) == HEAD <==> Count(done) == 0)
    && (Count(done) == 0 ==> start <= listed && gone == gone0)
    && (Count(done) == 1 ==> Without(start, LastGone(done)) <= listed && gone == gone0 + {LastGone(done)})
    && forall x {:trigger x in gone} {:trigger x in listed} :: x in start && x !in gone ==> x in listed
  }

  lemma LeftStart(start: seq<Node>, gone0: set<Node>)
    ensures Left(start, gone0, [], start, gone0) && Count([]) == 0 && LastGone([]) == HEAD
  {
  }

  lemma LeftStep(start: seq<Node>, gone0: set<Node>, acts: seq<Act>, i: nat,
                 was: seq<Node>, late: set<Node>, listed: seq<Node>, gone: set<Node>)
    requires i < |acts| && Left(start, gone0, acts[..i], was, late) && Distinct(was)
    requires acts[i].Register? ==> listed == was + [acts[i].id] && gone == late
    requires acts[i].Unregister? ==>
      acts[i].id in was && acts[i].id > 0 && listed == Without(was, acts[i].id) && gone == late + {acts[i].id}
    ensures Left(start, gone0, acts[..i + 1], listed, gone)
    ensures Count(acts[..i + 1]) == Count(acts[..i]) + if acts[i].Unregister? then 1 else 0
    ensures LastGone(acts[..i + 1]) == if acts[i].Unregister? then acts[i].id else LastGone(acts[..i])
  {
    assert acts[..i + 1] == acts[..i] + [acts[i]] && acts[..i + 1][..i] == acts[..i];
    assert acts[..i + 1][i] == acts[i];
    if acts[i].Unregister? {
      WithoutMember(was, acts[i].id);
      if Count(acts[..i]) == 0 { WithoutPrefix(start, was, acts[i].id); }
    }
  }

  lemma LeftEnd(start: seq<Node>, gone0: set<Node>, acts: seq<Act>, listed: seq<Node>, gone: set<Node>)
    requires Left(start, gone0, acts, listed, gone) && HEAD !in start
    ensures gone0 <= gone && forall x :: x in start && x !in gone ==> x in listed
    ensures LastGone(acts) == HEAD <==> Count(acts) == 0
    ensures Count(acts) <= 1 ==> Without(start, LastGone(acts)) <= listed && gone == gone0 + Only(LastGone(acts))
  {
    WithoutNone(start);
  }

  lemma {:induction false} WithoutPrefix(s: seq<Node>, t: seq<Node>, x: Node)
    requires s <= t
    ensures Without(s, x) <= Without(t, x)
  {
    if s != [] {
      assert s[1..] <= t[1..];
      if s[0] != x { WithoutPrefix(s[1..], t[1..], x); }
    }
  }

  /** Each call so far was of another descriptor, with the flags reported for it; what is left of
      the report for a number is all of it or nothing. */
  ghost predicate PassOk(fd: map<Node, int>, report: Ready, ready: Ready, called: seq<Node>, flags: seq<Flags>) {
    |flags| == |called| && Distinct(called) && CallsOk(fd, report, ready, called, flags) && OnlyCleared(report, ready)
  }

  /** What was called got what was reported for it, and nothing is left of that. */
  ghost predicate CallsOk(fd: map<Node, int>, report: Ready, ready: Ready, called: seq<Node>, flags: seq<Flags>)
    requires |flags| == |called|
  {
    forall i {:trigger called[i]} :: 0 <= i < |called| ==>
      called[i] in fd && flags[i] == FlagsOf(report, fd[called[i]]) && Any(flags[i]) &&
        !Any(FlagsOf(ready, fd[called[i]]))
  }

  /** What is left of the report is as it was reported. */
  ghost predicate OnlyCleared(report: Ready, ready: Ready) {
    forall n {:trigger FlagsOf(ready, n)} :: FlagsOf(ready, n) == FlagsOf(report, n) || !Any(FlagsOf(ready, n))
  }

  lemma NothingCleared()
    ensures !Any(Flags(false, false, false))
  {
  }

  lemma ClearedFlags(ready: Ready, number: int, n: int)
    ensures FlagsOf(Cleared(ready, number), n) == if n == number then Flags(false, false, false) else FlagsOf(ready, n)
  {
  }

  lemma Called(fd: map<Node, int>, report: Ready, ready: Ready, called: seq<Node>, flags: seq<Flags>, x: Node)
    requires PassOk(fd, report, ready, called, flags) && x in fd && Any(FlagsOf(ready, fd[x]))
    ensures PassOk(fd, report, Cleared(ready, fd[x]), called + [x], flags + [FlagsOf(ready, fd[x])])
  {
    assert OnlyCleared(report, ready) && FlagsOf(ready, fd[x]) == FlagsOf(report, fd[x]);
    CalledOnce(fd, ready, called, x);
    CallsKept(fd, report, ready, called, flags, x);
    ClearedKept(report, ready, fd[x]);
    hide *;
    PassIs(fd, report, Cleared(ready, fd[x]), called + [x], flags + [FlagsOf(ready, fd[x])]);
  }

  lemma PassIs(fd: map<Node, int>, report: Ready, ready: Ready, called: seq<Node>, flags: seq<Flags>)
    requires |flags| == |called| && Distinct(called) && OnlyCleared(report, ready)
    requires CallsOk(fd, report, ready, called, flags)
    ensures PassOk(fd, report, ready, called, flags)
  {
  }

  lemma CalledOnce(fd: map<Node, int>, ready: Ready, called: seq<Node>, x: Node)
    requires Distinct(called) && x in fd && Any(FlagsOf(ready, fd[x]))
    requires forall i {:trigger called[i]} :: 0 <= i < |called| ==>
      called[i] in fd && !Any(FlagsOf(ready, fd[called[i]]))
    ensures Distinct(called + [x])
  {
    hide FlagsOf, Any;
    forall i {:trigger called[i]} | 0 <= i < |called|
      ensures called[i] != x
    {
      assert !Any(FlagsOf(ready, fd[called[i]]));
    }
  }

  lemma CallsKept(fd: map<Node, int>, report: Ready, ready: Ready, called: seq<Node>, flags: seq<Flags>, x: Node)
    requires x in fd && |flags| == |called| && FlagsOf(ready, fd[x]) == FlagsOf(report, fd[x])
    requires Any(FlagsOf(ready, fd[x]))
    requires CallsOk(fd, report, ready, called, flags)
    ensures CallsOk(fd, report, Cleared(ready, fd[x]), called + [x], flags + [FlagsOf(ready, fd[x])])
  {
    var ready1, called1, flags1 := Cleared(ready, fd[x]), called + [x], flags + [FlagsOf(ready, fd[x])];
    forall i {:trigger called1[i]} | 0 <= i < |called1|
      ensures called1[i] in fd && flags1[i] == FlagsOf(report, fd[called1[i]]) && Any(flags1[i]) &&
        !Any(FlagsOf(ready1, fd[called1[i]]))
    {
      if i < |called| {
        var y := called[i];
        assert called1[i] == y && flags1[i] == flags[i] && !Any(FlagsOf(ready, fd[y]));
        ClearedFlags(ready, fd[x], fd[y]);
      } else {
        assert called1[i] == x && flags1[i] == FlagsOf(ready, fd[x]);
        ClearedFlags(ready, fd[x], fd[x]);
      }
    }
  }

  lemma ClearedKept(report: Ready, ready: Ready, number: int)
    requires OnlyCleared(report, ready)
    ensures OnlyCleared(report, Cleared(ready, number))
  {
    hide FlagsOf, Cleared, Any;
    NothingCleared();
    var ready1 := Cleared(ready, number);
    forall n {:trigger FlagsOf(ready1, n)}
      ensures FlagsOf(ready1, n) == FlagsOf(report, n) || !Any(FlagsOf(ready1, n))
    {
      ClearedFlags(ready, number, n);
    }
  }

  /** Every descriptor that was there at the start, has stayed, and was reported ready, has been
      called or is still ahead, with its report untouched. */
  ghost predicate Pending(fd: map<Node, int>, start: seq<Node>, report: Ready, ready: Ready, called: seq<Node>,
                          gone: set<Node>, rest: seq<Node>) {
    forall x {:trigger x in start} :: x in start && x !in gone && x in fd && Any(FlagsOf(report, fd[x])) ==>
      x in called || (x in rest && FlagsOf(ready, fd[x]) == FlagsOf(report, fd[x]))
  }

  lemma PendingStart(fd: map<Node, int>, start: seq<Node>, report: Ready)
    ensures Pending(fd, start, report, report, [], {}, start[0..])
    ensures PassOk(fd, report, report, [], [])
  {
    assert start[0..] == start;
  }

  lemma PendingEnd(fd: map<Node, int>, start: seq<Node>, report: Ready, ready: Ready, called: seq<Node>,
                   gone: set<Node>, rest: seq<Node>)
    requires Pending(fd, start, report, ready, called, gone, rest) && rest == []
    ensures forall x :: x in start && x in fd && x !in gone && Any(FlagsOf(report, fd[x])) ==> x in called
  {
  }

  lemma Visited(fd: map<Node, int>, start: seq<Node>, report: Ready, before: Ready, ready: Ready,
                was: seq<Node>, i: nat,
                late: set<Node>, gone: set<Node>, earlier: seq<Node>, called: seq<Node>)
    requires ListOk(fd, was) && i < |was| && was[i] in fd && ready == Cleared(before, fd[was[i]]) && late <= gone
    requires Distinct(was) && Pending(fd, start, report, before, earlier, late, was[i..])
    requires if Any(FlagsOf(before, fd[was[i]])) then called == earlier + [was[i]] else called == earlier
    ensures Pending(fd, start, report, ready, called, gone, was[i + 1..])
  {
    var u := was[i];
    assert was[i..] == [u] + was[i + 1..];
    forall x {:trigger x in start} | x in start && x !in gone && x in fd && Any(FlagsOf(report, fd[x]))
      ensures x in called || (x in was[i + 1..] && FlagsOf(ready, fd[x]) == FlagsOf(report, fd[x]))
    {
      assert x in earlier || (x in was[i..] && FlagsOf(before, fd[x]) == FlagsOf(report, fd[x]));
      if x !in called {
        assert x != u && x in was[i + 1..];
        SliceMember(was, i + 1, x);
        assert u in was && fd[x] != fd[u];
        ClearedFlags(before, fd[u], fd[x]);
      }
    }
  }

  lemma SliceMember(s: seq<Node>, i: nat, x: Node)
    requires i <= |s| && x in s[i..]
    ensures x in s
  {
  }

  /** The place of the walk in the list after a callback that took off `d`, when it goes on. */
  ghost function Moved(was: seq<Node>, i: nat, listed: seq<Node>, d: Node): nat
    requires i < |was|
  {
    if i + 1 == |was| then |listed| else if d in was[..i + 1] then i else i + 1
  }

  lemma MovedOk(was: seq<Node>, i: nat, listed: seq<Node>, d: Node)
    requires i < |was| && Distinct(was) && Without(was, d) <= listed && (i + 1 < |was| ==> d != was[i + 1])
    ensures Moved(was, i, listed, d) <= |listed|
    ensures EntryAt(HEAD, listed, Moved(was, i, listed, d)) == EntryAt(HEAD, was, i + 1)
    ensures forall x :: x in was[i + 1..] && x != d ==> x in listed[Moved(was, i, listed, d)..]
  {
    if i + 1 < |was| {
      if d in was {
        var p :| 0 <= p < |was| && was[p] == d;
        WithoutAt(was, p);
        hide Without;
        MovedPast(was, i, listed, p);
        assert d in was[..i + 1] <==> p < i + 1 by {
          assert p < i + 1 ==> was[..i + 1][p] == d;
        }
      } else {
        WithoutAbsent(was, d);
        PrefixFrom(was, listed, i + 1);
        PrefixMembers(was[i + 1..], listed[i + 1..]);
      }
    }
  }

  lemma MovedPast(was: seq<Node>, i: nat, listed: seq<Node>, p: nat)
    requires i + 1 < |was| && p < |was| && p != i + 1 && was[..p] + was[p + 1..] <= listed
    ensures var q := if p < i + 1 then i else i + 1;
      && q < |listed| && listed[q] == was[i + 1]
      && forall n :: i + 1 <= n < |was| && n != p ==> was[n] in listed[q..]
  {
    var q, w := if p < i + 1 then i else i + 1, was[..p] + was[p + 1..];
    assert w[q] == was[i + 1];
    PrefixFrom(w, listed, q);
    PrefixMembers(w[q..], listed[q..]);
    forall n | i + 1 <= n < |was| && n != p
      ensures was[n] in listed[q..]
    {
      var r := if n > p then n - 1 else n;
      assert w[r] == was[n] && w[q..][r - q] == was[n];
    }
  }

  lemma {:induction false} WithoutAbsent(s: seq<Node>, x: Node)
    requires x !in s
    ensures Without(s, x) == s
  {
    if s != [] { WithoutAbsent(s[1..], x); }
  }

  lemma PrefixFrom(a: seq<Node>, b: seq<Node>, i: nat)
    requires a <= b && i < |a|
    ensures a[i] == b[i] && a[i..] <= b[i..]
  {
    assert b[..|a|] == a;
  }

  lemma PendingMoved(fd: map<Node, int>, start: seq<Node>, report: Ready, ready: Ready, called: seq<Node>,
                     gone: set<Node>, was: seq<Node>, i: nat, listed: seq<Node>, j: nat)
    requires i < |was| && j <= |listed| && forall x :: x in was[i + 1..] && x !in gone ==> x in listed[j..]
    requires Pending(fd, start, report, ready, called, gone, was[i + 1..])
    ensures Pending(fd, start, report, ready, called, gone, listed[j..])
  {
  }

  lemma PrefixMembers(a: seq<Node>, b: seq<Node>)
    requires a <= b
    ensures forall x :: x in a ==> x in b
  {
    assert b == a + b[|a|..];
  }

  /** After a restart everything on the list is ahead. */
  lemma PendingAnywhere(fd: map<Node, int>, start: seq<Node>, report: Ready, ready: Ready, called: seq<Node>,
                        gone: set<Node>, rest: seq<Node>, listed: seq<Node>)
    requires Pending(fd, start, report, ready, called, gone, rest) && forall x :: x in start && x !in gone ==>
      x in listed
    ensures Pending(fd, start, report, ready, called, gone, listed[0..])
  {
    assert listed[0..] == listed;
  }

  lemma EntryNext(next: map<Node, Node>, prev: map<Node, Node>, s: seq<Node>, i: nat)
    requires Ring(next, prev, HEAD, s) && i <= |s|
    ensures EntryAt(HEAD, s, i) in next && (i < |s| ==> next[EntryAt(HEAD, s, i)] == EntryAt(HEAD, s, i + 1))
  {
    RingFirst(next, prev, HEAD, s);
    if i < |s| {
      RingStep(next, prev, HEAD, s, i);
    }
  }

  lemma HeadEntry(fd: map<Node, int>, s: seq<Node>, i: nat)
    requires ListOk(fd, s) && i <= |s| && EntryAt(HEAD, s, i) != HEAD
    ensures i < |s| && s[i] in fd && s[i] in s && EntryAt(HEAD, s, i) == s[i]
  {
    assert i < |s|;
    assert s[i] in s;
  }

  lemma RingDistinct(next: map<Node, Node>, prev: map<Node, Node>, s: seq<Node>)
    requires Ring(next, prev, HEAD, s)
    ensures Distinct(s) && HEAD !in s
  {
  }
}
