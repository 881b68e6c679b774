/** How the pointers of the chunk headers represent a forest. */
module TallocMemory {
  import opened Sequences
  import opened TallocTrees
  import opened TallocForest

  datatype Destructor = NoDestructor | ReferenceDestructor | UserDestructor(refuses: bool)

  /** A chunk header. The fields `refNext`, `refPrev` and `referent` are the payload of a chunk
      that is a reference handle. */
  datatype Chunk = Chunk(
    next: Ptr, prev: Ptr, parent: Ptr, child: Ptr,
    refs: Ptr, refNext: Ptr, refPrev: Ptr, referent: Ptr,
    destructor: Destructor, loop: bool, size: nat)

  type Memory = map<Ptr, Chunk>

  function Head(s: seq<Ptr>): Ptr {
    if s == [] then NULL else s[0]
  }

  /** Siblings are linked both ways and only the first points to the parent. */
  ghost predicate Linked(mem: Memory, p: Ptr, s: seq<Ptr>) {
    forall i {:trigger mem[s[i]]} {:trigger s[i] in mem} :: 0 <= i < |s| ==> LinkedAt(mem, p, s, i)
  }

  ghost predicate LinkedAt(mem: Memory, p: Ptr, s: seq<Ptr>, i: nat)
    requires i < |s|
  {
    && s[i] in mem
    && mem[s[i]].prev == (if i == 0 then NULL else s[i - 1])
    && mem[s[i]].next == (if i + 1 < |s| then s[i + 1] else NULL)
    && mem[s[i]].parent == (if i == 0 then p else NULL)
  }

  ghost predicate RefLinked(mem: Memory, x: Ptr, s: seq<Ptr>) {
    forall i {:trigger mem[s[i]]} {:trigger s[i] in mem} :: 0 <= i < |s| ==> RefLinkedAt(mem, x, s, i)
  }

  ghost predicate RefLinkedAt(mem: Memory, x: Ptr, s: seq<Ptr>, i: nat)
    requires i < |s|
  {
    && s[i] in mem
    && mem[s[i]].refPrev == (if i == 0 then NULL else s[i - 1])
    && mem[s[i]].refNext == (if i + 1 < |s| then s[i + 1] else NULL)
    && mem[s[i]].referent == x
  }

  /** A chunk that was taken off its child list can still find its former parent: it was first, or
      its stale `prev` leads to a sibling that stays. */
  ghost predicate Stale(mem: Memory, f: Forest, b: Ptr)
    requires Shape(f) && b in f.par && b in mem
  {
    if mem[b].prev == NULL then mem[b].parent == f.par[b]
    else f.par[b] in f.kids && f.par[b] !in f.busy && mem[b].prev in f.kids[f.par[b]] && mem[b].prev !in f.hnd
  }

  ghost predicate KidLinks(mem: Memory, kids: map<Ptr, seq<Ptr>>) {
    forall p {:trigger kids[p]} :: p in kids ==> Linked(mem, p, kids[p])
  }

  ghost predicate ChildHeads(mem: Memory, kids: map<Ptr, seq<Ptr>>)
    requires mem.Keys == kids.Keys
  {
    forall x {:trigger mem[x]} :: x in mem ==> mem[x].child == Head(kids[x])
  }

  ghost predicate RootLinks(mem: Memory, f: Forest)
    requires mem.Keys == f.par.Keys
  {
    forall x {:trigger f.par[x]} :: x in f.par && x !in f.busy && f.par[x] == NULL ==>
      mem[x].prev == NULL && mem[x].next == NULL && mem[x].parent == NULL
  }

  ghost predicate StaleLinks(mem: Memory, f: Forest)
    requires Shape(f) && mem.Keys == f.par.Keys
  {
    forall b {:trigger b in f.busy} :: b in f.busy ==> Stale(mem, f, b)
  }

  ghost predicate Links(mem: Memory, f: Forest)
    requires Shape(f)
  {
    mem.Keys == f.par.Keys && KidLinks(mem, f.kids) && ChildHeads(mem, f.kids) && RootLinks(mem, f) &&
      StaleLinks(mem, f)
  }

  ghost predicate RefLinks(mem: Memory, f: Forest)
    requires Shape(f) && mem.Keys == f.par.Keys
  {
    && (forall x {:trigger f.refs[x]} :: x in f.refs ==> RefLinked(mem, x, f.refs[x]))
    && (forall x {:trigger mem[x]} :: x in mem ==> mem[x].refs == Head(f.refs[x]))
    && (forall x {:trigger mem[x]} :: x in mem ==>
          (mem[x].destructor == ReferenceDestructor <==> x in f.hnd))
    && (forall x {:trigger mem[x]} :: x in mem ==>
          (mem[x].destructor == UserDestructor(true) <==> x in f.stubborn))
  }

  ghost predicate LoopFlags(mem: Memory, f: Forest) {
    forall x {:trigger mem[x]} :: x in mem ==> (mem[x].loop <==> x in f.busy)
  }

  ghost predicate Represents(mem: Memory, f: Forest) {
    Shape(f) && Links(mem, f) && RefLinks(mem, f) && LoopFlags(mem, f)
  }

  /** The header fields that the child lists do not use. */
  ghost predicate SameRefFields(a: Chunk, b: Chunk) {
    && a.refs == b.refs && a.refNext == b.refNext && a.refPrev == b.refPrev && a.referent == b.referent
    && a.destructor == b.destructor && a.size == b.size
  }

  /** Where `c` is on its parent's child list. */
  lemma KidIndex(f: Forest, c: Ptr) returns (i: nat)
    requires Shape(f) && KidsOk(f) && c in f.par && c !in f.busy && f.par[c] != NULL
    ensures f.par[c] in f.kids && i < |f.kids[f.par[c]]| && f.kids[f.par[c]][i] == c
  {
    i :| 0 <= i < |f.kids[f.par[c]]| && f.kids[f.par[c]][i] == c;
  }

  /** The memory after the pointer updates that take `c` off its child list. */
  function UnlinkedMemory(mem: Memory, c: Ptr): Memory
    requires c in mem
    requires mem[c].parent != NULL ==> mem[c].parent in mem
    requires mem[c].prev != NULL ==> mem[c].prev in mem
    requires mem[c].next != NULL ==> mem[c].next in mem
  {
    var t := mem[c];
    if t.parent != NULL then
      // c is the first child
      var m1 := mem[t.parent := mem[t.parent].(child := t.next)];
      var m2 := if t.next != NULL then m1[t.next := m1[t.next].(prev := NULL)] else m1;
      var m3 := m2[c := m2[c].(next := NULL, prev := NULL)];
      if t.next != NULL then m3[t.next := m3[t.next].(parent := t.parent)] else m3
    else
      var m1 := if t.prev != NULL then mem[t.prev := mem[t.prev].(next := t.next)] else mem;
      if t.next != NULL then m1[t.next := m1[t.next].(prev := t.prev)] else m1
  }

  lemma UnlinkDefined(mem: Memory, f: Forest, c: Ptr)
    requires Shape(f) && KidsOk(f) && Links(mem, f) && c in f.par && c !in f.busy
    ensures mem[c].parent != NULL ==> mem[c].parent in mem
    ensures mem[c].prev != NULL ==> mem[c].prev in mem
    ensures mem[c].next != NULL ==> mem[c].next in mem
  {
    if f.par[c] != NULL {
      var i := KidIndex(f, c);
      var s := f.kids[f.par[c]];
      assert s[i] in mem;
      assert i > 0 ==> s[i - 1] in s;
      assert i + 1 < |s| ==> s[i + 1] in s;
    }
  }

  ghost predicate Linkable(mem: Memory, c: Ptr) {
    && c in mem && c != NULL
    && (mem[c].parent != NULL ==> mem[c].parent in mem)
    && (mem[c].prev != NULL ==> mem[c].prev in mem)
    && (mem[c].next != NULL ==> mem[c].next in mem)
    && mem[c].parent != c && mem[c].prev != c && mem[c].next != c
    && (mem[c].next != NULL ==> mem[c].next != mem[c].parent && mem[c].next != mem[c].prev)
  }

  lemma UnlinkedField(mem: Memory, c: Ptr, x: Ptr)
    requires Linkable(mem, c) && x in mem
    ensures var m, t := UnlinkedMemory(mem, c), mem[c];
      && m.Keys == mem.Keys
      && m[x].child == (if x == t.parent && x != NULL then t.next else mem[x].child)
      && m[x].prev == (if x == t.next && x != NULL then t.prev else mem[x].prev)
      && m[x].next == (if x == t.prev && x != NULL then t.next
                       else if x == c && t.parent != NULL then NULL else mem[x].next)
      && m[x].parent == (if x == t.next && x != NULL && t.parent != NULL then t.parent else mem[x].parent)
      && SameRefFields(m[x], mem[x]) && m[x].loop == mem[x].loop
    requires mem[c].parent != NULL ==> mem[c].prev == NULL
  {
  }

  lemma UnlinkedList(mem: Memory, p: Ptr, s: seq<Ptr>, i: nat, m: Memory)
    requires p in mem && p !in s && NULL !in s && p != NULL && Distinct(s) && i < |s| && Linked(mem, p, s)
    requires s[i] in mem && Linkable(mem, s[i]) && m == UnlinkedMemory(mem, s[i])
    ensures Linked(m, p, s[..i] + s[i + 1..])
  {
    hide UnlinkedMemory;
    var t := s[..i] + s[i + 1..];
    assert i > 0 ==> s[i - 1] in mem;
    assert i + 1 < |s| ==> s[i + 1] in mem;
    forall j | 0 <= j < |t|
      ensures LinkedAt(m, p, t, j)
    {
      var k := if j < i then j else j + 1;
      assert t[j] == s[k] && s[k] in mem;
      UnlinkedField(mem, s[i], s[k]);
    }
    assert Linked(m, p, t);
  }

  /** A child list that the unlinking of `c` does not touch. */
  lemma UnlinkedElsewhere(mem: Memory, c: Ptr, q: Ptr, s: seq<Ptr>, m: Memory)
    requires Linkable(mem, c) && m == UnlinkedMemory(mem, c) && Linked(mem, q, s)
    requires mem[c].parent != NULL ==> mem[c].prev == NULL
    requires c !in s && mem[c].prev !in s && mem[c].next !in s
    ensures Linked(m, q, s)
  {
    hide UnlinkedMemory;
    forall j | 0 <= j < |s|
      ensures LinkedAt(m, q, s, j)
    {
      assert s[j] in mem;
      UnlinkedField(mem, c, s[j]);
    }
  }

  lemma NotOwnParent(f: Forest, x: Ptr)
    requires Ok(f) && x in f.par
    ensures f.par[x] != x
  {
    hide KidsOk, RefsOk;
    ParentNotBeneath(f.par, x);
    DescClosed(f.par, x);
  }

  lemma ChildLinkable(mem: Memory, f: Forest, c: Ptr, i: nat)
    requires Ok(f) && Links(mem, f) && c in f.par && c !in f.busy && f.par[c] != NULL
    requires i < |f.kids[f.par[c]]| && f.kids[f.par[c]][i] == c
    ensures Linkable(mem, c) && LinkedAt(mem, f.par[c], f.kids[f.par[c]], i)
  {
    hide WellFounded, RefsOk;
    UnlinkDefined(mem, f, c);
    var p := f.par[c];
    var s := f.kids[p];
    assert s[i] in mem;
    NotOwnParent(f, c);
    NotOwnParent(f, p);
    assert i > 0 ==> s[i - 1] in s;
    assert i + 1 < |s| ==> s[i + 1] in s;
  }

  /** `c` is on no list; everything else is linked as before. It still leads to its former parent,
      directly or over its former neighbour. */
  ghost predicate OffList(mem: Memory, f: Forest, c: Ptr)
    requires Shape(f) && c in f.par
  {
    var g := Detach(f, c);
    && mem.Keys == f.par.Keys && KidLinks(mem, g.kids) && ChildHeads(mem, g.kids) && RootLinks(mem, g)
    && LeadsBack(mem, f, c)
  }

  /** Chunks being freed, and `c`, which is just off its list, still lead to their former parents. */
  ghost predicate LeadsBack(mem: Memory, f: Forest, c: Ptr)
    requires Shape(f) && c in f.par && mem.Keys == f.par.Keys
  {
    var g := Detach(f, c);
    && (forall b {:trigger b in f.busy} :: b in f.busy ==> Stale(mem, g, b))
    && (if mem[c].prev == NULL then mem[c].parent == f.par[c]
        else f.par[c] in g.kids && mem[c].prev in g.kids[f.par[c]])
  }

  /** `c` is child number `i` of its parent and `m` is the memory after it is taken off the list. */
  ghost predicate ChildUnlinked(mem: Memory, f: Forest, c: Ptr, i: nat, m: Memory) {
    && Ok(f) && Links(mem, f) && c in f.par && c !in f.busy && f.par[c] != NULL
    && i < |f.kids[f.par[c]]| && f.kids[f.par[c]][i] == c
    && Linkable(mem, c) && LinkedAt(mem, f.par[c], f.kids[f.par[c]], i) && m == UnlinkedMemory(mem, c)
    && m.Keys == mem.Keys && f.par[f.par[c]] != f.par[c]
    && (forall b :: b in f.busy ==> f.par[b] != c && mem[b].prev != c)
  }

  lemma UnlinkKidLinks(mem: Memory, f: Forest, c: Ptr, i: nat, m: Memory)
    requires ChildUnlinked(mem, f, c, i, m)
    ensures KidLinks(m, Detach(f, c).kids)
  {
    hide RefsOk, WellFounded, UnlinkedMemory, Linked, StaleLinks, RootLinks, ChildHeads;
    var g, p := Detach(f, c), f.par[c];
    var s := f.kids[p];
    WithoutAt(s, i);
    UnlinkedList(mem, p, s, i, m);
    assert c in s;
    assert i > 0 ==> s[i - 1] in s;
    assert i + 1 < |s| ==> s[i + 1] in s;
    forall q | q in g.kids
      ensures Linked(m, q, g.kids[q])
    {
      if q != p {
        UnlinkedElsewhere(mem, c, q, f.kids[q], m);
      }
    }
  }

  lemma UnlinkRest(mem: Memory, f: Forest, c: Ptr, i: nat, m: Memory)
    requires ChildUnlinked(mem, f, c, i, m)
    ensures ChildHeads(m, Detach(f, c).kids) && RootLinks(m, Detach(f, c))
  {
    hide RefsOk, WellFounded, UnlinkedMemory, Linked, StaleLinks;
    var g, p := Detach(f, c), f.par[c];
    var s := f.kids[p];
    WithoutAt(s, i);
    assert i + 1 < |s| ==> s[i + 1] in s;
    assert i > 0 ==> s[i - 1] in s;
    forall x | x in m
      ensures m[x].child == Head(g.kids[x])
      ensures x !in g.busy && f.par[x] == NULL ==> m[x].prev == NULL && m[x].next == NULL && m[x].parent == NULL
    {
      UnlinkedField(mem, c, x);
    }
  }

  lemma UnlinkStale(mem: Memory, f: Forest, c: Ptr, i: nat, m: Memory)
    requires Shape(f) && c in f.par && m.Keys == mem.Keys == f.par.Keys
    requires ChildUnlinked(mem, f, c, i, m)
    ensures LeadsBack(m, f, c) && m[c].prev == mem[c].prev
  {
    hide RefsOk, WellFounded, UnlinkedMemory, Linked, RootLinks, ChildHeads;
    var g, p := Detach(f, c), f.par[c];
    var s := f.kids[p];
    WithoutMember(s, c);
    assert i > 0 ==> s[i - 1] in s;
    assert i + 1 < |s| ==> s[i + 1] in s;
    forall b | b in f.busy
      ensures Stale(m, g, b)
    {
      UnlinkedField(mem, c, b);
    }
    UnlinkedField(mem, c, c);
  }

  lemma UnlinkOffList(mem: Memory, f: Forest, c: Ptr)
    requires Ok(f) && Links(mem, f) && c in f.par && c !in f.busy
    requires forall b :: b in f.busy ==> f.par[b] != c && mem[b].prev != c
    ensures Linkable(mem, c) && (mem[c].parent != NULL ==> mem[c].prev == NULL)
    ensures OffList(UnlinkedMemory(mem, c), f, c) && UnlinkedMemory(mem, c)[c].prev == mem[c].prev
  {
    hide RefsOk, WellFounded, KidsOk;
    if f.par[c] == NULL {
      assert UnlinkedMemory(mem, c) == mem;
    } else {
      var i := KidIndex(f, c);
      ChildLinkable(mem, f, c, i);
      NotOwnParent(f, f.par[c]);
      UnlinkedField(mem, c, c);
      var m := UnlinkedMemory(mem, c);
      UnlinkKidLinks(mem, f, c, i, m);
      UnlinkRest(mem, f, c, i, m);
      UnlinkStale(mem, f, c, i, m);
    }
  }

  /** The memory after an unlinked chunk is made the first child of `p`. */
  function PushedMemory(mem: Memory, c: Ptr, p: Ptr): Memory
    requires c in mem && p in mem && (mem[p].child != NULL ==> mem[p].child in mem)
  {
    var k := mem[p].child;
    var m1 := mem[c := mem[c].(parent := p, next := k, prev := NULL)];
    var m2 := if k == NULL then m1 else m1[k := m1[k].(parent := NULL, prev := c)];
    m2[p := m2[p].(child := c)]
  }

  lemma PushedField(mem: Memory, c: Ptr, p: Ptr, x: Ptr)
    requires c in mem && p in mem && p != c && x in mem && c != NULL
    requires mem[p].child != NULL ==> mem[p].child in mem && mem[p].child != c && mem[p].child != p
    ensures var m, k := PushedMemory(mem, c, p), mem[p].child;
      && m.Keys == mem.Keys
      && m[x].child == (if x == p then c else mem[x].child)
      && m[x].prev == (if x == c then NULL else if x == k && k != NULL then c else mem[x].prev)
      && m[x].next == (if x == c then k else mem[x].next)
      && m[x].parent == (if x == c then p else if x == k && k != NULL then NULL else mem[x].parent)
      && SameRefFields(m[x], mem[x]) && m[x].loop == mem[x].loop
  {
  }

  /** `c` is on none of the lists `kids`, and `p` has a first child that can be displaced. */
  ghost predicate Pushable(mem: Memory, kids: map<Ptr, seq<Ptr>>, c: Ptr, p: Ptr) {
    && c in mem && p in mem && p != c && c != NULL && mem.Keys == kids.Keys
    && KidLinks(mem, kids) && ChildHeads(mem, kids)
    && (forall q, x {:trigger x in kids[q]} :: q in kids && x in kids[q] ==> x != c && x != NULL)
    && (forall q {:trigger kids[q]} :: q in kids ==> Distinct(kids[q]))
    && (forall q, x {:trigger x in kids[q]} :: q in kids && x in kids[q] && x in kids[p] ==> q == p)
    && p !in kids[p]
  }

  lemma PushableFirst(mem: Memory, kids: map<Ptr, seq<Ptr>>, c: Ptr, p: Ptr)
    requires Pushable(mem, kids, c, p)
    ensures mem[p].child != NULL ==> mem[p].child in mem && mem[p].child != c && mem[p].child != p
    ensures mem[p].child != NULL ==> mem[p].child in kids[p]
  {
    if mem[p].child != NULL {
      assert kids[p][0] in kids[p];
      assert kids[p][0] in mem;
    }
  }

  lemma PushKidLinks(mem: Memory, kids: map<Ptr, seq<Ptr>>, c: Ptr, p: Ptr, m: Memory)
    requires Pushable(mem, kids, c, p)
    requires mem[p].child != NULL ==> mem[p].child in mem && mem[p].child != c && mem[p].child != p
    requires m == PushedMemory(mem, c, p) && m.Keys == mem.Keys
    ensures KidLinks(m, kids[p := [c] + kids[p]]) && ChildHeads(m, kids[p := [c] + kids[p]])
  {
    hide Linked, PushedMemory;
    PushableFirst(mem, kids, c, p);
    var kids1 := kids[p := [c] + kids[p]];
    forall q | q in kids1
      ensures Linked(m, q, kids1[q])
    {
      if q == p {
        PushedFront(mem, c, p, kids[p], m);
      } else {
        PushedElsewhere(mem, c, p, kids[q], q, m);
      }
    }
    forall x | x in m
      ensures m[x].child == Head(kids1[x])
    {
      PushedField(mem, c, p, x);
    }
  }

  lemma PushedFront(mem: Memory, c: Ptr, p: Ptr, s: seq<Ptr>, m: Memory)
    requires c in mem && p in mem && p != c && c != NULL
    requires mem[p].child != NULL ==> mem[p].child in mem && mem[p].child != c && mem[p].child != p
    requires m == PushedMemory(mem, c, p) && m.Keys == mem.Keys
    requires Linked(mem, p, s) && Distinct(s) && c !in s && p !in s && mem[p].child == Head(s) && NULL !in s
    ensures Linked(m, p, [c] + s)
  {
    hide PushedMemory;
    var t := [c] + s;
    forall j | 0 <= j < |t|
      ensures LinkedAt(m, p, t, j)
    {
      if j == 0 {
        PushedField(mem, c, p, c);
      } else {
        assert t[j] == s[j - 1] && s[j - 1] in mem;
        PushedField(mem, c, p, s[j - 1]);
      }
    }
    assert Linked(m, p, t);
  }

  lemma PushedElsewhere(mem: Memory, c: Ptr, p: Ptr, s: seq<Ptr>, q: Ptr, m: Memory)
    requires c in mem && p in mem && p != c && c != NULL
    requires mem[p].child != NULL ==> mem[p].child in mem && mem[p].child != c && mem[p].child != p
    requires m == PushedMemory(mem, c, p) && m.Keys == mem.Keys
    requires Linked(mem, q, s) && c !in s && mem[p].child !in s
    ensures Linked(m, q, s)
  {
    hide PushedMemory;
    forall j | 0 <= j < |s|
      ensures LinkedAt(m, q, s, j)
    {
      assert s[j] in mem;
      PushedField(mem, c, p, s[j]);
    }
  }

  lemma OffListPushable(mem: Memory, f: Forest, c: Ptr, p: Ptr)
    requires Ok(f) && c in f.par && c !in f.busy && OffList(mem, f, c) && p in f.par && p != c
    ensures Pushable(mem, Detach(f, c).kids, c, p)
  {
    hide RefsOk, WellFounded, Linked, KidLinks, ChildHeads, RootLinks, StaleLinks;
    NotOwnParent(f, p);
    DetachedAbsent(f, c);
    DetachedLists(f, c);
    hide KidsOk;
  }

  lemma DetachedLists(f: Forest, c: Ptr)
    requires Ok(f) && c in f.par && c !in f.busy
    ensures forall q, x {:trigger x in Detach(f, c).kids[q]} :: q in f.kids && x in Detach(f, c).kids[q] ==>
      x in f.par && x != NULL && f.par[x] == q
    ensures forall q {:trigger Detach(f, c).kids[q]} :: q in f.kids ==> Distinct(Detach(f, c).kids[q])
    ensures Detach(f, c).kids.Keys == f.kids.Keys
  {
    hide RefsOk, WellFounded;
    if f.par[c] != NULL {
      WithoutMember(f.kids[f.par[c]], c);
    }
  }

  lemma StealLinks(mem: Memory, f: Forest, c: Ptr, p: Ptr)
    requires Ok(f) && c in f.par && c !in f.busy && OffList(mem, f, c) && p in f.par && p != c
    requires !(f.par[c] == p && f.kids[p] != [] && f.kids[p][0] == c)
    requires Shape(Steal(f, c, p))
    ensures mem[p].child != NULL ==> mem[p].child in mem && mem[p].child != c && mem[p].child != p
    ensures Links(PushedMemory(mem, c, p), Steal(f, c, p))
  {
    hide RefsOk, WellFounded, Linked, PushedMemory, KidsOk;
    var d, g := Detach(f, c).kids, Steal(f, c, p);
    OffListPushable(mem, f, c, p);
    PushableFirst(mem, d, c, p);
    PushedField(mem, c, p, c);
    var m := PushedMemory(mem, c, p);
    PushKidLinks(mem, d, c, p, m);
    assert g.kids == d[p := [c] + d[p]];
    StealPar(f, c, p);
    PushFrame(mem, f, c, p, m, g);
  }

  lemma PushFrame(mem: Memory, f: Forest, c: Ptr, p: Ptr, m: Memory, g: Forest)
    requires c in mem && p in mem && mem.Keys == f.par.Keys
    requires mem[p].child != NULL ==> mem[p].child in mem && mem[p].child != c && mem[p].child != p
    requires m == PushedMemory(mem, c, p) && m.Keys == mem.Keys == g.par.Keys && Shape(g)
    requires Ok(f) && c !in f.busy && OffList(mem, f, c) && Pushable(mem, Detach(f, c).kids, c, p)
    requires g.par == f.par[c := p] && g.busy == f.busy && g.hnd == f.hnd
    requires g.kids == Detach(f, c).kids[p := [c] + Detach(f, c).kids[p]]
    ensures RootLinks(m, g) && StaleLinks(m, g)
  {
    var d := Detach(f, c);
    hide *;
    PushRoots(mem, f, c, p, m, g);
    DetachedStale(mem, f, c, p);
    forall b | b in g.busy
      ensures Stale(m, g, b)
    {
      PushStale(mem, d, c, p, m, g, b);
    }
    StaleAll(m, g);
  }

  lemma StaleAll(m: Memory, g: Forest)
    requires Shape(g) && m.Keys == g.par.Keys && forall b | b in g.busy :: Stale(m, g, b)
    ensures StaleLinks(m, g)
  {
  }

  lemma DetachedStale(mem: Memory, f: Forest, c: Ptr, p: Ptr)
    requires p in mem && mem.Keys == f.par.Keys && Ok(f) && c !in f.busy && c in f.par
    requires OffList(mem, f, c) && Pushable(mem, Detach(f, c).kids, c, p)
    ensures var d := Detach(f, c);
      && Shape(d) && d.par == f.par && d.busy == f.busy + {c} && d.hnd == f.hnd && d.kids.Keys == f.par.Keys
      && forall b {:trigger b in f.busy} :: b in f.busy ==>
        b in f.par && Stale(mem, d, b) && b != NULL && b != mem[p].child
    ensures c != NULL && p != c
  {
    PushableFirst(mem, Detach(f, c).kids, c, p);
    FirstListed(f, c, p, mem[p].child);
    hide RefsOk, WellFounded, KidsOk, Stale, RootLinks, KidLinks, ChildHeads;
  }

  lemma PushStale(mem: Memory, d: Forest, c: Ptr, p: Ptr, m: Memory, g: Forest, b: Ptr)
    requires c in mem && p in mem && p != c && c != NULL && m.Keys == g.par.Keys == mem.Keys == d.par.Keys
    requires mem[p].child != NULL ==> mem[p].child in mem && mem[p].child != c && mem[p].child != p
    requires m == PushedMemory(mem, c, p) && Shape(d) && Shape(g)
    requires b in mem && b != c && b != mem[p].child && Stale(mem, d, b)
    requires g.par == d.par[c := p] && d.busy == g.busy + {c} && g.hnd == d.hnd && p in d.kids
    requires g.kids == d.kids[p := [c] + d.kids[p]]
    ensures Stale(m, g, b)
  {
    hide PushedMemory, Stale;
    PushedField(mem, c, p, b);
    StaleFrame(mem, d, m, g, b);
  }

  lemma PushRoots(mem: Memory, f: Forest, c: Ptr, p: Ptr, m: Memory, g: Forest)
    requires c in mem && p in mem && mem.Keys == f.par.Keys
    requires mem[p].child != NULL ==> mem[p].child in mem && mem[p].child != c && mem[p].child != p
    requires m == PushedMemory(mem, c, p) && m.Keys == mem.Keys == g.par.Keys && Shape(g)
    requires Ok(f) && c !in f.busy && OffList(mem, f, c) && Pushable(mem, Detach(f, c).kids, c, p)
    requires g.par == f.par[c := p] && g.busy == f.busy
    ensures RootLinks(m, g)
  {
    hide RefsOk, WellFounded, Linked, PushedMemory, KidsOk, Stale, KidLinks, ChildHeads, StaleLinks;
    PushableFirst(mem, Detach(f, c).kids, c, p);
    FirstListed(f, c, p, mem[p].child);
    forall x | x in g.par && x !in g.busy && g.par[x] == NULL
      ensures m[x].prev == NULL && m[x].next == NULL && m[x].parent == NULL
    {
      PushedField(mem, c, p, x);
    }
  }

  lemma FirstListed(f: Forest, c: Ptr, p: Ptr, k: Ptr)
    requires Ok(f) && c in f.par && p in f.par && (k != NULL ==> k in Detach(f, c).kids[p])
    ensures k != NULL ==> k in f.par && f.par[k] == p && k !in f.busy
  {
    if f.par[c] != NULL && c !in f.busy {
      WithoutMember(f.kids[f.par[c]], c);
    } else if f.par[c] != NULL {
      WithoutSubset(f.kids[f.par[c]], c);
    }
  }

  lemma StaleFrame(mem: Memory, d: Forest, m: Memory, g: Forest, b: Ptr)
    requires Shape(d) && Shape(g) && b in d.par && b in g.par && b in mem && b in m && Stale(mem, d, b)
    requires m[b].prev == mem[b].prev && m[b].parent == mem[b].parent
    requires g.par[b] == d.par[b] && (d.par[b] !in d.busy ==> d.par[b] !in g.busy) && g.hnd.Keys <= d.hnd.Keys
    requires d.par[b] in d.kids ==> d.par[b] in g.kids && forall x :: x in d.kids[d.par[b]] ==> x in g.kids[d.par[b]]
    ensures Stale(m, g, b)
  {
  }

  /** The memory after an unlinked chunk is made a root. */
  function RootMemory(mem: Memory, c: Ptr): Memory
    requires c in mem
  {
    mem[c := mem[c].(parent := NULL, next := NULL, prev := NULL)]
  }

  lemma RootLinksMade(mem: Memory, f: Forest, c: Ptr)
    requires Ok(f) && c in f.par && c !in f.busy && OffList(mem, f, c) && Shape(MakeRoot(f, c))
    ensures Links(RootMemory(mem, c), MakeRoot(f, c))
  {
    hide KidsOk, RefsOk, WellFounded, Stale, Linked, KidLinks, RootLinks, ChildHeads, StaleLinks, Shape;
    RootMade(mem, f, c);
    RootKidLinks(mem, f, c);
    RootStale(mem, f, c);
  }

  lemma RootKidLinks(mem: Memory, f: Forest, c: Ptr)
    requires Ok(f) && c in f.par && c !in f.busy && OffList(mem, f, c) && Shape(MakeRoot(f, c))
    ensures KidLinks(RootMemory(mem, c), MakeRoot(f, c).kids)
  {
    hide KidsOk, RefsOk, WellFounded, Stale, Linked, RootLinks, ChildHeads;
    var g, d, m := MakeRoot(f, c), Detach(f, c), RootMemory(mem, c);
    assert g.kids == d.kids;
    DetachedAbsent(f, c);
    hide MakeRoot, Detach, Shape;
    forall q | q in g.kids
      ensures Linked(m, q, g.kids[q])
    {
      assert c !in d.kids[q];
      LinkedFrame(mem, m, q, g.kids[q]);
    }
  }

  lemma RootStale(mem: Memory, f: Forest, c: Ptr)
    requires Ok(f) && c in f.par && c !in f.busy && OffList(mem, f, c) && Shape(MakeRoot(f, c))
    ensures RootMemory(mem, c).Keys == f.par.Keys && StaleLinks(RootMemory(mem, c), MakeRoot(f, c))
  {
    hide KidsOk, RefsOk, WellFounded, Stale, KidLinks, RootLinks, ChildHeads;
    var g, d, m := MakeRoot(f, c), Detach(f, c), RootMemory(mem, c);
    assert g.kids == d.kids && g.par == f.par[c := NULL] && d.par == f.par && g.busy == f.busy &&
      d.busy == f.busy + {c} && g.hnd == d.hnd;
    hide MakeRoot, Detach;
    forall b | b in g.busy
      ensures Stale(m, g, b)
    {
      StaleFrame(mem, d, m, g, b);
    }
  }

  lemma RootMade(mem: Memory, f: Forest, c: Ptr)
    requires Ok(f) && c in f.par && c !in f.busy && OffList(mem, f, c) && Shape(MakeRoot(f, c))
    ensures RootLinks(RootMemory(mem, c), MakeRoot(f, c)) && ChildHeads(RootMemory(mem, c), MakeRoot(f, c).kids)
  {
    hide KidsOk, RefsOk, WellFounded, Stale, Linked, KidLinks;
    var g, d, m := MakeRoot(f, c), Detach(f, c), RootMemory(mem, c);
    assert g.kids == d.kids && g.par == f.par[c := NULL] && d.par == f.par && g.busy == f.busy &&
      d.busy == f.busy + {c};
    assert ChildHeads(mem, d.kids) && RootLinks(mem, d);
    hide OffList, MakeRoot, Detach, Shape;
    forall x {:trigger m[x]} | x in m
      ensures m[x].child == Head(g.kids[x])
    {
      assert mem[x].child == Head(d.kids[x]);
    }
    forall x {:trigger g.par[x]} | x in g.par && x !in g.busy && g.par[x] == NULL
      ensures m[x].prev == NULL && m[x].next == NULL && m[x].parent == NULL
    {
      if x != c { assert d.par[x] == NULL && x !in d.busy; }
    }
  }

  lemma DetachedAbsent(f: Forest, c: Ptr)
    requires Ok(f) && c in f.par && c !in f.busy
    ensures forall q {:trigger Detach(f, c).kids[q]} :: q in f.kids ==> c !in Detach(f, c).kids[q]
  {
    hide RefsOk, WellFounded;
    if f.par[c] != NULL {
      WithoutMember(f.kids[f.par[c]], c);
    }
  }

  lemma LinkedFrame(mem: Memory, m: Memory, p: Ptr, s: seq<Ptr>)
    requires Linked(mem, p, s)
    requires forall x {:trigger x in s} :: x in s && x in mem ==>
               x in m && m[x].prev == mem[x].prev && m[x].next == mem[x].next && m[x].parent == mem[x].parent
    ensures Linked(m, p, s)
  {
    forall j | 0 <= j < |s|
      ensures LinkedAt(m, p, s, j)
    {
      assert s[j] in mem && s[j] in s;
    }
  }

  lemma RefFrame(mem: Memory, m: Memory, x: Ptr, s: seq<Ptr>)
    requires RefLinked(mem, x, s)
    requires forall y {:trigger y in s} :: y in s && y in mem ==>
      y in m && m[y].refPrev == mem[y].refPrev && m[y].refNext == mem[y].refNext && m[y].referent == mem[y].referent
    ensures RefLinked(m, x, s)
  {
    forall j | 0 <= j < |s|
      ensures RefLinkedAt(m, x, s, j)
    {
      assert s[j] in mem && s[j] in s;
    }
  }

  /** Updates that leave the payload of handles, the `refs` heads and the destructors alone. */
  lemma SameRefs(mem: Memory, m: Memory, f: Forest, g: Forest)
    requires Shape(f) && mem.Keys == f.par.Keys && RefLinks(mem, f) && LoopFlags(mem, f)
    requires Shape(g) && m.Keys == g.par.Keys == mem.Keys
    requires forall x {:trigger m[x]} :: x in mem ==> SameRefFields(m[x], mem[x]) && m[x].loop == mem[x].loop
    requires g.refs == f.refs && g.hnd == f.hnd && g.busy == f.busy && g.stubborn == f.stubborn
    ensures RefLinks(m, g) && LoopFlags(m, g)
  {
    assert f.refs.Keys == mem.Keys && g.refs.Keys == m.Keys;
    hide RefLinked, Shape;
    forall x | x in g.refs
      ensures RefLinked(m, x, g.refs[x])
    {
      RefFrame(mem, m, x, f.refs[x]);
    }
  }
}
