/** New chunks, new handles and moved chunks in memory. */
module TallocMoves {
  import opened Sequences
  import opened TallocTrees
  import opened TallocForest
  import opened TallocGrow
  import opened TallocMemory
  import opened TallocHandles

  function NewHeader(size: nat): Chunk {
    Chunk(NULL, NULL, NULL, NULL, NULL, NULL, NULL, NULL, NoDestructor, false, size)
  }

  lemma NewRootLinks(mem: Memory, f: Forest, c: Ptr, size: nat)
    requires Ok(f) && Links(mem, f) && c !in f.par && c != NULL && Shape(NewChunk(f, c, NULL)) && f.busy == {}
    ensures Links(mem[c := NewHeader(size)], NewChunk(f, c, NULL))
  {
    hide KidsOk, RefsOk, WellFounded, Linked, Stale;
    var m, g := mem[c := NewHeader(size)], NewChunk(f, c, NULL);
    NewRootFields(mem, f, c, m);
    hide ChildHeads, RootLinks, NewChunk;
    assert g.busy == {} && m.Keys == g.par.Keys by { NewChunkKeys(f, c); }
    forall p | p in g.kids
      ensures Linked(m, p, g.kids[p])
    {
      if p == c {
        LinkedNothing(m, p);
      } else {
        KidsInside(f, p, c);
        LinkedFrame(mem, m, p, g.kids[p]);
      }
    }
  }

  lemma NewChunkKeys(f: Forest, c: Ptr)
    requires Ok(f) && c !in f.par && c != NULL && f.busy == {}
    ensures var g := NewChunk(f, c, NULL);
      && g.busy == {} && g.par == f.par[c := NULL] && g.kids.Keys == g.par.Keys && f.kids.Keys == f.par.Keys
      && g.kids[c] == [] && forall p :: p in f.kids ==> g.kids[p] == f.kids[p]
  {
  }

  lemma NewRootFields(mem: Memory, f: Forest, c: Ptr, m: Memory)
    requires Ok(f) && Links(mem, f) && c !in f.par && c != NULL && Shape(NewChunk(f, c, NULL)) && f.busy == {}
    requires c in m && m == mem[c := NewHeader(m[c].size)]
    ensures m.Keys == NewChunk(f, c, NULL).par.Keys && ChildHeads(m, NewChunk(f, c, NULL).kids) &&
      RootLinks(m, NewChunk(f, c, NULL))
  {
    NewChunkKeys(f, c);
    hide Ok, Shape, Linked, Stale, KidLinks, StaleLinks, NewChunk;
    var g := NewChunk(f, c, NULL);
    forall x {:trigger m[x]} | x in m
      ensures m[x].child == Head(g.kids[x])
    {
      if x != c { assert mem[x].child == Head(f.kids[x]); }
    }
    forall x {:trigger g.par[x]} | x in g.par && g.par[x] == NULL
      ensures m[x].prev == NULL && m[x].next == NULL && m[x].parent == NULL
    {
      if x != c { assert f.par[x] == NULL; }
    }
  }

  lemma LinkedNothing(m: Memory, p: Ptr)
    ensures Linked(m, p, []) && RefLinked(m, p, [])
  {
  }

  lemma KidsInside(f: Forest, p: Ptr, c: Ptr)
    requires Ok(f) && p in f.kids && c !in f.par
    ensures c !in f.kids[p]
  {
  }

  lemma RefsInside(f: Forest, x: Ptr, c: Ptr)
    requires Ok(f) && x in f.refs && c !in f.par
    ensures c !in f.refs[x]
  {
  }

  lemma NewRootRefs(mem: Memory, f: Forest, c: Ptr, size: nat)
    requires Ok(f) && Represents(mem, f) && c !in f.par && c != NULL && Shape(NewChunk(f, c, NULL)) && f.busy == {}
    ensures RefLinks(mem[c := NewHeader(size)], NewChunk(f, c, NULL)) &&
      LoopFlags(mem[c := NewHeader(size)], NewChunk(f, c, NULL))
  {
    var m, g := mem[c := NewHeader(size)], NewChunk(f, c, NULL);
    assert mem.Keys == f.par.Keys;
    assert RefLinks(mem, f) && LoopFlags(mem, f);
    NewChunkRest(f, c);
    hide Links, Represents, RefLinks, LoopFlags, NewChunk, Ok;
    NewRootLists(mem, f, c, m);
    NewRootHeads(mem, f, c, m, g);
  }

  lemma NewChunkRest(f: Forest, c: Ptr)
    requires Shape(f) && c !in f.par && c != NULL && f.busy == {}
    ensures var g := NewChunk(f, c, NULL);
      && g.refs == f.refs[c := []] && g.hnd == f.hnd && g.stubborn == f.stubborn - {c} && g.busy == {}
      && g.par.Keys == f.par.Keys + {c} && f.refs.Keys == f.par.Keys && c !in f.hnd
  {
  }

  lemma NewRootLists(mem: Memory, f: Forest, c: Ptr, m: Memory)
    requires Ok(f) && mem.Keys == f.par.Keys && RefLinks(mem, f) && c !in f.par
    requires c in m && m == mem[c := NewHeader(m[c].size)]
    ensures forall x {:trigger f.refs[c := []][x]} :: x in f.refs[c := []] ==> RefLinked(m, x, f.refs[c := []][x])
  {
    hide KidsOk, WellFounded, RefLinked;
    forall x {:trigger f.refs[c := []][x]} | x in f.refs[c := []]
      ensures RefLinked(m, x, f.refs[c := []][x])
    {
      if x == c {
        LinkedNothing(m, x);
      } else {
        RefsInside(f, x, c);
        RefFrame(mem, m, x, f.refs[x]);
      }
    }
  }

  lemma NewRootHeads(mem: Memory, f: Forest, c: Ptr, m: Memory, g: Forest)
    requires Shape(f) && Shape(g) && mem.Keys == f.par.Keys && RefLinks(mem, f) && LoopFlags(mem, f) && c !in f.par
    requires c in m && m == mem[c := NewHeader(m[c].size)] && m.Keys == g.par.Keys && f.busy == {} == g.busy
    requires g.refs == f.refs[c := []] && g.hnd == f.hnd && g.stubborn == f.stubborn - {c} && c !in f.hnd
    requires forall x {:trigger g.refs[x]} :: x in g.refs ==> RefLinked(m, x, g.refs[x])
    ensures RefLinks(m, g) && LoopFlags(m, g)
  {
    hide RefLinked;
  }

  lemma NewRootRepresents(mem: Memory, f: Forest, c: Ptr, size: nat)
    requires Ok(f) && Represents(mem, f) && c !in f.par && c != NULL && f.busy == {}
    ensures Ok(NewChunk(f, c, NULL)) && c in NewChunk(f, c, NULL).par
    ensures Represents(mem[c := NewHeader(size)], NewChunk(f, c, NULL))
    ensures OffList(mem[c := NewHeader(size)], NewChunk(f, c, NULL), c)
  {
    hide KidsOk, RefsOk, WellFounded, KidLinks, ChildHeads, RefLinks, LoopFlags;
    NewChunkOk(f, c, NULL);
    NewRootLinks(mem, f, c, size);
    NewRootRefs(mem, f, c, size);
    var g := NewChunk(f, c, NULL);
    assert Detach(g, c).kids == g.kids;
  }

  lemma NewChunkBelow(f: Forest, c: Ptr, p: Ptr)
    requires Ok(f) && c !in f.par && c != NULL && p in f.par
    ensures var g := NewChunk(f, c, NULL);
      && p in g.par && p != c && g.par[c] != p
      && p !in Desc(g.par, c) && Shape(g) && Steal(g, c, p) == NewChunk(f, c, p)
  {
    hide KidsOk, RefsOk, WellFounded;
    var g := NewChunk(f, c, NULL);
    assert DownClosed(g.par, {c});
    DescLeast(g.par, c, {c});
    hide Desc;
    NewChunkStolen(f, c, p);
  }

  lemma NewChunkStolen(f: Forest, c: Ptr, p: Ptr)
    requires Shape(f) && c !in f.par && c != NULL && p in f.par
    ensures Shape(NewChunk(f, c, NULL)) && Steal(NewChunk(f, c, NULL), c, p) == NewChunk(f, c, p)
  {
    var g := NewChunk(f, c, NULL);
    assert f.par[c := NULL][c := p] == f.par[c := p];
    assert MakeRoot(g, c) == g;
    assert Steal(g, c, p).kids == NewChunk(f, c, p).kids;
  }

  /** The memory after chunk `h` is made the first reference handle of `x`. */
  function AddedMemory(mem: Memory, x: Ptr, h: Ptr): Memory
    requires x in mem && h in mem && (mem[x].refs != NULL ==> mem[x].refs in mem)
  {
    var k := mem[x].refs;
    var m1 := mem[h := mem[h].(destructor := ReferenceDestructor, referent := x, refNext := k, refPrev := NULL)];
    var m2 := if k == NULL then m1 else m1[k := m1[k].(refPrev := h)];
    m2[x := m2[x].(refs := h)]
  }

  lemma AddedField(mem: Memory, x: Ptr, h: Ptr, y: Ptr)
    requires x in mem && h in mem && x != h && y in mem
    requires mem[x].refs != NULL ==> mem[x].refs in mem && mem[x].refs != h && mem[x].refs != x
    ensures var m, k := AddedMemory(mem, x, h), mem[x].refs;
      && m.Keys == mem.Keys && SameKidFields(m[y], mem[y])
      && m[y].refs == (if y == x then h else mem[y].refs)
      && m[y].destructor == (if y == h then ReferenceDestructor else mem[y].destructor)
      && m[y].referent == (if y == h then x else mem[y].referent)
      && m[y].refNext == (if y == h then k else mem[y].refNext)
      && m[y].refPrev == (if y == h then NULL else if y == k && k != NULL then h else mem[y].refPrev)
  {
  }

  lemma AddedList(mem: Memory, x: Ptr, h: Ptr, s: seq<Ptr>, m: Memory)
    requires x in mem && h in mem && x != h && h != NULL
    requires mem[x].refs != NULL ==> mem[x].refs in mem && mem[x].refs != h && mem[x].refs != x
    requires m == AddedMemory(mem, x, h) && RefLinked(mem, x, s) && Distinct(s) && h !in s && NULL !in s
    requires mem[x].refs == Head(s)
    ensures RefLinked(m, x, [h] + s)
  {
    hide AddedMemory;
    var t := [h] + s;
    AddedField(mem, x, h, h);
    forall j | 0 <= j < |t|
      ensures RefLinkedAt(m, x, t, j)
    {
      if j > 0 {
        assert t[j] == s[j - 1] && s[j - 1] in mem;
        AddedField(mem, x, h, s[j - 1]);
      }
    }
    assert RefLinked(m, x, t);
  }

  lemma AddedElsewhere(mem: Memory, x: Ptr, h: Ptr, y: Ptr, s: seq<Ptr>, m: Memory)
    requires x in mem && h in mem && x != h
    requires mem[x].refs != NULL ==> mem[x].refs in mem && mem[x].refs != h && mem[x].refs != x
    requires m == AddedMemory(mem, x, h) && RefLinked(mem, y, s) && h !in s && mem[x].refs !in s
    ensures RefLinked(m, y, s)
  {
    hide AddedMemory;
    forall j | 0 <= j < |s|
      ensures RefLinkedAt(m, y, s, j)
    {
      assert s[j] in mem;
      AddedField(mem, x, h, s[j]);
    }
  }

  lemma AddableHandle(mem: Memory, f: Forest, h: Ptr, x: Ptr)
    requires Ok(f) && Represents(mem, f) && x in f.par && x !in f.hnd && h in f.par && h !in f.hnd && h != x
    ensures x in mem && h in mem && h != NULL
    ensures mem[x].refs != NULL ==> mem[x].refs in mem && mem[x].refs != h && mem[x].refs != x
    ensures mem[x].refs == Head(f.refs[x]) && h !in f.refs[x] && NULL !in f.refs[x]
    ensures forall y :: y in f.refs && y != x ==>
      h !in f.refs[y] && (mem[x].refs != NULL ==> mem[x].refs !in f.refs[y]) && NULL !in f.refs[y]
  {
    hide WellFounded, KidsOk, KidLinks;
    if f.refs[x] != [] {
      assert f.refs[x][0] in f.refs[x];
    }
  }

  lemma MakeHandleFields(mem: Memory, f: Forest, h: Ptr, x: Ptr, m: Memory)
    requires Ok(f) && Represents(mem, f) && x in f.par && x !in f.hnd && h in f.par && h !in f.hnd && h != x
    requires h !in f.stubborn && x in mem && h in mem && (mem[x].refs != NULL ==> mem[x].refs in mem)
    requires m == AddedMemory(mem, x, h)
    ensures m.Keys == mem.Keys == f.par.Keys
    ensures forall y {:trigger m[y]} :: y in m ==>
      && SameKidFields(m[y], mem[y]) && m[y].refs == Head(MakeHandle(f, h, x).refs[y])
      && (m[y].destructor == ReferenceDestructor <==> y in MakeHandle(f, h, x).hnd)
      && (m[y].destructor == UserDestructor(true) <==> y in f.stubborn)
  {
    hide WellFounded, KidsOk, RefsOk, RefLinked, AddedMemory, KidLinks, RootLinks, StaleLinks, ChildHeads;
    AddableHandle(mem, f, h, x);
    AddedField(mem, x, h, h);
    forall y {:trigger m[y]} | y in m
      ensures SameKidFields(m[y], mem[y]) && m[y].refs == Head(MakeHandle(f, h, x).refs[y])
        && (m[y].destructor == ReferenceDestructor <==> y in MakeHandle(f, h, x).hnd)
        && (m[y].destructor == UserDestructor(true) <==> y in f.stubborn)
    {
      AddedField(mem, x, h, y);
    }
  }

  lemma MakeHandleLists(mem: Memory, f: Forest, h: Ptr, x: Ptr, m: Memory)
    requires Ok(f) && Represents(mem, f) && x in f.par && x !in f.hnd && h in f.par && h !in f.hnd && h != x
    requires x in mem && h in mem && (mem[x].refs != NULL ==> mem[x].refs in mem)
    requires m == AddedMemory(mem, x, h)
    ensures forall y {:trigger MakeHandle(f, h, x).refs[y]} :: y in MakeHandle(f, h, x).refs ==>
      RefLinked(m, y, MakeHandle(f, h, x).refs[y])
  {
    hide WellFounded, KidsOk, RefsOk, RefLinked, AddedMemory, KidLinks, RootLinks, StaleLinks, ChildHeads, LoopFlags;
    AddableHandle(mem, f, h, x);
    var g := MakeHandle(f, h, x);
    forall y | y in g.refs
      ensures RefLinked(m, y, g.refs[y])
    {
      if y == x {
        RefListDistinct(f, x);
        AddedList(mem, x, h, f.refs[x], m);
      } else {
        if mem[x].refs == NULL { NullUnlisted(f, y); }
        AddedElsewhere(mem, x, h, y, f.refs[y], m);
      }
    }
  }

  lemma NullUnlisted(f: Forest, y: Ptr)
    requires Ok(f) && y in f.refs
    ensures NULL !in f.refs[y]
  {
  }

  lemma MakeHandleRepresents(mem: Memory, f: Forest, h: Ptr, x: Ptr)
    requires Ok(f) && Represents(mem, f) && x in f.par && x !in f.hnd && h in f.par && h !in f.hnd && h != x
    requires Ok(MakeHandle(f, h, x)) && h !in f.stubborn && f.busy == {}
    ensures x in mem && h in mem && (mem[x].refs != NULL ==> mem[x].refs in mem)
    ensures Represents(AddedMemory(mem, x, h), MakeHandle(f, h, x))
  {
    hide WellFounded, KidsOk, RefsOk, RefLinked, AddedMemory, KidLinks, RootLinks, StaleLinks, ChildHeads;
    AddableHandle(mem, f, h, x);
    var m, g := AddedMemory(mem, x, h), MakeHandle(f, h, x);
    MakeHandleFields(mem, f, h, x, m);
    MakeHandleLists(mem, f, h, x, m);
    SameKidLinksOf(mem, m, f, g);
  }

  lemma RefListDistinct(f: Forest, x: Ptr)
    requires Ok(f) && x in f.refs
    ensures Distinct(f.refs[x])
  {
  }

  lemma SameKidLinksOf(mem: Memory, m: Memory, f: Forest, g: Forest)
    requires Ok(f) && Links(mem, f) && LoopFlags(mem, f) && Shape(g)
    requires m.Keys == mem.Keys && forall x {:trigger m[x]} :: x in mem ==> SameKidFields(m[x], mem[x])
    requires g.par == f.par && g.kids == f.kids && g.busy == f.busy
    requires f.busy == {}
    ensures Links(m, g) && LoopFlags(m, g)
  {
    hide Linked, KidsOk, RefsOk, WellFounded;
    forall p | p in g.kids
      ensures Linked(m, p, g.kids[p])
    {
      LinkedFrame(mem, m, p, g.kids[p]);
    }
  }

  /** Links lead back: `next` and `prev` are inverse, and so are `child` and `parent`. */
  lemma MutualLinks(mem: Memory, f: Forest, x: Ptr, y: Ptr)
    requires Ok(f) && Links(mem, f) && f.busy == {} && x in mem && y in mem
    ensures mem[x].next == y <==> mem[y].prev == x
    ensures mem[x].child == y <==> mem[y].parent == x
    ensures mem[x].next != x && mem[x].child != x
  {
    hide WellFounded, RefsOk;
    NotOwnParent(f, x);
    NextLeadsBack(mem, f, x, y);
    ChildLeadsBack(mem, f, x, y);
  }

  lemma NextLeadsBack(mem: Memory, f: Forest, x: Ptr, y: Ptr)
    requires Ok(f) && Links(mem, f) && f.busy == {} && x in mem && y in mem
    ensures mem[x].next == y <==> mem[y].prev == x
    ensures mem[x].next != x
  {
    hide WellFounded, RefsOk;
    if f.par[x] != NULL {
      var i := KidIndex(f, x);
      var s := f.kids[f.par[x]];
      assert s[i] in mem;
      assert i + 1 < |s| ==> s[i + 1] in mem;
    }
    if f.par[y] != NULL {
      var i := KidIndex(f, y);
      var s := f.kids[f.par[y]];
      assert s[i] in mem;
      assert i > 0 ==> s[i - 1] in mem;
    }
  }

  lemma ChildLeadsBack(mem: Memory, f: Forest, x: Ptr, y: Ptr)
    requires Ok(f) && Links(mem, f) && f.busy == {} && x in mem && y in mem && f.par[x] != x
    ensures mem[x].child == y <==> mem[y].parent == x
    ensures mem[x].child != x
  {
    hide WellFounded, RefsOk;
    if f.kids[x] != [] {
      assert f.kids[x][0] in mem && f.kids[x][0] in f.kids[x];
    }
    if f.par[y] != NULL {
      var i := KidIndex(f, y);
      assert f.kids[f.par[y]][i] in mem;
    }
  }

  /** Exactly the first sibling carries the pointer to the parent. */
  lemma ParentAtFirst(mem: Memory, f: Forest, x: Ptr)
    requires Ok(f) && Links(mem, f) && f.busy == {} && x in mem
    ensures mem[x].parent == if f.par[x] != NULL && mem[x].prev == NULL then f.par[x] else NULL
    ensures f.par[x] != NULL ==> (mem[x].prev == NULL <==> mem[f.par[x]].child == x)
  {
    hide WellFounded, RefsOk;
    if f.par[x] != NULL {
      var i := KidIndex(f, x);
      var s := f.kids[f.par[x]];
      assert s[i] in mem && s[0] in s;
      assert i > 0 ==> s[i - 1] in s;
    }
  }

  /** Where the links of a chunk lead. */
  ghost predicate Neighboured(mem: Memory, c: Ptr) {
    && c in mem && mem[c].parent != c && mem[c].child != c && mem[c].prev != c && mem[c].next != c
    && (mem[c].parent != NULL ==> mem[c].parent in mem)
    && (mem[c].child != NULL ==> mem[c].child in mem)
    && (mem[c].prev != NULL ==> mem[c].prev in mem)
    && (mem[c].next != NULL ==> mem[c].next in mem)
  }

  lemma LinksNeighboured(mem: Memory, f: Forest, c: Ptr)
    requires Ok(f) && Links(mem, f) && f.busy == {} && c in mem
    ensures Neighboured(mem, c)
  {
    hide WellFounded, RefsOk, Linked;
    UnlinkDefined(mem, f, c);
    MutualLinks(mem, f, c, c);
    if f.kids[c] != [] {
      assert f.kids[c][0] in f.kids[c];
    }
  }

  /** The memory after chunk `c` was copied to address `n`, grew to `size`, and the pointers of its
      neighbours were corrected. */
  function MovedMemory(mem: Memory, c: Ptr, n: Ptr, size: nat): Memory
    requires c in mem && (n == c || n !in mem)
    requires mem[c].parent != NULL ==> mem[c].parent in mem && mem[c].parent != c
    requires mem[c].child != NULL ==> mem[c].child in mem && mem[c].child != c
    requires mem[c].prev != NULL ==> mem[c].prev in mem && mem[c].prev != c
    requires mem[c].next != NULL ==> mem[c].next in mem && mem[c].next != c
  {
    var t := mem[c];
    var m0 := (mem - {c})[n := t];
    var m1 := if t.parent != NULL then m0[t.parent := m0[t.parent].(child := n)] else m0;
    var m2 := if t.child != NULL then m1[t.child := m1[t.child].(parent := n)] else m1;
    var m3 := if t.prev != NULL then m2[t.prev := m2[t.prev].(next := n)] else m2;
    var m4 := if t.next != NULL then m3[t.next := m3[t.next].(prev := n)] else m3;
    m4[n := m4[n].(size := size)]
  }

  lemma MovedField(mem: Memory, c: Ptr, n: Ptr, size: nat, x: Ptr)
    requires Neighboured(mem, c) && n !in mem && NULL !in mem && x in mem && x != c
    ensures var m, t := MovedMemory(mem, c, n, size), mem[c];
      && m.Keys == mem.Keys - {c} + {n} && x in m && n in m
      && m[n] == t.(size := size)
      && m[x].child == (if x == t.parent then n else mem[x].child)
      && m[x].parent == (if x == t.child then n else mem[x].parent)
      && m[x].next == (if x == t.prev then n else mem[x].next)
      && m[x].prev == (if x == t.next then n else mem[x].prev)
      && SameRefFields(m[x], mem[x]) && m[x].loop == mem[x].loop
  {
  }

  lemma MovedKeys(mem: Memory, c: Ptr, n: Ptr, size: nat)
    requires Neighboured(mem, c) && n !in mem && NULL !in mem
    ensures var m := MovedMemory(mem, c, n, size);
      && m.Keys == mem.Keys - {c} + {n} && m[n] == mem[c].(size := size)
  {
  }

  /** A moved chunk is found at its new address by everything that led to it. */
  ghost predicate LinksRenamed(mem: Memory, m: Memory, c: Ptr, n: Ptr) {
    forall x {:trigger mem[x]} :: x in mem ==>
      && Renamed(x, c, n) in m
      && m[Renamed(x, c, n)].next == Renamed(mem[x].next, c, n)
      && m[Renamed(x, c, n)].prev == Renamed(mem[x].prev, c, n)
      && m[Renamed(x, c, n)].parent == Renamed(mem[x].parent, c, n)
      && m[Renamed(x, c, n)].child == Renamed(mem[x].child, c, n)
  }

  lemma MovedRenames(mem: Memory, f: Forest, c: Ptr, n: Ptr, size: nat)
    requires Ok(f) && Links(mem, f) && f.busy == {} && c in mem && n !in mem && n != NULL && NULL !in mem
    ensures Neighboured(mem, c) && LinksRenamed(mem, MovedMemory(mem, c, n, size), c, n)
  {
    hide Ok, Links, MovedMemory;
    LinksNeighboured(mem, f, c);
    MovedKeys(mem, c, n, size);
    forall x {:trigger mem[x]} | x in mem
      ensures var m := MovedMemory(mem, c, n, size);
        && Renamed(x, c, n) in m
        && m[Renamed(x, c, n)].next == Renamed(mem[x].next, c, n)
        && m[Renamed(x, c, n)].prev == Renamed(mem[x].prev, c, n)
        && m[Renamed(x, c, n)].parent == Renamed(mem[x].parent, c, n)
        && m[Renamed(x, c, n)].child == Renamed(mem[x].child, c, n)
    {
      if x != c {
        MovedField(mem, c, n, size, x);
        MutualLinks(mem, f, x, c);
        MutualLinks(mem, f, c, x);
      }
    }
  }

  lemma RenamedLinked(mem: Memory, m: Memory, c: Ptr, n: Ptr, p: Ptr, s: seq<Ptr>)
    requires Linked(mem, p, s) && LinksRenamed(mem, m, c, n) && c != NULL
    ensures Linked(m, Renamed(p, c, n), RenamedSeq(s, c, n))
  {
    var t := RenamedSeq(s, c, n);
    forall j | 0 <= j < |t|
      ensures LinkedAt(m, Renamed(p, c, n), t, j)
    {
      assert s[j] in mem && t[j] == Renamed(s[j], c, n);
    }
  }

  lemma RenamedKids(f: Forest, c: Ptr, n: Ptr, q: Ptr)
    requires Ok(f) && c in f.par && n !in f.par && q in f.par
    ensures var g, p := Rename(f, c, n), Renamed(q, c, n);
      p in g.kids && p in g.par && g.kids[p] == RenamedSeq(f.kids[q], c, n) && g.par[p] == Renamed(f.par[q], c, n)
  {
    hide WellFounded, RefsOk, KidsOk;
    OwnParent(f, c);
    RenamedAbsent(f.kids[c], c, n);
  }

  lemma RenamedFrom(f: Forest, c: Ptr, n: Ptr, p: Ptr) returns (q: Ptr)
    requires Ok(f) && c in f.par && n !in f.par && (p in Rename(f, c, n).kids || p in Rename(f, c, n).par)
    ensures q in f.par && p == Renamed(q, c, n)
  {
    hide WellFounded, RefsOk, KidsOk;
    q := if p == n then c else p;
  }

  lemma MovedKidLinks(mem: Memory, f: Forest, c: Ptr, n: Ptr, m: Memory)
    requires Ok(f) && Links(mem, f) && f.busy == {} && c in f.par && n !in f.par && n != NULL && c != NULL
    requires LinksRenamed(mem, m, c, n) && m.Keys == mem.Keys - {c} + {n} && Shape(Rename(f, c, n))
    ensures Links(m, Rename(f, c, n))
  {
    hide WellFounded, RefsOk, Linked, KidsOk, RenamedSeq, RootLinks, Rename, LinksRenamed, Renamed, StaleLinks;
    var g := Rename(f, c, n);
    RenamedKeys(f, c, n);
    forall p | p in g.kids
      ensures Linked(m, p, g.kids[p])
    {
      var q := RenamedFrom(f, c, n, p);
      RenamedKids(f, c, n, q);
      RenamedLinked(mem, m, c, n, q, f.kids[q]);
    }
    MovedChildHeads(mem, f, c, n, m);
    MovedRootLinks(mem, f, c, n, m);
    assert StaleLinks(m, g) by { NothingStale(m, g); }
  }

  lemma NothingStale(m: Memory, g: Forest)
    requires Shape(g) && m.Keys == g.par.Keys && g.busy == {}
    ensures StaleLinks(m, g)
  {
  }

  lemma RenamedKeys(f: Forest, c: Ptr, n: Ptr)
    requires Shape(f) && c in f.par
    ensures Rename(f, c, n).busy == f.busy
    ensures Rename(f, c, n).par.Keys == Rename(f, c, n).kids.Keys == f.par.Keys - {c} + {n}
  {
  }

  lemma MovedChildHeads(mem: Memory, f: Forest, c: Ptr, n: Ptr, m: Memory)
    requires Ok(f) && Links(mem, f) && c in f.par && n !in f.par && n != NULL && c != NULL
    requires LinksRenamed(mem, m, c, n) && m.Keys == Rename(f, c, n).kids.Keys
    ensures ChildHeads(m, Rename(f, c, n).kids)
  {
    hide WellFounded, RefsOk, KidLinks, KidsOk, RenamedSeq, RootLinks, StaleLinks, Rename, Renamed, Head;
    forall p {:trigger m[p]} | p in m
      ensures m[p].child == Head(Rename(f, c, n).kids[p])
    {
      var q := RenamedFrom(f, c, n, p);
      RenamedKids(f, c, n, q);
      RenamedHead(f.kids[q], c, n);
      assert q in mem && mem[q].child == Head(f.kids[q]);
    }
  }

  lemma MovedRootLinks(mem: Memory, f: Forest, c: Ptr, n: Ptr, m: Memory)
    requires Ok(f) && Links(mem, f) && f.busy == {} && c in f.par && n !in f.par && n != NULL && c != NULL
    requires LinksRenamed(mem, m, c, n) && m.Keys == Rename(f, c, n).par.Keys
    ensures RootLinks(m, Rename(f, c, n))
  {
    hide WellFounded, RefsOk, KidLinks, KidsOk, RenamedSeq, ChildHeads, StaleLinks, Rename;
    var g := Rename(f, c, n);
    forall x {:trigger g.par[x]} | x in g.par && g.par[x] == NULL
      ensures m[x].prev == NULL && m[x].next == NULL && m[x].parent == NULL
    {
      var q := RenamedFrom(f, c, n, x);
      RenamedKids(f, c, n, q);
      assert f.par[q] == NULL && mem[q].prev == NULL;
    }
  }

  lemma RenamedAbsent(s: seq<Ptr>, c: Ptr, n: Ptr)
    requires c !in s
    ensures RenamedSeq(s, c, n) == s
  {
  }

  lemma RenamedHead(s: seq<Ptr>, c: Ptr, n: Ptr)
    requires c != NULL
    ensures Head(RenamedSeq(s, c, n)) == Renamed(Head(s), c, n)
  {
  }

  ghost predicate MovedTo(mem: Memory, f: Forest, c: Ptr, n: Ptr, m: Memory, size: nat) {
    && Ok(f) && Represents(mem, f) && f.busy == {} && c in f.par && n !in f.par && n != NULL
    && c !in f.hnd && f.refs[c] == [] && Neighboured(mem, c) && m == MovedMemory(mem, c, n, size)
    && Shape(Rename(f, c, n)) && m.Keys == mem.Keys - {c} + {n}
  }

  lemma MovedElse(mem: Memory, f: Forest, c: Ptr, n: Ptr, m: Memory, size: nat)
    requires MovedTo(mem, f, c, n, m, size)
    ensures m.Keys == Rename(f, c, n).par.Keys && m[n] == mem[c].(size := size)
    ensures forall x {:trigger m[x]} :: x in m && x != n ==>
      x in mem && SameRefFields(m[x], mem[x]) && m[x].loop == mem[x].loop
  {
    hide WellFounded, KidsOk, RefsOk, KidLinks, ChildHeads, RootLinks, StaleLinks, RefLinks, LoopFlags, MovedMemory;
    MovedKeys(mem, c, n, size);
    forall x {:trigger m[x]} | x in m && x != n
      ensures x in mem && SameRefFields(m[x], mem[x]) && m[x].loop == mem[x].loop
    {
      MovedField(mem, c, n, size, x);
    }
  }

  lemma RefListOf(mem: Memory, f: Forest, x: Ptr)
    requires Represents(mem, f) && x in f.refs
    ensures x in mem && x in f.par && RefLinked(mem, x, f.refs[x]) && mem[x].refs == Head(f.refs[x])
    ensures (mem[x].destructor == ReferenceDestructor <==> x in f.hnd) &&
      (mem[x].destructor == UserDestructor(true) <==> x in f.stubborn)
  {
    hide RefLinked, KidLinks, ChildHeads, RootLinks, StaleLinks, LoopFlags;
  }

  lemma MovedRefLists(mem: Memory, f: Forest, c: Ptr, n: Ptr, m: Memory, size: nat)
    requires MovedTo(mem, f, c, n, m, size)
    ensures forall x {:trigger Rename(f, c, n).refs[x]} :: x in Rename(f, c, n).refs ==>
      RefLinked(m, x, Rename(f, c, n).refs[x])
  {
    hide WellFounded, KidsOk, RefsOk, Links, RefLinks, RefLinked, LoopFlags, MovedMemory, Neighboured, Renamed;
    hide RenamedSeq;
    MovedElse(mem, f, c, n, m, size);
    var g := Rename(f, c, n);
    forall x | x in g.refs
      ensures RefLinked(m, x, g.refs[x])
    {
      if x != n {
        RefListOf(mem, f, x);
        RefsElsewhere(f, x, c, n);
        RefFrame(mem, m, x, f.refs[x]);
      } else {
        LinkedNothing(m, x);
      }
    }
  }

  lemma MovedHead(mem: Memory, f: Forest, c: Ptr, n: Ptr, m: Memory, size: nat, x: Ptr)
    requires MovedTo(mem, f, c, n, m, size) && x in m && m.Keys == Rename(f, c, n).par.Keys
    requires m[n] == mem[c].(size := size) && (x != n ==> x in mem && SameRefFields(m[x], mem[x]))
    ensures m[x].refs == Head(Rename(f, c, n).refs[x])
    ensures m[x].destructor == ReferenceDestructor <==> x in Rename(f, c, n).hnd
    ensures m[x].destructor == UserDestructor(true) <==> x in Rename(f, c, n).stubborn
  {
    hide WellFounded, KidsOk, RefsOk, Links, RefLinks, LoopFlags, MovedMemory, Neighboured, Renamed, RenamedSeq;
    KeysOf(mem, f);
    RefListOf(mem, f, if x == n then c else x);
  }

  lemma KeysOf(mem: Memory, f: Forest)
    requires Represents(mem, f)
    ensures mem.Keys == f.par.Keys == f.refs.Keys && f.hnd.Keys <= f.par.Keys
  {
    hide KidLinks, ChildHeads, RootLinks, StaleLinks, RefLinks, LoopFlags;
  }

  lemma MovedHeads(mem: Memory, f: Forest, c: Ptr, n: Ptr, m: Memory, size: nat)
    requires MovedTo(mem, f, c, n, m, size)
    ensures m.Keys == Rename(f, c, n).par.Keys
    ensures forall x {:trigger m[x]} :: x in m ==> m[x].refs == Head(Rename(f, c, n).refs[x])
    ensures forall x {:trigger m[x]} :: x in m ==>
      && (m[x].destructor == ReferenceDestructor <==> x in Rename(f, c, n).hnd)
      && (m[x].destructor == UserDestructor(true) <==> x in Rename(f, c, n).stubborn)
  {
    hide Ok, Links, RefLinks, LoopFlags, MovedMemory, Neighboured, Renamed, RenamedSeq;
    MovedElse(mem, f, c, n, m, size);
    forall x {:trigger m[x]} | x in m
      ensures m[x].refs == Head(Rename(f, c, n).refs[x])
      ensures m[x].destructor == ReferenceDestructor <==> x in Rename(f, c, n).hnd
      ensures m[x].destructor == UserDestructor(true) <==> x in Rename(f, c, n).stubborn
    {
      MovedHead(mem, f, c, n, m, size, x);
    }
  }

  lemma MovedFlags(mem: Memory, f: Forest, c: Ptr, n: Ptr, m: Memory, size: nat)
    requires MovedTo(mem, f, c, n, m, size)
    ensures LoopFlags(m, Rename(f, c, n))
  {
    hide Ok, Links, RefLinks, MovedMemory;
    MovedElse(mem, f, c, n, m, size);
    RenameBusy(f, c, n);
  }

  lemma MovedRefs(mem: Memory, f: Forest, c: Ptr, n: Ptr, m: Memory, size: nat)
    requires MovedTo(mem, f, c, n, m, size)
    ensures m.Keys == Rename(f, c, n).par.Keys
    ensures RefLinks(m, Rename(f, c, n)) && LoopFlags(m, Rename(f, c, n))
  {
    hide Ok, Links, RefLinked, MovedMemory, Represents;
    MovedHeads(mem, f, c, n, m, size);
    MovedFlags(mem, f, c, n, m, size);
    MovedRefLists(mem, f, c, n, m, size);
  }

  lemma RefsElsewhere(f: Forest, x: Ptr, c: Ptr, n: Ptr)
    requires Ok(f) && x in f.refs && c !in f.hnd && n !in f.par
    ensures c !in f.refs[x] && n !in f.refs[x]
  {
  }

  /** A chunk that moved is represented at its new address. */
  lemma MovedRepresents(mem: Memory, f: Forest, c: Ptr, n: Ptr, size: nat)
    requires Ok(f) && Represents(mem, f) && f.busy == {} && c in f.par && n !in f.par && n != NULL
    requires c !in f.hnd && f.refs[c] == []
    ensures Neighboured(mem, c) && Ok(Rename(f, c, n))
    ensures Represents(MovedMemory(mem, c, n, size), Rename(f, c, n))
  {
    hide WellFounded, KidsOk, RefsOk, KidLinks, ChildHeads, RootLinks, StaleLinks, RefLinks, LoopFlags;
    hide MovedMemory, LinksRenamed;
    RenameOk(f, c, n);
    MovedRenames(mem, f, c, n, size);
    MovedKeys(mem, c, n, size);
    var m := MovedMemory(mem, c, n, size);
    MovedKidLinks(mem, f, c, n, m);
    MovedRefs(mem, f, c, n, m, size);
  }

  /** A chunk that grew or shrank in place. */
  lemma ResizedRepresents(mem: Memory, f: Forest, c: Ptr, size: nat)
    requires Ok(f) && Represents(mem, f) && c in f.par
    ensures c in mem && Represents(mem[c := mem[c].(size := size)], f)
  {
    hide WellFounded, KidsOk, RefsOk, KidLinks, ChildHeads, RootLinks, StaleLinks, RefLinks;
    var m := mem[c := mem[c].(size := size)];
    ResizedLinks(mem, f, c, m);
    ResizedRefs(mem, f, c, m);
  }

  lemma ResizedLinks(mem: Memory, f: Forest, c: Ptr, m: Memory)
    requires Ok(f) && Represents(mem, f) && c in mem && c in m && m == mem[c := mem[c].(size := m[c].size)]
    ensures Links(m, f)
  {
    hide WellFounded, KidsOk, RefsOk, Linked, Stale, RefLinks, LoopFlags;
    assert ChildHeads(m, f.kids) && RootLinks(m, f);
    hide ChildHeads, RootLinks;
    forall p | p in f.kids
      ensures Linked(m, p, f.kids[p])
    {
      LinkedFrame(mem, m, p, f.kids[p]);
    }
    forall b | b in f.busy
      ensures Stale(m, f, b)
    {
      StaleFrame(mem, f, m, f, b);
    }
  }

  lemma ResizedRefs(mem: Memory, f: Forest, c: Ptr, m: Memory)
    requires Ok(f) && Represents(mem, f) && c in mem && c in m && m == mem[c := mem[c].(size := m[c].size)]
    ensures RefLinks(m, f)
  {
    hide WellFounded, KidsOk, RefsOk, RefLinked;
    forall x | x in f.refs
      ensures RefLinked(m, x, f.refs[x])
    {
      RefFrame(mem, m, x, f.refs[x]);
    }
  }
}
