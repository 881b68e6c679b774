/** The lists of reference handles in memory. */
module TallocHandles {
  import opened Sequences
  import opened TallocTrees
  import opened TallocForest
  import opened TallocMemory

  /** The header fields that the lists of handles do not use. */
  ghost predicate SameKidFields(a: Chunk, b: Chunk) {
    && a.next == b.next && a.prev == b.prev && a.parent == b.parent && a.child == b.child
    && a.loop == b.loop && a.size == b.size
  }

  /** The memory after `h` is removed from the list of handles of `x`. */
  function DroppedMemory(mem: Memory, x: Ptr, h: Ptr): Memory
    requires x in mem && h in mem
    requires mem[h].refPrev != NULL ==> mem[h].refPrev in mem
    requires mem[h].refNext != NULL ==> mem[h].refNext in mem
  {
    var n, p := mem[h].refNext, mem[h].refPrev;
    var m1 :=
      if h == mem[x].refs then
        var m := mem[x := mem[x].(refs := n)];
        if n != NULL then m[n := m[n].(refPrev := NULL)] else m
      else
        var m := if p != NULL then mem[p := mem[p].(refNext := n)] else mem;
        if n != NULL then m[n := m[n].(refPrev := p)] else m;
    m1[h := m1[h].(refNext := NULL, refPrev := NULL)]
  }

  ghost predicate Droppable(mem: Memory, x: Ptr, h: Ptr) {
    && x in mem && h in mem && x != h && h != NULL
    && (mem[h].refPrev != NULL ==> mem[h].refPrev in mem && mem[h].refPrev != h)
    && (mem[h].refNext != NULL ==> mem[h].refNext in mem && mem[h].refNext != h)
    && (mem[h].refPrev == NULL <==> h == mem[x].refs)
    && (mem[h].refNext != NULL ==> mem[h].refNext != mem[h].refPrev)
  }

  lemma DroppedField(mem: Memory, x: Ptr, h: Ptr, y: Ptr)
    requires Droppable(mem, x, h) && y in mem
    ensures var m, n, p := DroppedMemory(mem, x, h), mem[h].refNext, mem[h].refPrev;
      && m.Keys == mem.Keys && SameKidFields(m[y], mem[y])
      && m[y].referent == mem[y].referent && m[y].destructor == mem[y].destructor
      && m[y].refs == (if y == x && p == NULL then n else mem[y].refs)
      && m[y].refPrev == (if y == h then NULL else if y == n && n != NULL then p else mem[y].refPrev)
      && m[y].refNext == (if y == h then NULL else if y == p && p != NULL then n else mem[y].refNext)
  {
  }

  lemma HandleIndex(mem: Memory, f: Forest, h: Ptr) returns (i: nat)
    requires Shape(f) && mem.Keys == f.par.Keys && RefsOk(f) && RefLinks(mem, f) && h in f.hnd
    ensures var x := f.hnd[h]; x in f.refs && i < |f.refs[x]| && f.refs[x][i] == h
    ensures Droppable(mem, f.hnd[h], h) && RefLinkedAt(mem, f.hnd[h], f.refs[f.hnd[h]], i)
  {
    var x := f.hnd[h];
    i := HandleAt(f, h);
    var s := f.refs[x];
    hide Shape, RefsOk;
    assert RefLinked(mem, x, s) && mem[x].refs == Head(s);
    hide RefLinks;
    assert s[i] in mem;
    assert i > 0 ==> s[i - 1] in s && s[i - 1] in mem;
    assert i + 1 < |s| ==> s[i + 1] in s && s[i + 1] in mem;
    assert s[0] in s;
  }

  lemma HandleAt(f: Forest, h: Ptr) returns (i: nat)
    requires Shape(f) && RefsOk(f) && h in f.hnd
    ensures var x := f.hnd[h];
      && x in f.refs && x in f.par && h in f.par && x != h && Distinct(f.refs[x]) && NULL !in f.refs[x] && h != NULL
      && i < |f.refs[x]| && f.refs[x][i] == h
  {
    var s := f.refs[f.hnd[h]];
    i :| 0 <= i < |s| && s[i] == h;
    assert f.refs[h] == [];
  }

  lemma DroppedList(mem: Memory, x: Ptr, s: seq<Ptr>, i: nat, m: Memory)
    requires Distinct(s) && i < |s| && RefLinked(mem, x, s) && Droppable(mem, x, s[i]) && NULL !in s
    requires m == DroppedMemory(mem, x, s[i])
    ensures RefLinked(m, x, s[..i] + s[i + 1..])
  {
    hide DroppedMemory;
    var t := s[..i] + s[i + 1..];
    assert s[i] in mem;
    forall j | 0 <= j < |t|
      ensures RefLinkedAt(m, x, t, j)
    {
      var k := if j < i then j else j + 1;
      assert t[j] == s[k] && s[k] in mem;
      DroppedField(mem, x, s[i], s[k]);
    }
    assert RefLinked(m, x, t);
  }

  lemma DroppedElsewhere(mem: Memory, x: Ptr, h: Ptr, y: Ptr, s: seq<Ptr>, m: Memory)
    requires RefLinked(mem, y, s) && Droppable(mem, x, h) && m == DroppedMemory(mem, x, h)
    requires h !in s && mem[h].refNext !in s && mem[h].refPrev !in s
    ensures RefLinked(m, y, s)
  {
    hide DroppedMemory;
    forall j | 0 <= j < |s|
      ensures RefLinkedAt(m, y, s, j)
    {
      assert s[j] in mem;
      DroppedField(mem, x, h, s[j]);
    }
  }

  /** The memory after `h` lost its destructor and its place on the list of its referent. */
  function ReleasedMemory(mem: Memory, x: Ptr, h: Ptr): Memory
    requires Droppable(mem, x, h)
  {
    var m := DroppedMemory(mem, x, h);
    DroppedField(mem, x, h, h);
    m[h := m[h].(destructor := NoDestructor)]
  }

  lemma ReleasedField(mem: Memory, x: Ptr, h: Ptr, y: Ptr)
    requires Droppable(mem, x, h) && y in mem
    ensures var m := ReleasedMemory(mem, x, h);
      && m.Keys == mem.Keys && SameKidFields(m[y], mem[y])
      && m[y].referent == mem[y].referent
      && m[y].destructor == (if y == h then NoDestructor else mem[y].destructor)
      && m[y].refs == (if y == x && mem[h].refPrev == NULL then mem[h].refNext else mem[y].refs)
  {
    hide DroppedMemory;
    DroppedField(mem, x, h, h);
    DroppedField(mem, x, h, y);
  }

  lemma DropRefLists(mem: Memory, f: Forest, h: Ptr, i: nat)
    requires Ok(f) && mem.Keys == f.par.Keys && RefLinks(mem, f) && h in f.hnd
    requires f.hnd[h] in f.refs && i < |f.refs[f.hnd[h]]| && f.refs[f.hnd[h]][i] == h
    requires Droppable(mem, f.hnd[h], h) && RefLinkedAt(mem, f.hnd[h], f.refs[f.hnd[h]], i)
    ensures forall y {:trigger DropRef(f, h).refs[y]} :: y in f.refs ==>
      RefLinked(ReleasedMemory(mem, f.hnd[h], h), y, DropRef(f, h).refs[y])
  {
    hide WellFounded, KidsOk, DroppedMemory, RefLinked;
    var x, g := f.hnd[h], DropRef(f, h);
    var s, m1, m := f.refs[x], DroppedMemory(mem, x, h), ReleasedMemory(mem, x, h);
    WithoutAt(s, i);
    DroppedField(mem, x, h, h);
    DroppedList(mem, x, s, i, m1);
    assert i > 0 ==> s[i - 1] in s;
    assert i + 1 < |s| ==> s[i + 1] in s;
    assert h in s;
    forall y | y in g.refs
      ensures RefLinked(m, y, g.refs[y])
    {
      if y != x {
        DroppedElsewhere(mem, x, h, y, f.refs[y], m1);
      }
      RefFrame(m1, m, y, g.refs[y]);
    }
  }

  lemma DropRefHeads(mem: Memory, f: Forest, h: Ptr, i: nat)
    requires Ok(f) && mem.Keys == f.par.Keys && RefLinks(mem, f) && h in f.hnd
    requires f.hnd[h] in f.refs && i < |f.refs[f.hnd[h]]| && f.refs[f.hnd[h]][i] == h
    requires Droppable(mem, f.hnd[h], h) && RefLinkedAt(mem, f.hnd[h], f.refs[f.hnd[h]], i)
    ensures var m, g := ReleasedMemory(mem, f.hnd[h], h), DropRef(f, h);
      && m.Keys == mem.Keys
      && (forall y {:trigger m[y]} :: y in m ==>
        && SameKidFields(m[y], mem[y]) && m[y].refs == Head(g.refs[y])
        && (m[y].destructor == ReferenceDestructor <==> y in g.hnd)
        && (m[y].destructor == UserDestructor(true) <==> y in g.stubborn))
  {
    hide WellFounded, KidsOk, ReleasedMemory, RefLinked, Droppable;
    var x, g := f.hnd[h], DropRef(f, h);
    WithoutAt(f.refs[x], i);
    assert i > 0 ==> f.refs[x][i - 1] in f.refs[x];
    ReleasedField(mem, x, h, h);
    var m := ReleasedMemory(mem, x, h);
    forall y {:trigger m[y]} | y in m
      ensures
        && SameKidFields(m[y], mem[y]) && m[y].refs == Head(g.refs[y])
        && (m[y].destructor == ReferenceDestructor <==> y in g.hnd)
        && (m[y].destructor == UserDestructor(true) <==> y in g.stubborn)
    {
      ReleasedField(mem, x, h, y);
    }
  }

  lemma DropRefLinks(mem: Memory, f: Forest, h: Ptr)
    requires Ok(f) && mem.Keys == f.par.Keys && RefLinks(mem, f) && h in f.hnd
    ensures Droppable(mem, f.hnd[h], h)
    ensures Shape(DropRef(f, h))
    ensures var m := ReleasedMemory(mem, f.hnd[h], h);
      && m.Keys == mem.Keys && RefLinks(m, DropRef(f, h))
      && (forall y {:trigger m[y]} :: y in m ==> SameKidFields(m[y], mem[y]))
  {
    hide WellFounded, KidsOk, ReleasedMemory, RefLinked, Droppable;
    var i := HandleIndex(mem, f, h);
    DropRefLists(mem, f, h, i);
    DropRefHeads(mem, f, h, i);
    DropRefKeys(f, h);
    hide RefsOk, Shape, DropRef, SameKidFields;
  }

  lemma DropRefKeys(f: Forest, h: Ptr)
    requires Ok(f) && h in f.hnd
    ensures Shape(DropRef(f, h)) && f.refs.Keys == f.par.Keys
    ensures DropRef(f, h).refs.Keys == DropRef(f, h).par.Keys == f.par.Keys
  {
    hide WellFounded, KidsOk;
  }
}
