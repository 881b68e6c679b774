/** The abstract state of the allocator and the primitive steps its operations are made of. */
module TallocForest {
  import opened Sequences
  import opened TallocTrees

  /** `kids` lists the children of every live chunk in order, `refs` its reference handles in
      order; `hnd` sends a handle (itself a chunk) to the chunk it refers to. A chunk in `busy`
      is being freed: it keeps its parent but is on no child list any more. The destructor of a
      chunk in `stubborn` refuses. */
  datatype Forest = Forest(
    par: ParentMap,
    kids: map<Ptr, seq<Ptr>>,
    refs: map<Ptr, seq<Ptr>>,
    hnd: map<Ptr, Ptr>,
    busy: set<Ptr>,
    stubborn: set<Ptr>)

  ghost predicate Shape(f: Forest) {
    && NULL !in f.par
    && f.kids.Keys == f.par.Keys
    && f.refs.Keys == f.par.Keys
    && f.hnd.Keys <= f.par.Keys
    && f.busy <= f.par.Keys
    && (forall x {:trigger f.par[x]} :: x in f.par ==> f.par[x] == NULL || f.par[x] in f.par)
  }

  ghost predicate KidsOk(f: Forest)
    requires Shape(f)
  {
    && (forall p, x {:trigger x in f.kids[p]} ::
          p in f.kids && x in f.kids[p] ==> x in f.par && f.par[x] == p && x !in f.busy)
    && (forall p {:trigger f.kids[p]} :: p in f.kids ==> Distinct(f.kids[p]))
    && (forall x {:trigger f.par[x]} ::
          x in f.par && x !in f.busy && f.par[x] != NULL ==> x in f.kids[f.par[x]])
  }

  ghost predicate RefsOk(f: Forest)
    requires Shape(f)
  {
    && (forall x, h {:trigger h in f.refs[x]} ::
          x in f.refs && h in f.refs[x] ==> h in f.hnd && f.hnd[h] == x)
    && (forall x {:trigger f.refs[x]} :: x in f.refs ==> Distinct(f.refs[x]))
    && (forall h {:trigger f.hnd[h]} :: h in f.hnd ==> f.hnd[h] in f.par && h in f.refs[f.hnd[h]])
    && (forall h {:trigger f.hnd[h]} :: h in f.hnd ==>
          f.par[h] != NULL && f.kids[h] == [] && f.refs[h] == [] && h !in f.busy && h !in f.stubborn)
    && (forall x {:trigger f.par[x]} :: x in f.par ==> f.par[x] !in f.hnd)
    && (forall x {:trigger x in f.busy} :: x in f.busy ==> f.refs[x] == [])
  }

  ghost predicate Ok(f: Forest) {
    Shape(f) && KidsOk(f) && RefsOk(f) && WellFounded(f.par)
  }

  /** What a recursive free needs of references: at most one per chunk, and none to a chunk whose
      destructor refuses. */
  ghost predicate SingleRefs(f: Forest)
    requires Shape(f)
  {
    forall x :: x in f.refs ==> |f.refs[x]| <= 1 && (f.refs[x] != [] ==> x !in f.stubborn)
  }

  /** Takes `c` off its parent's child list and marks it as being freed. */
  ghost function Detach(f: Forest, c: Ptr): Forest
    requires Shape(f) && c in f.par
  {
    f.(kids := if f.par[c] == NULL then f.kids else f.kids[f.par[c] := Without(f.kids[f.par[c]], c)],
       busy := f.busy + {c})
  }

  lemma DetachOk(f: Forest, c: Ptr)
    requires Ok(f) && c in f.par && c !in f.busy && f.refs[c] == [] && c !in f.hnd
    ensures Ok(Detach(f, c))
  {
    DetachRefsOk(f, c);
    hide RefsOk, WellFounded, Without, Distinct;
    if f.par[c] != NULL {
      WithoutMember(f.kids[f.par[c]], c);
    }
  }

  lemma DetachRefsOk(f: Forest, c: Ptr)
    requires Shape(f) && RefsOk(f) && c in f.par && f.refs[c] == [] && c !in f.hnd
    ensures Shape(Detach(f, c)) && RefsOk(Detach(f, c))
  {
    assert Without([], c) == [];
    hide Without, Distinct;
    var g := Detach(f, c);
    forall h {:trigger g.hnd[h]} | h in g.hnd
      ensures g.kids[h] == [] && h !in g.busy
    {
      assert f.kids[h] == [] && h != c;
    }
  }

  /** Takes handle `h` off the list of its referent (the effect of its destructor). */
  ghost function DropRef(f: Forest, h: Ptr): Forest
    requires Shape(f) && h in f.hnd && f.hnd[h] in f.par
  {
    f.(refs := f.refs[f.hnd[h] := Without(f.refs[f.hnd[h]], h)], hnd := f.hnd - {h})
  }

  lemma DropRefOk(f: Forest, h: Ptr)
    requires Ok(f) && h in f.hnd
    ensures Ok(DropRef(f, h))
    ensures SingleRefs(f) ==> SingleRefs(DropRef(f, h))
  {
    WithoutMember(f.refs[f.hnd[h]], h);
    DropRefRefsOk(f, h);
  }

  lemma DropRefRefsOk(f: Forest, h: Ptr)
    requires Shape(f) && RefsOk(f) && h in f.hnd
    ensures Shape(DropRef(f, h)) && RefsOk(DropRef(f, h))
  {
    WithoutMember(f.refs[f.hnd[h]], h);
    hide Without, Distinct;
    var g := DropRef(f, h);
    forall x, k {:trigger k in g.refs[x]} | x in g.refs && k in g.refs[x]
      ensures k in g.hnd && g.hnd[k] == x
    {
      assert k in f.refs[x] && k != h;
    }
    forall k {:trigger g.hnd[k]} | k in g.hnd
      ensures k in g.refs[g.hnd[k]] && g.refs[k] == []
    {
      assert k in f.refs[f.hnd[k]] && f.refs[k] == [] && k != f.hnd[h];
    }
  }

  /** Releases a detached chunk. */
  ghost function Delete(f: Forest, c: Ptr): Forest {
    Forest(f.par - {c}, f.kids - {c}, f.refs - {c}, f.hnd, f.busy - {c}, f.stubborn)
  }

  lemma DeleteOk(f: Forest, c: Ptr)
    requires Ok(f) && c in f.busy && f.kids[c] == []
    requires forall x :: x in f.par ==> f.par[x] != c
    ensures Ok(Delete(f, c))
    ensures SingleRefs(f) ==> SingleRefs(Delete(f, c))
  {
    RestrictWellFounded(f.par, f.par - {c});
  }

  /** `f` without handle `h`. */
  ghost function Release(f: Forest, h: Ptr): Forest
    requires Shape(f) && h in f.hnd && f.par[h] in f.par && f.hnd[h] in f.par
  {
    var p, x := f.par[h], f.hnd[h];
    Forest(f.par - {h}, (f.kids - {h})[p := Without(f.kids[p], h)],
           (f.refs - {h})[x := Without(f.refs[x], h)], f.hnd - {h}, f.busy, f.stubborn)
  }

  /** Running the handle's destructor, unlinking it and giving its memory back has that effect. */
  lemma ReleaseInSteps(f: Forest, h: Ptr)
    requires Ok(f) && h in f.hnd && Ok(DropRef(f, h))
    ensures f.par[h] in f.par && f.hnd[h] in f.par
    ensures Release(f, h) == Delete(Detach(DropRef(f, h), h), h)
  {
    HandleElsewhere(f, h);
    var p, x := f.par[h], f.hnd[h];
    hide Ok, Without;
    RemoveAndChange(f.kids, h, p, Without(f.kids[p], h));
    RemoveAndChange(f.refs, h, x, Without(f.refs[x], h));
  }

  lemma RemoveAndChange(m: map<Ptr, seq<Ptr>>, h: Ptr, p: Ptr, s: seq<Ptr>)
    requires p != h
    ensures (m - {h})[p := s] == m[p := s] - {h}
  {
  }

  lemma HandleElsewhere(f: Forest, h: Ptr)
    requires Ok(f) && h in f.hnd
    ensures h in f.par && f.par[h] in f.par && f.hnd[h] in f.par && f.par[h] != h && f.hnd[h] != h && h !in f.busy
  {
    assert h in f.refs[f.hnd[h]];
    assert h in f.kids[f.par[h]];
  }

  lemma ReleaseOk(f: Forest, h: Ptr)
    requires Ok(f) && h in f.hnd
    ensures f.par[h] in f.par && f.hnd[h] in f.par && Ok(Release(f, h))
  {
    var f1 := DropRef(f, h);
    DropRefOk(f, h);
    assert f1.refs[h] == [] && f1.kids[h] == [];
    DetachOk(f1, h);
    ReleaseInSteps(f, h);
    ReleaseDelete(f, h, Detach(f1, h));
  }

  lemma ReleaseDelete(f: Forest, h: Ptr, f2: Forest)
    requires Ok(f) && h in f.hnd && Ok(f2) && h in f2.busy && f2.par == f.par
    requires f2.kids[h] == []
    ensures Ok(Delete(f2, h))
  {
    DeleteOk(f2, h);
  }

  /** `c` leaves its parent and becomes a root. */
  ghost function MakeRoot(f: Forest, c: Ptr): Forest
    requires Shape(f) && c in f.par
  {
    f.(par := f.par[c := NULL],
       kids := if f.par[c] == NULL then f.kids else f.kids[f.par[c] := Without(f.kids[f.par[c]], c)])
  }

  /** Root `c` becomes the first child of `p`. */
  ghost function PushKid(f: Forest, c: Ptr, p: Ptr): Forest
    requires Shape(f) && c in f.par && p in f.par
  {
    f.(par := f.par[c := p], kids := f.kids[p := [c] + f.kids[p]])
  }

  /** `talloc_steal`: `c` becomes the first child of `p`, or a root if `p` is null; a chunk that is
      `p` itself or already its first child stays where it is. */
  ghost function Steal(f: Forest, c: Ptr, p: Ptr): Forest
    requires Shape(f) && c in f.par && (p == NULL || p in f.par)
  {
    if p == NULL then MakeRoot(f, c)
    else if p == c || (f.par[c] == p && f.kids[p] != [] && f.kids[p][0] == c) then f
    else PushKid(MakeRoot(f, c), c, p)
  }

  lemma MakeRootKidsOk(f: Forest, c: Ptr)
    requires Shape(f) && KidsOk(f) && c in f.par && c !in f.busy
    ensures Shape(MakeRoot(f, c)) && KidsOk(MakeRoot(f, c))
  {
    if f.par[c] != NULL {
      WithoutMember(f.kids[f.par[c]], c);
    }
  }

  lemma MakeRootOk(f: Forest, c: Ptr)
    requires Ok(f) && c in f.par && c !in f.busy && c !in f.hnd
    ensures Ok(MakeRoot(f, c))
  {
    MakeRootKidsOk(f, c);
    ReparentWellFounded(f.par, c, NULL);
    hide KidsOk, WellFounded;
    MakeRootRefsOk(f, c);
  }

  lemma MakeRootRefsOk(f: Forest, c: Ptr)
    requires Shape(f) && RefsOk(f) && c in f.par && c !in f.hnd
    ensures Shape(MakeRoot(f, c)) && RefsOk(MakeRoot(f, c))
  {
    var g := MakeRoot(f, c);
    forall h {:trigger f.hnd[h]} | h in f.hnd
      ensures g.kids[h] == [] && g.par[h] != NULL
    {
      assert h in f.refs[f.hnd[h]];
    }
  }

  lemma PushKidOk(f: Forest, c: Ptr, p: Ptr)
    requires Ok(f) && c in f.par && f.par[c] == NULL && c !in f.busy && c !in f.hnd
    requires p in f.par && p !in f.hnd && p !in Desc(f.par, c)
    ensures Ok(PushKid(f, c, p))
  {
    ReparentWellFounded(f.par, c, p);
    PushKidKidsOk(f, c, p);
  }

  lemma PushKidKidsOk(f: Forest, c: Ptr, p: Ptr)
    requires Shape(f) && KidsOk(f) && c in f.par && f.par[c] == NULL && c !in f.busy && p in f.par
    ensures Shape(PushKid(f, c, p)) && KidsOk(PushKid(f, c, p))
  {
    assert c !in f.kids[p];
    FrontDistinct(f.kids[p], c);
    var g := PushKid(f, c, p);
    forall q, x {:trigger x in g.kids[q]} | q in g.kids && x in g.kids[q]
      ensures x in g.par && g.par[x] == q && x !in g.busy
    {
      assert x in f.kids[q] || (q == p && x == c);
    }
    hide Distinct;
  }

  lemma FrontDistinct(s: seq<Ptr>, c: Ptr)
    requires Distinct(s) && c !in s
    ensures Distinct([c] + s)
  {
  }

  lemma StealPar(f: Forest, c: Ptr, p: Ptr)
    requires Shape(f) && c in f.par && (p == NULL || (p in f.par && p != c))
    ensures Steal(f, c, p).par == f.par[c := p]
    ensures Steal(f, c, p).refs == f.refs && Steal(f, c, p).hnd == f.hnd
    ensures Steal(f, c, p).busy == f.busy && Steal(f, c, p).stubborn == f.stubborn
  {
    assert f.par[c := NULL][c := p] == f.par[c := p];
  }

  lemma StealKids(f: Forest, c: Ptr, p: Ptr)
    requires Shape(f) && c in f.par && (p == NULL || (p in f.par && p != c)) && p != f.par[c]
    ensures Steal(f, c, p).kids.Keys == f.kids.Keys
    ensures p != NULL ==> Steal(f, c, p).kids[p] == [c] + f.kids[p]
    ensures forall x :: x in f.kids && x != p && x != f.par[c] ==> Steal(f, c, p).kids[x] == f.kids[x]
    ensures f.par[c] != NULL ==> Steal(f, c, p).kids[f.par[c]] == Without(f.kids[f.par[c]], c)
  {
    assert f.kids.Keys == f.par.Keys && (f.par[c] == NULL || f.par[c] in f.par);
    RootKids(f, c);
    StealLists(f, c, p);
    hide *;
  }

  lemma StealLists(f: Forest, c: Ptr, p: Ptr)
    requires Shape(f) && c in f.par && (p == NULL || (p in f.par && p != c)) && p != f.par[c]
    ensures MakeRoot(f, c).kids.Keys == Steal(f, c, p).kids.Keys == f.kids.Keys
    ensures forall x {:trigger Steal(f, c, p).kids[x]} :: x in f.kids ==>
      Steal(f, c, p).kids[x] == if x == p then [c] + f.kids[x] else MakeRoot(f, c).kids[x]
  {
    hide Without;
  }

  lemma RootKids(f: Forest, c: Ptr)
    requires Shape(f) && c in f.par
    ensures MakeRoot(f, c).kids.Keys == f.kids.Keys
    ensures forall x :: x in f.kids && x != f.par[c] ==> MakeRoot(f, c).kids[x] == f.kids[x]
    ensures f.par[c] != NULL ==> MakeRoot(f, c).kids[f.par[c]] == Without(f.kids[f.par[c]], c)
  {
  }

  lemma StealOk(f: Forest, c: Ptr, p: Ptr)
    requires Ok(f) && c in f.par && c !in f.busy && c !in f.hnd
    requires p == NULL || (p in f.par && p !in f.hnd && p !in Desc(f.par, c))
    ensures Ok(Steal(f, c, p))
  {
    hide KidsOk, RefsOk, WellFounded;
    MakeRootOk(f, c);
    DescClosed(f.par, c);
    if p != NULL {
      var g := MakeRoot(f, c);
      assert DownClosed(g.par, Desc(f.par, c));
      DescLeast(g.par, c, Desc(f.par, c));
      PushKidOk(g, c, p);
    }
  }
}
