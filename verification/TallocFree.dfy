/** The recursive free, as a function on forests that follows the allocator's code. */
module TallocFree {
  import opened Sequences
  import opened TallocTrees
  import opened TallocForest

  /** `g` is what freeing things inside the subtree of `c` can leave of `f`: outside the subtree
      only handles disappear, and nothing moves. */
  ghost predicate Shrunk(f: Forest, c: Ptr, g: Forest) {
    && Ok(g) && SingleRefs(g)
    && g.par.Keys <= f.par.Keys
    && g.hnd.Keys <= f.hnd.Keys && (forall h {:trigger g.hnd[h]} :: h in g.hnd ==> g.hnd[h] == f.hnd[h])
    && g.busy == f.busy && g.stubborn == f.stubborn
    && (forall x {:trigger x in g.par} :: x in f.par && x !in Desc(f.par, c) && x !in f.hnd ==> x in g.par)
    && (forall x {:trigger g.par[x]} :: x in g.par && x !in Desc(f.par, c) ==> g.par[x] == f.par[x])
  }

  ghost predicate Freeable(f: Forest, c: Ptr) {
    && Ok(f) && SingleRefs(f) && c in f.par
    && (forall x :: x in f.busy ==> x !in Desc(f.par, c))
  }

  /** `c` may have its children freed: below it nothing else is being freed. */
  ghost predicate Emptiable(f: Forest, c: Ptr) {
    && Ok(f) && SingleRefs(f) && c in f.par && c !in f.hnd
    && (forall x :: x in f.busy && x in Desc(f.par, c) ==> x == c)
  }

  /** What one call that frees `c` does: result 0 means that it is gone; -1 that it was refused by
      its destructor (and nothing happened) or that it lost its reference instead. */
  ghost predicate FreePost(f: Forest, c: Ptr, g: Forest, rc: int)
    requires Ok(f) && c in f.par
  {
    && Shrunk(f, c, g)
    && (rc == 0 || rc == -1)
    && (rc == 0 ==> c !in g.par)
    && (rc == -1 ==> c in g.par && c !in f.hnd)
    && (rc == -1 && f.refs[c] == [] ==> g == f && c in f.stubborn)
    && (rc == -1 && f.refs[c] != [] ==>
          var h := f.refs[c][0];
          h in f.hnd && h !in Desc(f.par, c) && f.par[h] in f.par && f.hnd[h] in f.par && g == Release(f, h))
  }

  lemma OnlyHandle(f: Forest, c: Ptr)
    requires Freeable(f, c) && f.refs[c] != []
    ensures var h := f.refs[c][0];
      f.refs[c] == [h] && h in f.hnd && f.hnd[h] == c && h != c && c !in f.hnd && f.par[h] in f.par && h !in f.busy
  {
    hide WellFounded, KidsOk, Desc;
    assert f.refs[c][0] in f.refs[c];
  }

  lemma ReleasedHandle(f: Forest, h: Ptr)
    requires Ok(f) && SingleRefs(f) && h in f.hnd
    ensures h in f.par && f.par[h] in f.par && f.hnd[h] in f.par
    ensures var g := Release(f, h);
      && Ok(g) && SingleRefs(g) && g.par == f.par - {h} && g.busy == f.busy && g.stubborn == f.stubborn &&
        g.hnd == f.hnd - {h}
      && g.par.Keys < f.par.Keys && g.refs.Keys == g.par.Keys
      && (f.refs[f.hnd[h]] == [h] && f.hnd[h] != h ==> g.refs[f.hnd[h]] == [])
  {
    ReleaseOk(f, h);
  }

  lemma FreeHandleCase(f: Forest, c: Ptr)
    requires Freeable(f, c) && f.refs[c] != []
    ensures var h := f.refs[c][0];
      h in f.hnd && f.hnd[h] == c && h != c && c !in f.hnd && f.par[h] in f.par && h !in f.busy
    ensures var g := Release(f, f.refs[c][0]);
      && Shrunk(f, c, g)
      && Freeable(g, c) && |g.par| < |f.par| && g.refs[c] == []
      && Desc(g.par, c) <= Desc(f.par, c)
  {
    hide Release, WellFounded, KidsOk, RefsOk, SingleRefs, Desc;
    var h := f.refs[c][0];
    OnlyHandle(f, c);
    ReleasedHandle(f, h);
    var g := Release(f, h);
    SubsetSmaller(g.par.Keys, f.par.Keys);
    DescClosed(f.par, c);
    DescShrinks(f.par, g.par, c);
  }

  /** Where a child goes that could not be freed: to the owner of the reference it had, else to the
      parent of the chunk it was a child of. */
  ghost function NewParent(f: Forest, k: Ptr): Ptr
    requires Ok(f) && k in f.par && f.par[k] in f.par
  {
    if f.refs[k] != [] then
      assert f.refs[k][0] in f.refs[k];
      f.par[f.refs[k][0]]
    else f.par[f.par[k]]
  }

  lemma FirstKid(f: Forest, c: Ptr)
    requires Emptiable(f, c) && f.kids[c] != []
    ensures var k := f.kids[c][0];
      && Freeable(f, k) && f.par[k] == c && k != c && Desc(f.par, k) < Desc(f.par, c)
      && c !in Desc(f.par, k) && f.par[c] !in Desc(f.par, k)
  {
    var k := f.kids[c][0];
    assert k in f.kids[c];
    assert f.par[k] == c;
    DescClosed(f.par, c);
    DescClosed(f.par, k);
    ParentNotBeneath(f.par, k);
    DescTransitive(f.par, k, c);
    assert c !in Desc(f.par, k);

    assert f.par[c] in Desc(f.par, k) ==> c in Desc(f.par, k);
  }

  /** After a child was freed, or refused and was moved away, its parent may be emptied further. */
  lemma KidFreed(f: Forest, c: Ptr, g: Forest)
    requires Emptiable(f, c) && f.kids[c] != [] && f.kids[c][0] in f.par
    requires FreePost(f, f.kids[c][0], g, 0)
    ensures Emptiable(g, c) && Shrunk(f, c, g) && g.par[c] == f.par[c]
    ensures |g.par| < |f.par| && Desc(g.par, c) <= Desc(f.par, c)
  {
    hide KidsOk, RefsOk, WellFounded;
    var k := f.kids[c][0];
    FirstKid(f, c);
    assert g.par.Keys < f.par.Keys;
    SubsetSmaller(g.par.Keys, f.par.Keys);
    DescShrinks(f.par, g.par, c);
  }

  lemma KidRefused(f: Forest, c: Ptr, g: Forest)
    requires Emptiable(f, c) && f.kids[c] != [] && f.kids[c][0] in f.par && f.par[f.kids[c][0]] == c
    requires FreePost(f, f.kids[c][0], g, -1)
    ensures var k, p := f.kids[c][0], NewParent(f, f.kids[c][0]);
      && Shape(g) && k in g.par && k !in g.busy && k !in g.hnd
      && (p == NULL || (p in g.par && p !in g.hnd && p !in Desc(g.par, k) && p != k))
      && Ok(Steal(g, k, p)) && SingleRefs(Steal(g, k, p))
      && Steal(g, k, p).par == g.par[k := p] && g.par[c] == f.par[c]
  {
    hide KidsOk, WellFounded;
    var k, p := f.kids[c][0], NewParent(f, f.kids[c][0]);
    FirstKid(f, c);
    if f.refs[k] != [] {
      var h := f.refs[k][0];
      assert h in f.refs[k];
      DescClosed(f.par, k);
      DescShrinks(f.par, g.par, k);
    }
    DescClosed(g.par, k);
    StealOk(g, k, p);
    StealPar(g, k, p);
  }

  lemma ShrunkWiden(f: Forest, k: Ptr, c: Ptr, g: Forest)
    requires Shrunk(f, k, g) && Desc(f.par, k) <= Desc(f.par, c)
    ensures Shrunk(f, c, g)
  {
    hide Ok, SingleRefs, Desc;
  }

  lemma ShrunkMove(f: Forest, c: Ptr, g: Forest, k: Ptr, p: Ptr, g2: Forest)
    requires Shrunk(f, c, g) && k in Desc(f.par, c) && k in g.par && (p == NULL || (p in g.par && p != k))
    requires g2 == Steal(g, k, p) && Ok(g2) && SingleRefs(g2)
    ensures Shrunk(f, c, g2)
  {
    hide KidsOk, RefsOk, WellFounded, SingleRefs, Desc;
    StealPar(g, k, p);
  }

  lemma KidMoved(f: Forest, c: Ptr, g: Forest, k: Ptr, p: Ptr, g2: Forest)
    requires Emptiable(f, c) && f.kids[c] != [] && k == f.kids[c][0] && k in f.par && f.par[k] == c
    requires FreePost(f, k, g, -1) && k in g.par
    requires p == NewParent(f, k) && (p == NULL || (p in g.par && p != k))
    requires g2 == Steal(g, k, p) && Ok(g2) && SingleRefs(g2) && g2.par == g.par[k := p]
    ensures Emptiable(g2, c) && Shrunk(f, c, g2) && g2.par[c] == f.par[c]
    ensures Desc(g2.par, c) <= Desc(f.par, c)
    ensures |g2.par| < |f.par| || (|g2.par| == |f.par| && Desc(g2.par, c) < Desc(f.par, c))
  {
    hide KidsOk, RefsOk, WellFounded, SingleRefs, Desc;
    FirstKid(f, c);
    ShrunkWiden(f, k, c, g);
    DescClosed(f.par, k);
    ShrunkMove(f, c, g, k, p, g2);
    DescShrinks(f.par, g2.par, c);
    if f.refs[k] == [] {
      SameSize(g2.par, f.par);
      ParentNotBeneath(f.par, c);
      if k in Desc(g2.par, c) {
        DescParent(g2.par, c, k);
      }
    } else {
      assert f.refs[k][0] !in g.par;
      assert g2.par.Keys < f.par.Keys;
      SubsetSmaller(g2.par.Keys, f.par.Keys);
    }
  }

  lemma SameSize(m: ParentMap, n: ParentMap)
    requires m.Keys == n.Keys
    ensures |m| == |n|
  {
    assert |m| == |m.Keys| && |n| == |n.Keys|;
  }

  lemma SubsetSmaller(s: set<Ptr>, t: set<Ptr>)
    requires s < t
    ensures |s| < |t|
  {
    var x :| x in t && x !in s;
    assert t == (t - s) + s;
  }

  /** The state in which `c`, not referenced and not refusing, has its children freed. */
  ghost function Unlinked(f: Forest, c: Ptr): Forest
    requires Freeable(f, c)
  {
    Detach(if c in f.hnd then DropRef(f, c) else f, c)
  }

  lemma UnlinkedOk(f: Forest, c: Ptr)
    requires Freeable(f, c) && f.refs[c] == []
    ensures var g := Unlinked(f, c);
      && Emptiable(g, c) && g.par == f.par && g.busy == f.busy + {c} && g.stubborn == f.stubborn
      && g.hnd == f.hnd - {c}
  {
    hide WellFounded, KidsOk, Desc;
    DescClosed(f.par, c);
    assert c !in f.busy;
    var f1 := if c in f.hnd then DropRef(f, c) else f;
    if c in f.hnd {
      DropRefOk(f, c);
      assert f.hnd[c] != c;
    }
    UnlinkedDetach(f1, c);
  }

  lemma UnlinkedDetach(f: Forest, c: Ptr)
    requires Freeable(f, c) && f.refs[c] == [] && c !in f.hnd && c !in f.busy
    ensures Emptiable(Detach(f, c), c)
  {
    hide WellFounded, KidsOk, Desc;
    DetachOk(f, c);
  }

  lemma ShrunkTransitive(f: Forest, c: Ptr, g: Forest, r: Forest)
    requires Shrunk(f, c, g) && Desc(g.par, c) <= Desc(f.par, c) && Shrunk(g, c, r)
    ensures Shrunk(f, c, r)
  {
    hide Ok, SingleRefs, Desc;
  }

  lemma FreedTwice(f: Forest, c: Ptr, g: Forest, r: Forest, rc: int)
    requires Freeable(f, c) && f.refs[c] != [] && Shrunk(f, c, g) && Freeable(g, c) && g.refs[c] == []
    requires Desc(g.par, c) <= Desc(f.par, c) && FreePost(g, c, r, rc)
    ensures FreePost(f, c, r, rc) && rc == 0
  {
    hide WellFounded, KidsOk, RefsOk, Desc;
    ShrunkTransitive(f, c, g, r);
  }

  lemma EmptiedDelete(f: Forest, c: Ptr, g: Forest)
    requires Freeable(f, c) && f.refs[c] == [] && Shrunk(Unlinked(f, c), c, g) && c in g.par && g.kids[c] == []
    ensures FreePost(f, c, Delete(g, c), 0)
  {
    hide WellFounded, KidsOk, RefsOk, SingleRefs, Desc;
    UnlinkedOk(f, c);
    DescShrinks(f.par, g.par, c);
    NothingLeft(g, c);
    DeleteOk(g, c);
    DescClosed(f.par, c);
    DeleteShrunk(f, Unlinked(f, c), c, g);
  }

  lemma DeleteShrunk(f: Forest, f1: Forest, c: Ptr, g: Forest)
    requires Shrunk(f1, c, g) && f1.par == f.par && f1.busy == f.busy + {c} && c !in f.busy
    requires f1.stubborn == f.stubborn && f1.hnd == f.hnd - {c} && c in Desc(f.par, c)
    requires Ok(Delete(g, c)) && SingleRefs(Delete(g, c))
    ensures Shrunk(f, c, Delete(g, c))
  {
    hide Ok, SingleRefs, Desc;
  }

  lemma NothingLeft(g: Forest, c: Ptr)
    requires Emptiable(g, c) && g.kids[c] == []
    ensures forall x {:trigger g.par[x]} :: x in g.par ==> g.par[x] != c
  {
    DescClosed(g.par, c);
    forall x | x in g.par
      ensures g.par[x] != c
    {
      if g.par[x] == c {
        assert x in Desc(g.par, c);
        ParentNotBeneath(g.par, x);
      }
    }
  }

  /** `_talloc_free`: a referenced chunk loses its (first) reference and is freed only if that
      reference hung beneath it; a refused chunk stays; any other is unlinked, emptied, released. */
  ghost function Free(f: Forest, c: Ptr): (r: (Forest, int))
    requires Freeable(f, c)
    ensures FreePost(f, c, r.0, r.1)
    decreases |f.par|, |Desc(f.par, c)|, 1
  {
    if f.refs[c] != [] then
      FreeHandleCase(f, c);
      var g := Release(f, f.refs[c][0]);
      if f.refs[c][0] in Desc(f.par, c) then
        var r := Free(g, c);
        FreedTwice(f, c, g, r.0, r.1);
        r
      else (g, -1)
    else if c in f.stubborn then
      (f, -1)
    else
      UnlinkedOk(f, c);
      var g := FreeKids(Unlinked(f, c), c);
      EmptiedDelete(f, c, g);
      (Delete(g, c), 0)
  }

  /** The state after an attempt to free the first child of `c`. */
  ghost function AfterKid(f: Forest, c: Ptr, g: Forest, rc: int): Forest
    requires Emptiable(f, c) && f.kids[c] != [] && f.kids[c][0] in f.par && f.par[f.kids[c][0]] == c
    requires FreePost(f, f.kids[c][0], g, rc)
  {
    if rc == 0 then g
    else
      KidRefused(f, c, g);
      Steal(g, f.kids[c][0], NewParent(f, f.kids[c][0]))
  }

  lemma KidStep(f: Forest, c: Ptr, g: Forest, rc: int)
    requires Emptiable(f, c) && f.kids[c] != [] && f.kids[c][0] in f.par && f.par[f.kids[c][0]] == c
    requires FreePost(f, f.kids[c][0], g, rc)
    ensures var g2 := AfterKid(f, c, g, rc);
      && Emptiable(g2, c) && Shrunk(f, c, g2) && g2.par[c] == f.par[c]
      && Desc(g2.par, c) <= Desc(f.par, c)
      && (|g2.par| < |f.par| || (|g2.par| == |f.par| && |Desc(g2.par, c)| < |Desc(f.par, c)|))
  {
    hide WellFounded, KidsOk, RefsOk, Desc, SingleRefs, Shrunk;
    var k := f.kids[c][0];
    if rc == 0 {
      KidFreed(f, c, g);
    } else {
      KidRefused(f, c, g);
      var p := NewParent(f, k);
      var g2 := Steal(g, k, p);
      KidMoved(f, c, g, k, p, g2);
      if Desc(g2.par, c) < Desc(f.par, c) {
        SubsetSmaller(Desc(g2.par, c), Desc(f.par, c));
      }
    }
  }

  /** The loop that frees children from the front of the list until none is left. */
  ghost function FreeKids(f: Forest, c: Ptr): (g: Forest)
    requires Emptiable(f, c)
    ensures Shrunk(f, c, g) && c in g.par && g.par[c] == f.par[c] && g.kids[c] == []
    decreases |f.par|, |Desc(f.par, c)|, 0
  {
    hide *;
    if f.kids[c] == [] then f
    else
      FirstKid(f, c);
      var k := f.kids[c][0];
      SubsetSmaller(Desc(f.par, k), Desc(f.par, c));
      var (g, rc) := Free(f, k);
      KidStep(f, c, g, rc);
      var g2 := AfterKid(f, c, g, rc);
      var r := FreeKids(g2, c);
      ShrunkTransitive(f, c, g2, r);
      r
  }
}
