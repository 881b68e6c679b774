/** Freeing a subtree that holds referenced chunks. */
module TallocReferences {
  import opened Sequences
  import opened TallocTrees
  import opened TallocForest
  import opened TallocFree

  ghost predicate RefClosed(f: Forest, c: Ptr, s: set<Ptr>) {
    && (forall h {:trigger f.hnd[h]} :: h in f.hnd && f.hnd[h] in Desc(f.par, c) && (h !in Desc(f.par, c) || h in s) ==>
          f.hnd[h] in s)
    && (forall x {:trigger f.par[x]} :: x in f.par && x in Desc(f.par, c) && f.par[x] in s ==> x in s)
  }

  /** The chunks of the subtree of `c` that can be reached from outside it, along the edges from
      a chunk to its children and from a handle to its referent. */
  ghost function Reached(f: Forest, c: Ptr): set<Ptr> {
    set x | x in f.par && x in Desc(f.par, c) &&
      (forall s {:trigger RefClosed(f, c, s)} :: RefClosed(f, c, s) ==> x in s)
  }

  ghost function Kept(f: Forest, c: Ptr): set<Ptr> {
    f.par.Keys - (Desc(f.par, c) - Reached(f, c))
  }

  /** A chunk that must move when `c` goes: it is reached but its parent is not. */
  ghost predicate Mover(f: Forest, c: Ptr, x: Ptr) {
    x in f.par && x in Reached(f, c) && f.par[x] !in Reached(f, c)
  }

  /** The handle that a mover gives up. */
  ghost predicate SpentHandle(f: Forest, c: Ptr, h: Ptr) {
    h in f.hnd && Mover(f, c, f.hnd[h])
  }

  /** The forest intended for the chunks that are kept: each mover goes to the owner of its
      reference, every other chunk stays with its parent. */
  ghost function Adopted(f: Forest, c: Ptr): ParentMap {
    map x | x in Kept(f, c) ::
      if Mover(f, c, x) && x in f.refs && f.refs[x] != [] && f.refs[x][0] in f.par then f.par[f.refs[x][0]]
      else if x in f.par then f.par[x] else NULL
  }

  lemma ReachedClosed(f: Forest, c: Ptr)
    requires Ok(f)
    ensures RefClosed(f, c, Reached(f, c))
  {
    hide KidsOk, RefsOk, WellFounded;
    DescClosed(f.par, c);
    forall h | h in f.hnd && f.hnd[h] in Desc(f.par, c) && (h !in Desc(f.par, c) || h in Reached(f, c))
      ensures f.hnd[h] in Reached(f, c)
    {
      forall s | RefClosed(f, c, s)
        ensures f.hnd[h] in s
      {
      }
    }
    forall x | x in f.par && x in Desc(f.par, c) && f.par[x] in Reached(f, c)
      ensures x in Reached(f, c)
    {
      forall s | RefClosed(f, c, s)
        ensures x in s
      {
      }
    }
  }

  /** What is reached is reached through its parent or through its handle. */
  lemma ReachedFrom(f: Forest, c: Ptr, x: Ptr)
    requires Ok(f) && c in f.par && x in Reached(f, c)
    ensures f.par[x] in Reached(f, c) ||
            exists h :: h in f.hnd && f.hnd[h] == x && h in Kept(f, c)
  {
    if f.par[x] !in Reached(f, c) && !(exists h :: h in f.hnd && f.hnd[h] == x && h in Kept(f, c)) {
      ClosedWithout(f, c, x);
      assert false;
    }
  }

  lemma ClosedWithout(f: Forest, c: Ptr, x: Ptr)
    requires Ok(f) && x in f.par && f.par[x] !in Reached(f, c)
    requires forall h :: h in f.hnd && f.hnd[h] == x ==> h !in Kept(f, c)
    ensures RefClosed(f, c, Reached(f, c) - {x})
  {
    hide KidsOk, RefsOk, WellFounded;
    ReachedClosed(f, c);
  }

  /** The facts about one mover: its handle is its only one, is kept, and has a kept owner. */
  lemma MoverHandle(f: Forest, c: Ptr, x: Ptr)
    requires Ok(f) && SingleRefs(f) && c in f.par && f.refs[c] == [] && Mover(f, c, x)
    ensures |f.refs[x]| == 1
    ensures var h := f.refs[x][0];
      && h in f.hnd && f.hnd[h] == x && h in Kept(f, c) && !Mover(f, c, h) && h != x
      && f.par[h] in Kept(f, c) && f.par[x] in f.par && f.par[x] !in Kept(f, c) && x !in f.hnd
  {
    hide WellFounded, Reached;
    ReachedFrom(f, c, x);
    var h :| h in f.hnd && f.hnd[h] == x && h in Kept(f, c);
    assert h in f.refs[x];
    assert f.refs[x] == [h];
    HandleKept(f, c, h);
    RootUnreached(f, c);
    ReachedBelow(f, c);
    DescParent(f.par, c, x);
  }

  lemma ReachedBelow(f: Forest, c: Ptr)
    ensures Reached(f, c) <= Desc(f.par, c)
  {
  }

  lemma HandleKept(f: Forest, c: Ptr, h: Ptr)
    requires Ok(f) && c in f.par && h in f.hnd && h in Kept(f, c)
    ensures f.par[h] in Kept(f, c) && !Mover(f, c, h)
  {
    DescClosed(f.par, c);
    if h in Reached(f, c) {
      ReachedFrom(f, c, h);
    }
  }

  lemma RootUnreached(f: Forest, c: Ptr)
    requires Ok(f) && c in f.par
    ensures f.refs[c] == [] ==> c !in Kept(f, c)
    ensures f.par[c] !in Desc(f.par, c)
  {
    DescClosed(f.par, c);
    ParentNotBeneath(f.par, c);
    ReachedBelow(f, c);
    if c in Reached(f, c) {
      ReachedFrom(f, c, c);
    }
  }

  ghost predicate Setting(f0: Forest, c: Ptr) {
    Ok(f0) && SingleRefs(f0) && c in f0.par && f0.refs[c] == [] && c !in f0.hnd && f0.stubborn == {}
  }

  /** The state in the middle of freeing `c` in `f0`, as long as nothing reached was lost: every
      mover is still below a chunk that will go, with its handle alive, or is already adopted and
      its handle is spent; all else that is kept has not moved; what will go stays among itself. */
  ghost predicate Split(f0: Forest, c: Ptr, f: Forest)
    requires Setting(f0, c)
  {
    && f.par.Keys <= f0.par.Keys && f.hnd.Keys <= f0.hnd.Keys
    && (forall h {:trigger f.hnd[h]} :: h in f.hnd ==> f.hnd[h] == f0.hnd[h])
    && (forall x {:trigger x in f.par} :: x in Kept(f0, c) ==> x in f.par || SpentHandle(f0, c, x))
    && (forall h {:trigger h in f.hnd} :: h in f0.hnd && h in f.par && h in Kept(f0, c) ==> h in f.hnd)
    && (forall x {:trigger f.par[x]} :: x in f.par && x in Kept(f0, c) ==> Placed(f0, c, f.par, x))
    && (forall x {:trigger f.par[x]} :: x in f.par && x !in Kept(f0, c) ==>
          if x == c then f.par[x] == f0.par[x] else f.par[x] in f0.par && f.par[x] !in Kept(f0, c))
  }

  ghost predicate Placed(f0: Forest, c: Ptr, par: ParentMap, x: Ptr)
    requires Setting(f0, c) && x in f0.par && x in par && x in Kept(f0, c)
  {
    if Mover(f0, c, x) then
      if f0.refs[x] != [] && f0.refs[x][0] in par then par[x] in f0.par && par[x] !in Kept(f0, c)
      else par[x] == Adopted(f0, c)[x]
    else par[x] == f0.par[x]
  }

  /** Something reached, and not just a spent handle, is gone. */
  ghost predicate Lost(f0: Forest, c: Ptr, f: Forest)
    requires Setting(f0, c)
  {
    exists x :: x in Kept(f0, c) && x !in f.par && !SpentHandle(f0, c, x)
  }

  lemma SplitUnlink(f0: Forest, c: Ptr, f: Forest, k: Ptr)
    requires Setting(f0, c) && Split(f0, c, f) && Freeable(f, k) && f.refs[k] == [] && k !in Kept(f0, c)
    ensures Split(f0, c, Unlinked(f, k))
  {
    hide Setting, Ok, Kept;
    UnlinkedOk(f, k);
  }

  lemma SplitDelete(f0: Forest, c: Ptr, f: Forest, k: Ptr, f1: Forest)
    requires Setting(f0, c) && Split(f0, c, f) && k !in Kept(f0, c)
    requires f1.par == f.par - {k} && f1.hnd.Keys <= f.hnd.Keys && f.hnd.Keys <= f1.hnd.Keys + {k}
    requires forall h :: h in f1.hnd ==> f1.hnd[h] == f.hnd[h]
    ensures Split(f0, c, f1)
  {
    hide Kept, Mover, SpentHandle, Adopted, KidsOk, RefsOk, WellFounded, SingleRefs;
    forall x | x in f1.par && x in Kept(f0, c)
      ensures Placed(f0, c, f1.par, x)
    {
      if Mover(f0, c, x) {
        MoverHandle(f0, c, x);
      }
    }
    forall h | h in f0.hnd && h in f1.par && h in Kept(f0, c)
      ensures h in f1.hnd
    {
      assert h in f.hnd;
    }
  }

  lemma SplitSteal(f0: Forest, c: Ptr, f: Forest, k: Ptr, p: Ptr, f1: Forest)
    requires Setting(f0, c) && Split(f0, c, f) && k !in Kept(f0, c) && k != c && k in f.par
    requires p in f0.par && p !in Kept(f0, c)
    requires f1.par == f.par[k := p] && f1.hnd == f.hnd
    ensures Split(f0, c, f1)
  {
    hide Setting, Kept, Mover, SpentHandle, Adopted;
  }

  lemma SplitMove(f0: Forest, c: Ptr, f: Forest, k: Ptr, h: Ptr, f1: Forest)
    requires Setting(f0, c) && Split(f0, c, f) && k in f.par && k in Kept(f0, c) && Mover(f0, c, k)
    requires f0.refs[k] == [h] && h in f.par && h in f0.par
    requires f1.par == (f.par - {h})[k := f.par[h]] && f1.hnd == f.hnd - {h}
    ensures Split(f0, c, f1)
  {
    hide Kept, Mover, Ok, SingleRefs, Adopted, Placed;
    MoverHandle(f0, c, k);
    forall x | x in f1.par && x in Kept(f0, c)
      ensures Placed(f0, c, f1.par, x)
    {
      MovePlaced(f0, c, f, k, h, f1.par, x);
    }
    forall g | g in f0.hnd && g in f1.par && g in Kept(f0, c)
      ensures g in f1.hnd
    {
      assert g in f.hnd;
    }
  }

  lemma MovePlaced(f0: Forest, c: Ptr, f: Forest, k: Ptr, h: Ptr, par1: ParentMap, x: Ptr)
    requires Setting(f0, c) && Split(f0, c, f) && k in f.par && k in Kept(f0, c) && Mover(f0, c, k)
    requires f0.refs[k] == [h] && h in f.par && h in f0.par
    requires par1 == (f.par - {h})[k := f.par[h]]
    requires x in par1 && x in Kept(f0, c)
    ensures Placed(f0, c, par1, x)
  {
    hide Kept, Mover, KidsOk, RefsOk, WellFounded, SingleRefs, SpentHandle;
    MoverHandle(f0, c, k);
    if Mover(f0, c, x) {
      MoverHandle(f0, c, x);
    }
    assert Placed(f0, c, f.par, h) && Placed(f0, c, f.par, x);
  }

  lemma KeptSubtree(f0: Forest, c: Ptr, f: Forest, k: Ptr)
    requires Setting(f0, c) && Split(f0, c, f) && Ok(f) && k in f.par && k in Kept(f0, c)
    requires c !in Desc(f.par, k)
    ensures Desc(f.par, k) <= Kept(f0, c)
  {
    hide Setting, KidsOk, RefsOk, Kept;
    var s := Desc(f.par, k) - Kept(f0, c);
    if s != {} {
      assert Grounded(f.par, s);
      var y :| y in s && y in f.par && f.par[y] !in s;
      DescParent(f.par, k, y);
      assert false;
    }
    assert forall y :: y in Desc(f.par, k) ==> y in s || y in Kept(f0, c);
  }

  /** If the intended forest has no cycle, a mover is never found above the owner of its reference. */
  lemma OwnerNotBeneath(f0: Forest, c: Ptr, f: Forest, k: Ptr, h: Ptr)
    requires Setting(f0, c) && Split(f0, c, f) && Ok(f) && k in f.par && k in Kept(f0, c) && Mover(f0, c, k)
    requires f0.refs[k] == [h] && h in f.par && c !in Desc(f.par, k)
    requires WellFounded(Adopted(f0, c))
    ensures h !in Desc(f.par, k)
  {
    hide KidsOk, RefsOk, Kept, Mover, SpentHandle;
    if h in Desc(f.par, k) {
      var s, a := Desc(f.par, k), Adopted(f0, c);
      KeptSubtree(f0, c, f, k);
      DescClosed(f.par, k);
      assert Grounded(a, s);
      var x :| x in s && x in a && a[x] !in s;
      assert Placed(f0, c, f.par, x);
      MoverHandle(f0, c, k);
      assert Placed(f0, c, f.par, h);
      DescParent(f.par, k, h);
      if x != k {
        DescParent(f.par, k, x);
      }
      assert false;
    }
  }

  ghost predicate Progress(f0: Forest, c: Ptr, f: Forest)
    requires Setting(f0, c)
  {
    && f.stubborn == {} && c in f.busy && f.par.Keys <= f0.par.Keys
    && (Split(f0, c, f) || (Lost(f0, c, f) && !WellFounded(Adopted(f0, c))))
  }

  lemma LostStays(f0: Forest, c: Ptr, f: Forest, f1: Forest)
    requires Setting(f0, c) && Lost(f0, c, f) && f1.par.Keys <= f.par.Keys
    ensures Lost(f0, c, f1)
  {
    hide Setting, Kept, SpentHandle;
    var x :| x in Kept(f0, c) && x !in f.par && !SpentHandle(f0, c, x);
    assert x !in f1.par;
  }

  /** The handle of a chunk that will go will go too. */
  lemma HandleGoes(f0: Forest, c: Ptr, f: Forest, k: Ptr)
    requires Setting(f0, c) && Split(f0, c, f) && Ok(f) && k in f.par && k !in Kept(f0, c) && f.refs[k] != []
    ensures var h := f.refs[k][0];
      h in f.hnd && f.hnd[h] == k && h !in Kept(f0, c) && h != c && h in f.par && f.par[h] in f0.par &&
        f.par[h] !in Kept(f0, c)
  {
    hide WellFounded, KidsOk, Reached;
    var h := f.refs[k][0];
    assert h in f.refs[k];
    ReachedClosed(f0, c);
    assert f0.hnd[h] == k;
    ReachedBelow(f0, c);
  }

  /** A kept child of a chunk that will go is a mover that has not moved yet. */
  lemma KeptKid(f0: Forest, c: Ptr, f: Forest, k: Ptr)
    requires Setting(f0, c) && Split(f0, c, f) && Ok(f) && SingleRefs(f)
    requires k in f.par && k in Kept(f0, c) && f.par[k] !in Kept(f0, c) && f.par[k] in f.par
    ensures Mover(f0, c, k) && !SpentHandle(f0, c, k) && |f0.refs[k]| == 1
    ensures var h := f0.refs[k][0]; f.refs[k] == [h] && f0.refs[k] == [h] && h in f.par && h in f0.par && h in f.hnd
  {
    hide WellFounded, Reached, KidsOk;
    assert Placed(f0, c, f.par, k);
    DescClosed(f0.par, c);
    if !Mover(f0, c, k) {
      KeptStays(f0, c, k);
      assert false;
    }
    MoverHandle(f0, c, k);
    var h := f0.refs[k][0];
    assert h in f.par;
    assert h in f.hnd;
    assert h in f.refs[k];
    OneOf(f.refs[k], h);
  }

  lemma OneOf(s: seq<Ptr>, h: Ptr)
    requires |s| <= 1 && h in s
    ensures s == [h]
  {
  }

  lemma KeptStays(f0: Forest, c: Ptr, k: Ptr)
    requires Setting(f0, c) && k in f0.par && k in Kept(f0, c) && !Mover(f0, c, k) && f0.par[k] != NULL
    ensures f0.par[k] in Kept(f0, c)
  {
    DescClosed(f0.par, c);
  }

  lemma {:induction false} FreeSplit(f0: Forest, c: Ptr, f: Forest, k: Ptr)
    requires Setting(f0, c) && Progress(f0, c, f) && Freeable(f, k)
    requires Split(f0, c, f) ==> k !in Kept(f0, c)
    ensures Progress(f0, c, Free(f, k).0)
    decreases |f.par|, |Desc(f.par, k)|, 1
  {
    hide Setting, KidsOk, RefsOk, WellFounded, SingleRefs, Kept, Desc, Split, Lost;
    var r := Free(f, k);
    if !Split(f0, c, f) {
      LostStays(f0, c, f, r.0);
    } else if f.refs[k] != [] {
      var h := f.refs[k][0];
      HandleGoes(f0, c, f, k);
      FreeHandleCase(f, k);
      var g := Release(f, h);
      SplitDelete(f0, c, f, h, g);
      if h in Desc(f.par, k) {
        FreeSplit(f0, c, g, k);
      }
    } else {
      UnlinkedOk(f, k);
      SplitUnlink(f0, c, f, k);
      var g := FreeKids(Unlinked(f, k), k);
      FreeKidsSplit(f0, c, Unlinked(f, k), k);
      if Split(f0, c, g) {
        SplitDelete(f0, c, g, k, Delete(g, k));
      } else {
        LostStays(f0, c, g, Delete(g, k));
      }
    }
  }

  lemma {:induction false} FreeKidsSplit(f0: Forest, c: Ptr, f: Forest, b: Ptr)
    requires Setting(f0, c) && Progress(f0, c, f) && Emptiable(f, b) && b !in Kept(f0, c)
    ensures Progress(f0, c, FreeKids(f, b))
    decreases |f.par|, |Desc(f.par, b)|, 0
  {
    hide Setting, KidsOk, RefsOk, WellFounded, SingleRefs, Kept, Desc, Split, Lost;
    if !Split(f0, c, f) {
      LostStays(f0, c, f, FreeKids(f, b));
    } else if f.kids[b] != [] {
      FirstKid(f, b);
      var k := f.kids[b][0];
      DescClosed(f.par, k);
      SubsetSmaller(Desc(f.par, k), Desc(f.par, b));
      var r := Free(f, k);
      KidStep(f, b, r.0, r.1);
      var g := AfterKid(f, b, r.0, r.1);
      if k !in Kept(f0, c) {
        FreeSplit(f0, c, f, k);
        GoneKid(f0, c, f, b, k, r, g);
      } else {
        KeptKid(f0, c, f, k);
        AdoptKid(f0, c, f, b, k, r, g);
      }
      FreeKidsSplit(f0, c, g, b);
    }
  }

  /** After a child that is to go was tried: it went, or moved to an owner that is to go as well. */
  lemma GoneKid(f0: Forest, c: Ptr, f: Forest, b: Ptr, k: Ptr, r: (Forest, int), g: Forest)
    requires Setting(f0, c) && Split(f0, c, f) && Emptiable(f, b) && f.kids[b] != [] && k == f.kids[b][0]
    requires k in f.par && f.par[k] == b && k != c && k !in Kept(f0, c) && f.stubborn == {}
    requires FreePost(f, k, r.0, r.1) && g == AfterKid(f, b, r.0, r.1) && Progress(f0, c, r.0)
    ensures Progress(f0, c, g)
  {
    hide Setting, KidsOk, RefsOk, WellFounded, SingleRefs, Kept, Desc, Split, Lost;
    if r.1 != 0 {
      HandleGoes(f0, c, f, k);
      KidRefused(f, b, r.0);
      var p := NewParent(f, k);
      StealPar(r.0, k, p);
      if Split(f0, c, r.0) {
        SplitSteal(f0, c, r.0, k, p, g);
      } else {
        LostStays(f0, c, r.0, g);
      }
    }
  }

  /** After a kept child was tried: it is with its adoptive parent, or is lost, and then the
      intended forest has a cycle. */
  lemma AdoptKid(f0: Forest, c: Ptr, f: Forest, b: Ptr, k: Ptr, r: (Forest, int), g: Forest)
    requires Setting(f0, c) && Split(f0, c, f) && Emptiable(f, b) && f.kids[b] != [] && k == f.kids[b][0]
    requires k in f.par && f.par[k] == b && Freeable(f, k) && k in Kept(f0, c) && Progress(f0, c, f)
    requires Mover(f0, c, k) && !SpentHandle(f0, c, k) && |f0.refs[k]| == 1
    requires var h := f0.refs[k][0]; f.refs[k] == [h] && f0.refs[k] == [h] && h in f.par && h in f0.par && h in f.hnd
    requires r == Free(f, k) && g == AfterKid(f, b, r.0, r.1) && g.par.Keys <= f.par.Keys && g.busy == f.busy &&
      g.stubborn == {}
    ensures Progress(f0, c, g)
  {
    hide KidsOk, RefsOk, WellFounded, SingleRefs, Kept, Desc, Split, Mover;
    var h := f0.refs[k][0];
    if h in Desc(f.par, k) {
      if WellFounded(Adopted(f0, c)) {
        OwnerNotBeneath(f0, c, f, k, h);
      }
      assert k !in g.par;
      assert Lost(f0, c, g);
    } else {
      KidRefused(f, b, r.0);
      StealPar(r.0, k, NewParent(f, k));
      SplitMove(f0, c, f, k, h, g);
    }
  }

  /** Once `c` is gone and nothing was lost, the parents are those of the intended forest. */
  lemma SplitDone(f0: Forest, c: Ptr, g: Forest)
    requires Setting(f0, c) && Split(f0, c, g) && Ok(g) && c !in g.par
    ensures g.par == map x | x in Kept(f0, c) && !SpentHandle(f0, c, x) :: Adopted(f0, c)[x]
    ensures WellFounded(Adopted(f0, c))
  {
    hide KidsOk, RefsOk, Reached, Setting, WellFounded, Adopted, Placed, Mover;
    var a := Adopted(f0, c);
    AdoptedKeys(f0, c);
    AllGone(f0, c, g);
    forall x | x in g.par
      ensures !SpentHandle(f0, c, x) && g.par[x] == a[x]
    {
      DoneParent(f0, c, g, x);
    }
    forall x | x in a && x !in g.par
      ensures a[x] !in a || a[x] in g.par
    {
      SpentParent(f0, c, x);
    }
    LeavesWellFounded(g.par, a);
  }

  lemma AdoptedKeys(f: Forest, c: Ptr)
    ensures Adopted(f, c).Keys == Kept(f, c) && (Setting(f, c) ==> NULL !in Kept(f, c))
  {
  }

  lemma AllGone(f0: Forest, c: Ptr, g: Forest)
    requires Setting(f0, c) && Split(f0, c, g) && Ok(g) && c !in g.par
    ensures g.par.Keys <= Kept(f0, c)
  {
    hide KidsOk, RefsOk, Kept;
    UpClosedEmpty(g.par, g.par.Keys - Kept(f0, c));
    assert forall x :: x in g.par.Keys ==> x !in g.par.Keys - Kept(f0, c);
  }

  lemma DoneParent(f0: Forest, c: Ptr, g: Forest, x: Ptr)
    requires Setting(f0, c) && Split(f0, c, g) && Ok(g) && g.par.Keys <= Kept(f0, c) && x in g.par
    ensures !SpentHandle(f0, c, x) && g.par[x] == Adopted(f0, c)[x]
  {
    hide KidsOk, Reached, WellFounded;
    assert Placed(f0, c, g.par, x);
    if SpentHandle(f0, c, x) {
      var y := f0.hnd[x];
      assert x in f0.refs[y];
      MoverHandle(f0, c, y);
      SpentOnly(f0, c, g, x);
      assert false;
    }
    if Mover(f0, c, x) {
      MoverHandle(f0, c, x);
    }
  }

  lemma SpentOnly(f0: Forest, c: Ptr, g: Forest, h: Ptr)
    requires Setting(f0, c) && Split(f0, c, g) && SpentHandle(f0, c, h) && g.par.Keys <= Kept(f0, c) && Ok(g)
    requires f0.hnd[h] in f0.refs && f0.refs[f0.hnd[h]] == [h] && !SpentHandle(f0, c, f0.hnd[h])
    requires f0.hnd[h] in Kept(f0, c)
    ensures h !in g.par
  {
    hide KidsOk, RefsOk, WellFounded, Mover, Kept;
    var y := f0.hnd[h];
    assert y in g.par;
    assert Placed(f0, c, g.par, y);
  }

  lemma SpentParent(f0: Forest, c: Ptr, h: Ptr)
    requires Setting(f0, c) && h in Kept(f0, c) && SpentHandle(f0, c, h)
    ensures Adopted(f0, c)[h] == f0.par[h] && f0.par[h] !in f0.hnd
  {
    HandleKept(f0, c, h);
  }

  lemma SplitStart(f: Forest, c: Ptr)
    requires Setting(f, c) && f.busy == {}
    ensures Freeable(f, c) && Emptiable(Unlinked(f, c), c) && c !in Kept(f, c)
    ensures Progress(f, c, Unlinked(f, c))
  {
    hide KidsOk, RefsOk, WellFounded, SingleRefs;
    RootUnreached(f, c);
    UnlinkedOk(f, c);
    forall x | x in f.par && x in Kept(f, c)
      ensures Placed(f, c, f.par, x)
    {
      if Mover(f, c, x) {
        MoverHandle(f, c, x);
      }
    }
    forall x | x in f.par && x !in Kept(f, c) && x != c
      ensures f.par[x] in f.par && f.par[x] !in Kept(f, c)
    {
      GoneParent(f, c, x);
    }
    assert Split(f, c, Unlinked(f, c));
  }

  lemma GoneParent(f: Forest, c: Ptr, x: Ptr)
    requires Setting(f, c) && x in f.par && x !in Kept(f, c) && x != c
    ensures f.par[x] in f.par && f.par[x] !in Kept(f, c)
  {
    DescParent(f.par, c, x);
    ReachedClosed(f, c);
  }

  /** Freeing `c` when nothing refuses and every chunk has at most one reference. The call
      succeeds. The chunks reached from outside the freed subtree all survive (but for the handles
      that the movers give up) if and only if the forest intended for them, in which each mover
      goes to the owner of its reference, has no cycle; and then that forest is the outcome, and
      all else in the subtree is gone. */
  lemma FreeSplitsSubtree(f: Forest, c: Ptr)
    requires Ok(f) && SingleRefs(f) && f.stubborn == {} && f.busy == {}
    requires c in f.par && f.refs[c] == [] && c !in f.hnd
    ensures Freeable(f, c)
    ensures var (g, rc) := Free(f, c);
      && rc == 0
      && (WellFounded(Adopted(f, c)) <==> forall x :: x in Kept(f, c) && !SpentHandle(f, c, x) ==> x in g.par)
      && (WellFounded(Adopted(f, c)) ==>
            && g.par == (map x | x in Kept(f, c) && !SpentHandle(f, c, x) :: Adopted(f, c)[x])
            && Ok(g))
  {
    hide KidsOk, RefsOk, WellFounded, SingleRefs, Desc, Split, Kept, Adopted;
    SplitStart(f, c);
    var f1 := Unlinked(f, c);
    var g := FreeKids(f1, c);
    FreeKidsSplit(f, c, f1, c);
    var g1 := Delete(g, c);
    EmptiedDelete(f, c, g);
    if Split(f, c, g) {
      SplitDelete(f, c, g, c, g1);
      SplitDone(f, c, g1);
      AdoptedKeys(f, c);
    } else {
      LostStays(f, c, g, g1);
    }
  }
}
