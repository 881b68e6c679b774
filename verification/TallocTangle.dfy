/** A forest in which freeing a chunk loses chunks that are reached from outside. */
module TallocTangle {
  import opened Sequences
  import opened TallocTrees
  import opened TallocForest
  import opened TallocFree
  import opened TallocReferences

  /** Chunk 1 has children 2 and 3, and 3 has child 4. Chunk 4 holds a reference (5) to 2, chunk 2
      one (6) to 3, and the outside chunk 7 one (8) to 4. */
  ghost function Tangle(): Forest {
    Forest(TangleParents(),
           map[1 := [2, 3], 2 := [6], 3 := [4], 4 := [5], 5 := [], 6 := [], 7 := [8], 8 := []],
           map[1 := [], 2 := [5], 3 := [6], 4 := [8], 5 := [], 6 := [], 7 := [], 8 := []],
           map[5 := 2, 6 := 3, 8 := 4], {}, {})
  }

  ghost function TangleParents(): ParentMap {
    map[1 := NULL, 2 := 1, 3 := 1, 4 := 3, 5 := 4, 6 := 2, 7 := NULL, 8 := 7]
  }

  lemma TangleGrounded()
    ensures WellFounded(TangleParents())
  {
    hide WellFounded;
    var p0: ParentMap := map[];
    assert WellFounded(p0) by { NothingGrounded(p0); }
    ExtendWellFounded(p0, 1, NULL);
    var p1 := p0[1 := NULL];
    ExtendWellFounded(p1, 2, 1);
    var p2 := p1[2 := 1];
    ExtendWellFounded(p2, 3, 1);
    var p3 := p2[3 := 1];
    ExtendWellFounded(p3, 4, 3);
    var p4 := p3[4 := 3];
    ExtendWellFounded(p4, 5, 4);
    var p5 := p4[5 := 4];
    ExtendWellFounded(p5, 6, 2);
    var p6 := p5[6 := 2];
    ExtendWellFounded(p6, 7, NULL);
    var p7 := p6[7 := NULL];
    ExtendWellFounded(p7, 8, 7);
    assert p7[8 := 7] == TangleParents();
  }

  lemma NothingGrounded(par: ParentMap)
    requires par == map[]
    ensures WellFounded(par)
  {
  }

  lemma TangleShape()
    ensures Shape(Tangle())
  {
  }

  function KidsOf(p: Ptr): seq<Ptr> {
    if p == 1 then [2, 3] else if p == 2 then [6] else if p == 3 then [4]
    else if p == 4 then [5] else if p == 7 then [8] else []
  }

  function ParentOf(p: Ptr): Ptr {
    if p == 2 || p == 3 then 1 else if p == 4 then 3 else if p == 5 then 4
    else if p == 6 then 2 else if p == 8 then 7 else NULL
  }

  function HandlesOf(p: Ptr): seq<Ptr> {
    if p == 2 then [5] else if p == 3 then [6] else if p == 4 then [8] else []
  }

  lemma TangleLists(p: Ptr)
    ensures p in Tangle().kids <==> 1 <= p <= 8
    ensures p in Tangle().refs <==> 1 <= p <= 8
    ensures 1 <= p <= 8 ==> Tangle().kids[p] == KidsOf(p)
    ensures 1 <= p <= 8 ==> Tangle().refs[p] == HandlesOf(p)
  {
  }

  lemma TangleParent(p: Ptr)
    ensures p in Tangle().par <==> 1 <= p <= 8
    ensures 1 <= p <= 8 ==> Tangle().par[p] == ParentOf(p)
    ensures Tangle().busy == {} && Tangle().stubborn == {}
  {
  }

  lemma TangleKids()
    ensures Shape(Tangle()) && KidsOk(Tangle())
  {
    TangleShape();
    var f := Tangle();
    hide Shape, Tangle;
    TangleParent(1);
    forall p | p in f.kids
      ensures Distinct(f.kids[p]) && forall x {:trigger x in f.kids[p]} :: x in f.kids[p] ==>
        x in f.par && f.par[x] == p
    {
      TangleLists(p);
      forall x | x in f.kids[p]
        ensures x in f.par && f.par[x] == p
      {
        TangleParent(x);
      }
    }
    forall x | x in f.par && f.par[x] != NULL
      ensures f.par[x] in f.kids && x in f.kids[f.par[x]]
    {
      TangleParent(x);
      TangleLists(f.par[x]);
    }
  }

  lemma TangleHandle(h: Ptr)
    ensures h in Tangle().hnd <==> h == 5 || h == 6 || h == 8
    ensures h in Tangle().hnd ==> Tangle().hnd[h] == (if h == 5 then 2 else if h == 6 then 3 else 4)
  {
  }

  lemma TangleRefLists(x: Ptr)
    requires x in Tangle().refs
    ensures |Tangle().refs[x]| <= 1 && Distinct(Tangle().refs[x])
    ensures forall h :: h in Tangle().refs[x] ==> h in Tangle().hnd && Tangle().hnd[h] == x
  {
    TangleLists(x);
    TangleHandle(5);
    TangleHandle(6);
    TangleHandle(8);
    hide Tangle;
  }

  lemma TangleHandleLeaf(h: Ptr)
    requires h in Tangle().hnd
    ensures var f := Tangle();
      && f.hnd[h] in f.par && f.hnd[h] in f.refs && h in f.refs[f.hnd[h]] && h in f.par && h in f.kids && h in f.refs
      && f.par[h] != NULL && f.kids[h] == [] && f.refs[h] == []
  {
    hide Tangle;
    TangleHandle(h);
    TangleLists(h);
    TangleLists(Tangle().hnd[h]);
    TangleParent(h);
    TangleParent(Tangle().hnd[h]);
  }

  lemma TangleRefs()
    ensures Shape(Tangle()) && RefsOk(Tangle()) && SingleRefs(Tangle())
  {
    TangleShape();
    var f := Tangle();
    hide Shape, Tangle;
    TangleParent(1);
    forall x | x in f.refs
      ensures |f.refs[x]| <= 1 && Distinct(f.refs[x])
      ensures forall h {:trigger h in f.refs[x]} :: h in f.refs[x] ==> h in f.hnd && f.hnd[h] == x
    {
      TangleRefLists(x);
    }
    forall h | h in f.hnd
      ensures f.hnd[h] in f.par && h in f.refs[f.hnd[h]] && h in f.par
      ensures f.par[h] != NULL && f.kids[h] == [] && f.refs[h] == []
    {
      TangleHandleLeaf(h);
    }
    forall x | x in f.par
      ensures f.par[x] !in f.hnd
    {
      TangleParent(x);
      TangleHandle(f.par[x]);
    }
  }

  lemma TangleOk()
    ensures Ok(Tangle()) && SingleRefs(Tangle())
  {
    hide Tangle, KidsOk, RefsOk, WellFounded;
    TangleGrounded();
    TangleKids();
    TangleRefs();
    assert Tangle().par == TangleParents() by { TangleHasParents(); }
  }

  lemma TangleHasParents()
    ensures Tangle().par == TangleParents() && Tangle().stubborn == {} && Tangle().busy == {}
    ensures Tangle().refs.Keys == Tangle().par.Keys
    ensures Tangle().refs[1] == [] && Tangle().refs[2] == [5] && Tangle().refs[3] == [6]
    ensures Tangle().hnd == map[5 := 2, 6 := 3, 8 := 4]
  {
  }

  lemma TangleSubtree()
    ensures Desc(TangleParents(), 1) == {1, 2, 3, 4, 5, 6}
  {
    hide Desc, WellFounded;
    var par := TangleParents();
    DescClosed(par, 1);
    assert par[2] == 1 && par[3] == 1 && par[4] == 3 && par[5] == 4 && par[6] == 2;
    DescLeast(par, 1, {1, 2, 3, 4, 5, 6});
  }

  lemma TangleReached()
    ensures {2, 3, 4} <= Reached(Tangle(), 1) && 1 !in Reached(Tangle(), 1)
  {
    hide WellFounded, KidsOk, RefsOk, Tangle, Reached, Desc, SingleRefs;
    var f := Tangle();
    TangleOk();
    TangleHasParents();
    TangleSubtree();
    RootUnreached(f, 1);
    ReachedClosed(f, 1);
    assert f.hnd[8] == 4 && f.hnd[5] == 2 && f.hnd[6] == 3;
    assert f.par[5] == 4 && f.par[6] == 2;
  }

  lemma TangleCycle()
    ensures !WellFounded(Adopted(Tangle(), 1))
  {
    hide WellFounded, KidsOk, RefsOk, Tangle, Reached, Desc, SingleRefs;
    TangleReached();
    TangleHasParents();
    TangleSubtree();
    var f := Tangle();
    assert Mover(f, 1, 2) && Mover(f, 1, 3) && !Mover(f, 1, 4);
    var a, s := Adopted(f, 1), {2, 3, 4};
    assert a[2] == 4 && a[3] == 2 && a[4] == 3;
    TangleTriangle(a);
  }

  lemma TangleTriangle(a: ParentMap)
    requires {2, 3, 4} <= a.Keys && a[2] == 4 && a[3] == 2 && a[4] == 3
    ensures !WellFounded(a)
  {
    assert !Grounded(a, {2, 3, 4});
  }

  /** Chunks reached from outside can be lost: here 2, 3 and 4 would have to become each other's
      children. */
  lemma TangleLost()
    ensures Ok(Tangle()) && SingleRefs(Tangle()) && Freeable(Tangle(), 1)
    ensures exists x :: x in Kept(Tangle(), 1) && !SpentHandle(Tangle(), 1, x) && x !in Free(Tangle(), 1).0.par
  {
    hide KidsOk, RefsOk, Free, Desc, WellFounded, Tangle, SingleRefs, Adopted, Kept;
    TangleOk();
    TangleHasParents();
    FreeSplitsSubtree(Tangle(), 1);
    TangleCycle();
  }
}
