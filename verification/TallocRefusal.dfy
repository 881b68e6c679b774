/** Freeing a subtree in which some destructors refuse. */
module TallocRefusal {
  import opened Sequences
  import opened TallocTrees
  import opened TallocForest
  import opened TallocFree

  /** The chunks of the subtree of `c` with no refusing chunk between them and `c`, both included. */
  ghost function Doomed(f: Forest, c: Ptr): set<Ptr> {
    set x | x in f.par && x in Desc(f.par, c) &&
      forall y {:trigger y in f.stubborn} :: y in f.stubborn && y in Desc(f.par, c) ==> x !in Desc(f.par, y)
  }

  /** A topmost refusing chunk: it is not doomed but its parent is. */
  ghost predicate Topmost(f: Forest, c: Ptr, x: Ptr) {
    x in f.par && x !in Doomed(f, c) && f.par[x] in Doomed(f, c)
  }

  lemma TopmostRefuses(f: Forest, c: Ptr, x: Ptr)
    requires Ok(f) && c in f.par && Topmost(f, c, x)
    ensures x in f.stubborn && x in Desc(f.par, c)
  {
    hide KidsOk, RefsOk;
    DescClosed(f.par, c);
    assert x in Desc(f.par, c);
    var y :| y in f.stubborn && y in Desc(f.par, c) && x in Desc(f.par, y);
    if y != x {
      DescParent(f.par, y, x);
    }
  }

  lemma ParentDoomed(f: Forest, c: Ptr, x: Ptr)
    requires Ok(f) && c in f.par && x in Doomed(f, c) && x != c
    ensures f.par[x] in Doomed(f, c)
  {
    DescParent(f.par, c, x);
    forall y {:trigger y in f.stubborn} | y in f.stubborn && y in Desc(f.par, c)
      ensures f.par[x] !in Desc(f.par, y)
    {
      DescClosed(f.par, y);
    }
  }

  /** The state in the middle of freeing `c` in `f0`: chunks that are not doomed are where they
      were, except the topmost refusing ones, which are still below a doomed chunk or already with
      the former parent of `c`. */
  ghost predicate Midway(f0: Forest, c: Ptr, f: Forest)
    requires Ok(f0) && c in f0.par
  {
    && Ok(f) && f.hnd == map[] && f.stubborn == f0.stubborn
    && f.par.Keys <= f0.par.Keys && f0.par.Keys - Doomed(f0, c) <= f.par.Keys
    && MidwayParents(f0, c, f.par) && MidwayKids(f0, c, f.kids)
  }

  ghost predicate MidwayParents(f0: Forest, c: Ptr, par: ParentMap)
    requires Ok(f0) && c in f0.par && par.Keys <= f0.par.Keys
  {
    forall x {:trigger par[x]} :: x in par ==>
      par[x] == f0.par[x] || (Topmost(f0, c, x) && (par[x] in Doomed(f0, c) || par[x] == f0.par[c]))
  }

  ghost predicate MidwayKids(f0: Forest, c: Ptr, kids: map<Ptr, seq<Ptr>>)
    requires Ok(f0) && c in f0.par && kids.Keys <= f0.kids.Keys
  {
    && (forall x {:trigger kids[x]} :: x in kids && x !in Doomed(f0, c) && x != f0.par[c] ==>
          kids[x] == f0.kids[x])
    && (f0.par[c] in kids ==> Appended(kids[f0.par[c]], Without(f0.kids[f0.par[c]], c)))
  }

  ghost predicate Appended(s: seq<Ptr>, t: seq<Ptr>) {
    exists m {:trigger m + t} :: s == m + t
  }

  lemma RootNotTopmost(f0: Forest, c: Ptr)
    requires Ok(f0) && c in f0.par
    ensures f0.par[c] !in Doomed(f0, c) && !Topmost(f0, c, c)
  {
    ParentNotBeneath(f0.par, c);
  }

  lemma DoomedWilling(f0: Forest, c: Ptr, f: Forest, k: Ptr)
    requires Ok(f0) && c in f0.par && Midway(f0, c, f) && k in Doomed(f0, c)
    ensures k !in f.stubborn
  {
    DescClosed(f0.par, k);
  }

  lemma KidMidway(f0: Forest, c: Ptr, f: Forest, b: Ptr)
    requires Ok(f0) && c in f0.par && Midway(f0, c, f) && Emptiable(f, b) && b in Doomed(f0, c)
    requires f.kids[b] != []
    ensures var k := f.kids[b][0];
      && k in f.par && f.par[k] == b && f.refs[k] == [] && k != c
      && (k !in Doomed(f0, c) ==> Topmost(f0, c, k) && k in f.stubborn)
  {
    hide WellFounded, Desc;
    var k := f.kids[b][0];
    assert k in f.kids[b];
    RootNotTopmost(f0, c);
    if f.refs[k] != [] {
      HasMember(f.refs[k]);
      assert false;
    }
    if k !in Doomed(f0, c) {
      TopmostRefuses(f0, c, k);
    }
  }

  lemma MoveMidway(f0: Forest, c: Ptr, f: Forest, b: Ptr, k: Ptr, g: Forest)
    requires Ok(f0) && c in f0.par && Midway(f0, c, f) && b in Doomed(f0, c) && b in f.par
    requires k in f.par && f.par[k] == b && Topmost(f0, c, k) && b != k && f.par[b] != b
    requires Ok(g) && (f.par[b] == NULL || (f.par[b] in f.par && f.par[b] != k)) && g == Steal(f, k, f.par[b])
    ensures Midway(f0, c, g)
  {
    hide WellFounded, KidsOk, RefsOk, Doomed, Steal, Appended;
    StealPar(f, k, f.par[b]);
    RootNotTopmost(f0, c);
    if b != c {
      ParentDoomed(f0, c, b);
    }
    assert MidwayParents(f0, c, g.par);
    StealKids(f, k, f.par[b]);
    MoveMidwayKids(f0, c, f.kids, b, f.par[b], k, g.kids);
  }

  lemma MoveMidwayKids(f0: Forest, c: Ptr, kids: map<Ptr, seq<Ptr>>, b: Ptr, p: Ptr, k: Ptr, kids2: map<Ptr, seq<Ptr>>)
    requires Ok(f0) && c in f0.par && kids.Keys <= f0.kids.Keys && MidwayKids(f0, c, kids)
    requires b in Doomed(f0, c) && (if b == c then p == f0.par[c] else p in Doomed(f0, c))
    requires kids2.Keys == kids.Keys && (p in kids2 ==> kids2[p] == [k] + kids[p])
    requires forall x :: x in kids && x != p && x != b ==> kids2[x] == kids[x]
    ensures MidwayKids(f0, c, kids2)
  {
    hide Ok, Doomed;
    RootNotTopmost(f0, c);
    if b == c && p in kids {
      var t := Without(f0.kids[f0.par[c]], c);
      var m :| kids[p] == m + t;
      assert [k] + (m + t) == ([k] + m) + t;
    }
  }

  lemma UnlinkMidway(f0: Forest, c: Ptr, f: Forest, k: Ptr)
    requires Ok(f0) && c in f0.par && Midway(f0, c, f) && Freeable(f, k) && k in Doomed(f0, c) && k != c
    requires f.refs[k] == []
    ensures Midway(f0, c, Unlinked(f, k))
  {
    hide WellFounded, Doomed, KidsOk, RefsOk;
    UnlinkedOk(f, k);
    ParentDoomed(f0, c, k);
    RootNotTopmost(f0, c);
  }

  lemma DeleteMidway(f0: Forest, c: Ptr, g: Forest, k: Ptr)
    requires Ok(f0) && c in f0.par && Midway(f0, c, g) && k in Doomed(f0, c) && Ok(Delete(g, k))
    ensures Midway(f0, c, Delete(g, k))
  {
    hide WellFounded, Doomed, KidsOk, RefsOk;
    RootNotTopmost(f0, c);
  }

  lemma {:induction false} FreeKidsMidway(f0: Forest, c: Ptr, f: Forest, b: Ptr)
    requires Ok(f0) && c in f0.par && Midway(f0, c, f) && Emptiable(f, b) && b in Doomed(f0, c)
    ensures Midway(f0, c, FreeKids(f, b))
    decreases |f.par|, |Desc(f.par, b)|, 0
  {
    if f.kids[b] != [] {
      FirstKid(f, b);
      var k := f.kids[b][0];
      SubsetSmaller(Desc(f.par, k), Desc(f.par, b));
      var r := Free(f, k);
      KidMidway(f0, c, f, b);
      KidStep(f, b, r.0, r.1);
      if k in Doomed(f0, c) {
        FreeMidway(f0, c, f, k);
      } else {
        KidRefused(f, b, f);
        MoveMidway(f0, c, f, b, k, AfterKid(f, b, r.0, r.1));
      }
      FreeKidsMidway(f0, c, AfterKid(f, b, r.0, r.1), b);
    }
  }

  lemma {:induction false} FreeMidway(f0: Forest, c: Ptr, f: Forest, k: Ptr)
    requires Ok(f0) && c in f0.par && Midway(f0, c, f) && Freeable(f, k) && k in Doomed(f0, c) && k != c
    requires f.refs[k] == []
    ensures Midway(f0, c, Free(f, k).0) && Free(f, k).1 == 0
    decreases |f.par|, |Desc(f.par, k)|, 1
  {
    hide WellFounded, KidsOk, RefsOk, Midway, Desc, SingleRefs, Doomed;
    UnlinkedOk(f, k);
    DoomedWilling(f0, c, f, k);
    EmptiedDelete(f, k, FreeKids(Unlinked(f, k), k));
    UnlinkMidway(f0, c, f, k);
    FreeKidsMidway(f0, c, Unlinked(f, k), k);
    DeleteMidway(f0, c, FreeKids(Unlinked(f, k), k), k);
  }

  lemma NoHandles(f: Forest)
    requires Shape(f) && RefsOk(f) && f.hnd == map[]
    ensures forall x :: x in f.refs ==> f.refs[x] == []
  {
    forall x | x in f.refs
      ensures f.refs[x] == []
    {
      if f.refs[x] != [] {
        HasMember(f.refs[x]);
        assert false;
      }
    }
  }

  lemma Startable(f: Forest, c: Ptr)
    requires Ok(f) && f.busy == {} && f.hnd == map[] && c in f.par
    ensures Freeable(f, c) && f.refs[c] == []
  {
    NoHandles(f);
  }

  /** The state with nothing doomed left alive but what the wrapped-up call removes. */
  lemma AllDoomedGone(f0: Forest, c: Ptr, g: Forest)
    requires Ok(f0) && c in f0.par && Midway(f0, c, g) && c !in g.par
    ensures g.par.Keys == f0.par.Keys - Doomed(f0, c)
  {
    hide KidsOk, RefsOk, Appended;
    var s := Doomed(f0, c) * g.par.Keys;
    if s != {} {
      assert Grounded(g.par, s);
      var x :| x in s && x in g.par && g.par[x] !in s;
      ParentDoomed(f0, c, x);
      assert false;
    }
    assert forall x :: x in g.par.Keys ==> x !in s;
  }

  lemma UnlinkStart(f: Forest, c: Ptr)
    requires Ok(f) && f.busy == {} && f.hnd == map[] && c in f.par && c !in f.stubborn
    requires Freeable(f, c) && f.refs[c] == []
    ensures Midway(f, c, Unlinked(f, c)) && Emptiable(Unlinked(f, c), c) && c in Doomed(f, c)
  {
    hide KidsOk, RefsOk, WellFounded;
    UnlinkedOk(f, c);
    DescClosed(f.par, c);
    RootNotTopmost(f, c);
    forall y | y in f.stubborn && y in Desc(f.par, c)
      ensures c !in Desc(f.par, y)
    {
      if c in Desc(f.par, y) {
        DescParent(f.par, c, y);
        DescTransitive(f.par, y, c);
        DescClosed(f.par, y);
        ParentNotBeneath(f.par, y);
        assert false;
      }
    }
    if f.par[c] != NULL {
      var t := Without(f.kids[f.par[c]], c);
      assert t == [] + t;
    }
  }

  /** Freeing `c` when destructors refuse and there are no references: if `c` itself refuses
      nothing changes and the result is -1; otherwise exactly the chunks without a refusing chunk
      above them go, and the topmost refusing chunks, with their subtrees untouched, come to the
      front of the former parent's children (or become roots if there is none). */
  lemma FreeWithRefusals(f: Forest, c: Ptr)
    requires Ok(f) && f.busy == {} && f.hnd == map[] && c in f.par
    ensures Freeable(f, c)
    ensures c in f.stubborn ==> Free(f, c) == (f, -1)
    ensures c !in f.stubborn ==>
      var (g, rc) := Free(f, c);
      && rc == 0
      && g.par == (map x | x in f.par && x !in Doomed(f, c) :: if Topmost(f, c, x) then f.par[c] else f.par[x])
      && (forall x :: x in g.par && x != f.par[c] ==> g.kids[x] == f.kids[x])
      && (f.par[c] != NULL ==> exists m ::
            && f.par[c] in g.kids && g.kids[f.par[c]] == m + Without(f.kids[f.par[c]], c)
            && Distinct(m) && (forall x :: x in m <==> Topmost(f, c, x)))
  {
    Startable(f, c);
    if c !in f.stubborn {
      UnlinkStart(f, c);
      var g := FreeKids(Unlinked(f, c), c);
      FreeKidsMidway(f, c, Unlinked(f, c), c);
      EmptiedDelete(f, c, g);
      DeleteMidway(f, c, g, c);
      var g1 := Delete(g, c);
      AllDoomedGone(f, c, g1);
      Settled(f, c, g1);
    }
  }

  lemma Settled(f: Forest, c: Ptr, g: Forest)
    requires Ok(f) && c in f.par && Midway(f, c, g) && g.par.Keys == f.par.Keys - Doomed(f, c) && g.busy == {}
    requires f.busy == {} && c in Doomed(f, c)
    ensures g.par == (map x | x in f.par && x !in Doomed(f, c) :: if Topmost(f, c, x) then f.par[c] else f.par[x])
    ensures forall x :: x in g.par && x != f.par[c] ==> g.kids[x] == f.kids[x]
    ensures f.par[c] != NULL ==> exists m ::
            && f.par[c] in g.kids && g.kids[f.par[c]] == m + Without(f.kids[f.par[c]], c)
            && Distinct(m) && (forall x :: x in m <==> Topmost(f, c, x))
  {
    hide WellFounded, RefsOk, KidsOk, Desc, Doomed;
    RootNotTopmost(f, c);
    SettledParents(f, c, g);
    if f.par[c] != NULL {
      var m :| g.kids[f.par[c]] == m + Without(f.kids[f.par[c]], c);
      SettledKids(f, c, g, m);
    }
  }

  lemma SettledParents(f: Forest, c: Ptr, g: Forest)
    requires Ok(f) && c in f.par && Midway(f, c, g) && g.par.Keys == f.par.Keys - Doomed(f, c)
    requires f.par[c] !in Doomed(f, c)
    ensures g.par == (map x | x in f.par && x !in Doomed(f, c) :: if Topmost(f, c, x) then f.par[c] else f.par[x])
  {
    hide WellFounded, RefsOk, KidsOk, Desc, Doomed, MidwayKids;
    var r := map x | x in f.par && x !in Doomed(f, c) :: if Topmost(f, c, x) then f.par[c] else f.par[x];
    assert g.par.Keys == r.Keys;
    DoomedLive(f, c);
    forall x | x in g.par
      ensures g.par[x] == r[x]
    {
      assert g.par[x] !in Doomed(f, c);
    }
  }

  lemma DoomedLive(f: Forest, c: Ptr)
    ensures Doomed(f, c) <= f.par.Keys
  {
  }

  lemma SettledKids(f: Forest, c: Ptr, g: Forest, m: seq<Ptr>)
    requires Ok(f) && c in f.par && f.par[c] in f.par && Ok(g) && g.busy == {} && f.par[c] in g.kids
    requires g.par == map x | x in f.par && x !in Doomed(f, c) :: if Topmost(f, c, x) then f.par[c] else f.par[x]
    requires g.kids[f.par[c]] == m + Without(f.kids[f.par[c]], c)
    requires f.busy == {} && c in Doomed(f, c) && f.par[c] !in Doomed(f, c)
    ensures Distinct(m) && forall x :: x in m <==> Topmost(f, c, x)
  {
    hide WellFounded, RefsOk, Desc, Doomed;
    var p, t := f.par[c], Without(f.kids[f.par[c]], c);
    WithoutMember(f.kids[p], c);
    FrontOfDistinct(m, t);
    forall x
      ensures x in m <==> Topmost(f, c, x)
    {
      assert x in g.kids[p] <==> x in m || x in t;
      if x in m {
        assert f.par[x] == p ==> x in t;
      }
      if Topmost(f, c, x) {
        assert x in g.par && g.par[x] == p;
      }
    }
  }

  lemma FrontOfDistinct(m: seq<Ptr>, t: seq<Ptr>)
    requires Distinct(m + t)
    ensures Distinct(m) && forall x :: x in m ==> x !in t
  {
    forall i, j | 0 <= i < j < |m|
      ensures m[i] != m[j]
    {
      assert (m + t)[i] != (m + t)[j];
    }
    forall x | x in m
      ensures x !in t
    {
      var i :| 0 <= i < |m| && m[i] == x;
      forall j | 0 <= j < |t|
        ensures t[j] != x
      {
        assert (m + t)[i] != (m + t)[|m| + j];
      }
    }
  }
}
