/** The owners of a chunk: its parent and the parents of its reference handles. */
module TallocOwners {
  import opened Sequences
  import opened TallocTrees
  import opened TallocForest
  import opened TallocGrow
  import Spec = TallocFree

  ghost function HandleOwners(par: ParentMap, s: seq<Ptr>): seq<Ptr>
    requires forall h :: h in s ==> h in par
  {
    seq(|s|, i requires 0 <= i < |s| => par[s[i]])
  }

  lemma RefsLive(f: Forest, x: Ptr)
    requires Ok(f) && x in f.par
    ensures forall h :: h in f.refs[x] ==> h in f.par && h in f.hnd && f.hnd[h] == x && f.par[h] in f.par
  {
    hide WellFounded, KidsOk;
  }

  /** The contexts that own `x`; the null context owns roots. */
  ghost function Owners(f: Forest, x: Ptr): multiset<Ptr>
    requires Ok(f) && x in f.par
  {
    RefsLive(f, x);
    multiset([f.par[x]]) + multiset(HandleOwners(f.par, f.refs[x]))
  }

  /** `talloc_reference`: a new handle `h` to `x`, a child of `ctx`. */
  ghost function ReferenceResult(f: Forest, ctx: Ptr, x: Ptr, h: Ptr): Forest
    requires Shape(f) && ctx in f.par && x in f.par
  {
    MakeHandle(NewChunk(f, h, ctx), h, x)
  }

  lemma ReferenceOk(f: Forest, ctx: Ptr, x: Ptr, h: Ptr)
    requires Ok(f) && ctx in f.par && ctx !in f.hnd && x in f.par && x !in f.hnd && x !in f.busy
    requires h !in f.par && h != NULL
    ensures Ok(NewChunk(f, h, ctx)) && Ok(ReferenceResult(f, ctx, x, h))
  {
    hide WellFounded, KidsOk;
    NewChunkOk(f, h, ctx);
    var g := NewChunk(f, h, ctx);
    MakeHandleOk(g, h, x);
  }

  /** The position of the first handle on list `s` that is a child of `ctx`, or the length of `s`. */
  ghost function FirstOwned(par: ParentMap, s: seq<Ptr>, ctx: Ptr): (i: nat)
    requires forall h :: h in s ==> h in par
    ensures i <= |s| && (i < |s| ==> par[s[i]] == ctx)
    ensures forall j :: 0 <= j < i ==> par[s[j]] != ctx
  {
    if s == [] || par[s[0]] == ctx then 0 else 1 + FirstOwned(par, s[1..], ctx)
  }

  /** `talloc_unreference`. */
  ghost function UnreferenceResult(f: Forest, ctx: Ptr, x: Ptr): (Forest, int)
    requires Ok(f) && x in f.par
  {
    RefsLive(f, x);
    var i := FirstOwned(f.par, f.refs[x], ctx);
    if i < |f.refs[x]| then assert f.refs[x][i] in f.refs[x]; (Release(f, f.refs[x][i]), 0) else (f, -1)
  }

  /** When `talloc_unlink` can be called: `x` has no reference from beneath itself, and if it has
      no reference at all it can be freed. */
  ghost predicate Unlinkable(f: Forest, x: Ptr) {
    && Ok(f) && f.busy == {} && x in f.par && x !in f.hnd
    && (forall h :: h in f.refs[x] ==> h !in Desc(f.par, x))
    && (f.refs[x] == [] ==> SingleRefs(f))
  }

  /** `talloc_unlink`. */
  ghost function UnlinkResult(f: Forest, ctx: Ptr, x: Ptr): (Forest, int)
    requires Unlinkable(f, x)
  {
    RefsLive(f, x);
    var (g, rc) := UnreferenceResult(f, ctx, x);
    if rc == 0 then (g, 0)
    else if f.par[x] != ctx then (f, -1)
    else if f.refs[x] == [] then Spec.Free(f, x)
    else
      assert f.refs[x][0] in f.refs[x];
      var p := f.par[f.refs[x][0]];
      ReleaseOk(f, f.refs[x][0]);
      UnlinkTarget(f, x, f.refs[x][0]);
      (Steal(Release(f, f.refs[x][0]), x, p), 0)
  }

  lemma UnlinkTarget(f: Forest, x: Ptr, h: Ptr)
    requires Unlinkable(f, x) && h in f.refs[x] && h in f.hnd && f.par[h] in f.par && f.hnd[h] in f.par
    requires Ok(Release(f, h))
    ensures var g, p := Release(f, h), f.par[h];
      && x in g.par && p in g.par && p !in g.hnd && p !in Desc(g.par, x) && p != x && x !in g.hnd &&
        g.par[x] == f.par[x]
    ensures Ok(Steal(Release(f, h), x, f.par[h]))
  {
    hide WellFounded, KidsOk;
    RefsLive(f, x);
    DescClosed(f.par, x);
    var g, p := Release(f, h), f.par[h];
    DescShrinks(f.par, g.par, x);
    DescClosed(g.par, x);
    hide RefsOk, Desc;
    StealOk(g, x, p);
  }

  lemma SameOwners(f: Forest, g: Forest, x: Ptr)
    requires Ok(f) && Ok(g) && x in f.par && x in g.par && g.par[x] == f.par[x] && g.refs[x] == f.refs[x]
    requires forall h :: h in f.refs[x] && h in f.par && h in g.par ==> g.par[h] == f.par[h]
    ensures Owners(g, x) == Owners(f, x)
  {
    hide KidsOk, RefsOk, WellFounded;
    RefsLive(f, x);
    RefsLive(g, x);
    assert HandleOwners(g.par, g.refs[x]) == HandleOwners(f.par, f.refs[x]);
  }

  lemma AddedOwner(f: Forest, g: Forest, x: Ptr, h: Ptr)
    requires Ok(f) && Ok(g) && x in f.par && x in g.par && g.par[x] == f.par[x] && h in g.par
    requires g.refs[x] == [h] + f.refs[x]
    requires forall k :: k in f.refs[x] && k in f.par && k in g.par ==> g.par[k] == f.par[k]
    ensures Owners(g, x) == Owners(f, x) + multiset{g.par[h]}
  {
    hide KidsOk, RefsOk, WellFounded;
    RefsLive(f, x);
    RefsLive(g, x);
    OwnersMore(f.par, g.par, f.refs[x], h);
    hide HandleOwners;
  }

  lemma OwnersMore(p: ParentMap, q: ParentMap, s: seq<Ptr>, h: Ptr)
    requires h in q && forall k :: k in s ==> k in p && k in q && q[k] == p[k]
    ensures HandleOwners(q, [h] + s) == [q[h]] + HandleOwners(p, s)
  {
  }

  lemma ReferenceParts(f: Forest, ctx: Ptr, x: Ptr, h: Ptr)
    requires Ok(f) && ctx in f.par && x in f.par && h !in f.par && h != NULL
    ensures var g := ReferenceResult(f, ctx, x, h);
      g.par == f.par[h := ctx] && g.refs == f.refs[h := []][x := [h] + f.refs[x]]
  {
  }

  /** A reference adds one owner to its referent and leaves the owners of all other chunks alone. */
  lemma ReferenceAddsOwner(f: Forest, ctx: Ptr, x: Ptr, h: Ptr)
    requires Ok(f) && ctx in f.par && ctx !in f.hnd && x in f.par && x !in f.hnd && x !in f.busy
    requires h !in f.par && h != NULL
    ensures Ok(ReferenceResult(f, ctx, x, h))
    ensures var g := ReferenceResult(f, ctx, x, h);
      && x in g.par && Owners(g, x) == Owners(f, x) + multiset{ctx}
      && forall y :: y in f.par && y != x ==> y in g.par && Owners(g, y) == Owners(f, y)
  {
    hide WellFounded, KidsOk, RefsOk, Owners, ReferenceResult;
    ReferenceOk(f, ctx, x, h);
    ReferenceParts(f, ctx, x, h);
    var g := ReferenceResult(f, ctx, x, h);
    RefsLive(f, x);
    AddedOwner(f, g, x, h);
    forall y | y in f.par && y != x
      ensures Owners(g, y) == Owners(f, y)
    {
      RefsLive(f, y);
      SameOwners(f, g, y);
    }
  }

  lemma CutMultiset(s: seq<Ptr>, t: seq<Ptr>, i: nat)
    requires i < |s| && t == s[..i] + s[i + 1..]
    ensures multiset(s) == multiset(t) + multiset{s[i]}
  {
    assert s == s[..i] + [s[i]] + s[i + 1..];
  }

  lemma RemovedOwner(f: Forest, g: Forest, x: Ptr, i: nat)
    requires Ok(f) && Ok(g) && x in f.par && x in g.par && g.par[x] == f.par[x] && i < |f.refs[x]| &&
      f.refs[x][i] in f.par
    requires g.refs[x] == f.refs[x][..i] + f.refs[x][i + 1..]
    requires forall k :: k in f.refs[x] && k in f.par && k in g.par ==> g.par[k] == f.par[k]
    ensures Owners(f, x) == Owners(g, x) + multiset{f.par[f.refs[x][i]]}
  {
    hide KidsOk, RefsOk, WellFounded;
    RefsLive(f, x);
    RefsLive(g, x);
    var s, t := HandleOwners(f.par, f.refs[x]), HandleOwners(g.par, g.refs[x]);
    OwnersWithout(f.par, g.par, f.refs[x], g.refs[x], i);
    hide HandleOwners;
    CutMultiset(s, t, i);
  }

  lemma OwnersWithout(p: ParentMap, q: ParentMap, s: seq<Ptr>, t: seq<Ptr>, i: nat)
    requires i < |s| && t == s[..i] + s[i + 1..]
    requires (forall h :: h in s ==> h in p) && forall h :: h in t ==> h in q
    requires forall h :: h in s && h in p && h in q ==> q[h] == p[h]
    ensures HandleOwners(q, t) == HandleOwners(p, s)[..i] + HandleOwners(p, s)[i + 1..]
    ensures |HandleOwners(p, s)| == |s| && HandleOwners(p, s)[i] == p[s[i]]
  {
    forall j | 0 <= j < |t|
      ensures q[t[j]] == p[s[if j < i then j else j + 1]]
    {
      assert t[j] in t && t[j] == s[if j < i then j else j + 1];
    }
  }

  /** Dropping a handle takes away one owner, its parent. */
  lemma ReleaseRemovesOwner(f: Forest, x: Ptr, i: nat)
    requires Ok(f) && x in f.par && i < |f.refs[x]|
    ensures f.refs[x][i] in f.hnd && f.par[f.refs[x][i]] in f.par && f.hnd[f.refs[x][i]] == x
    ensures var h := f.refs[x][i];
      && Ok(Release(f, h)) && x in Release(f, h).par && h !in Release(f, h).par
      && Owners(f, x) == Owners(Release(f, h), x) + multiset{f.par[h]}
      && forall y :: y in f.par && y != x && y != h ==>
        y in Release(f, h).par && Owners(Release(f, h), y) == Owners(f, y)
  {
    hide WellFounded, KidsOk, Owners;
    var h := f.refs[x][i];
    assert h in f.refs[x];
    ReleaseOk(f, h);
    var g := Release(f, h);
    WithoutAt(f.refs[x], i);
    assert h != x;
    hide RefsOk;
    RemovedOwner(f, g, x, i);
    forall y | y in f.par && y != x && y != h
      ensures Owners(g, y) == Owners(f, y)
    {
      SameOwners(f, g, y);
    }
  }

  lemma StealSwapsOwner(f: Forest, x: Ptr, p: Ptr)
    requires Ok(f) && x in f.par && x !in f.hnd && x !in f.busy && p in f.par && p != x && Ok(Steal(f, x, p))
    ensures var g := Steal(f, x, p);
      && x in g.par && Owners(g, x) + multiset{f.par[x]} == Owners(f, x) + multiset{p}
      && forall y :: y in f.par && y != x ==> y in g.par && Owners(g, y) == Owners(f, y)
  {
    hide KidsOk, RefsOk, WellFounded, Steal;
    StealPar(f, x, p);
    var g := Steal(f, x, p);
    RefsLive(f, x);
    RefsLive(g, x);
    assert HandleOwners(g.par, g.refs[x]) == HandleOwners(f.par, f.refs[x]);
    forall y | y in f.par && y != x
      ensures Owners(g, y) == Owners(f, y)
    {
      RefsLive(f, y);
      SameOwners(f, g, y);
    }
  }

  lemma NotAnOwner(f: Forest, x: Ptr, ctx: Ptr)
    requires Ok(f) && x in f.par && f.par[x] != ctx
    requires forall h :: h in f.refs[x] && h in f.par ==> f.par[h] != ctx
    ensures ctx !in Owners(f, x)
  {
    hide KidsOk, RefsOk, WellFounded;
    RefsLive(f, x);
    var s := HandleOwners(f.par, f.refs[x]);
    forall i | 0 <= i < |s|
      ensures s[i] != ctx
    {
      assert f.refs[x][i] in f.refs[x];
    }
    assert ctx !in s;
  }

  lemma OwnerCount(f: Forest, x: Ptr)
    requires Ok(f) && x in f.par
    ensures |Owners(f, x)| == 1 + |f.refs[x]|
    ensures f.par[x] in Owners(f, x)
    ensures f.refs[x] == [] ==> Owners(f, x) == multiset{f.par[x]}
  {
    hide KidsOk, RefsOk, WellFounded;
    RefsLive(f, x);
  }

  /** `talloc_unlink` succeeds exactly for an owner, unless it is the last one and the chunk refuses;
      it takes away that owner and nobody else's, even when the owner was the parent and a reference
      holder takes over; and the chunk is freed exactly when its last owner goes. Then what is outside
      its subtree stays where it is. */
  lemma UnlinkRemovesOwner(f: Forest, ctx: Ptr, x: Ptr)
    requires Unlinkable(f, x)
    ensures var (g, rc) := UnlinkResult(f, ctx, x);
      && Ok(g)
      && (rc == 0 <==> ctx in Owners(f, x) && (|Owners(f, x)| == 1 ==> x !in f.stubborn))
      && (rc != 0 ==> rc == -1 && g == f)
      && (rc == 0 ==> (x !in g.par <==> |Owners(f, x)| == 1))
      && (rc == 0 && x in g.par ==>
            && Owners(f, x) == Owners(g, x) + multiset{ctx}
            && g.par.Keys <= f.par.Keys && f.par.Keys - g.par.Keys <= f.hnd.Keys
            && forall y :: y in g.par && y != x ==> Owners(g, y) == Owners(f, y))
      && (rc == 0 && x !in g.par ==>
            forall y :: y in f.par && y !in Desc(f.par, x) && y !in f.hnd ==> y in g.par && g.par[y] == f.par[y])
  {
    hide KidsOk, RefsOk, WellFounded, Owners, Desc;
    RefsLive(f, x);
    OwnerCount(f, x);
    var i := FirstOwned(f.par, f.refs[x], ctx);
    if i < |f.refs[x]| {
      ReleaseRemovesOwner(f, x, i);
    } else if f.par[x] != ctx {
      NotAnOwner(f, x, ctx);
    } else if f.refs[x] == [] {
      assert Spec.FreePost(f, x, Spec.Free(f, x).0, Spec.Free(f, x).1);
    } else {
      UnlinkParent(f, x);
    }
  }

  lemma UnlinkParent(f: Forest, x: Ptr)
    requires Unlinkable(f, x) && f.refs[x] != [] && f.refs[x][0] in f.hnd && f.par[f.refs[x][0]] in f.par &&
      f.hnd[f.refs[x][0]] in f.par
    ensures var h := f.refs[x][0];
      && Ok(Release(f, h)) && x in Release(f, h).par
      && var g := Steal(Release(f, h), x, f.par[h]);
      && Ok(g) && x in g.par && g.par.Keys == f.par.Keys - {h}
      && Owners(f, x) == Owners(g, x) + multiset{f.par[x]}
      && forall y :: y in g.par && y != x ==> Owners(g, y) == Owners(f, y)
  {
    hide KidsOk, RefsOk, WellFounded, Owners, Desc, Steal;
    var h := f.refs[x][0];
    RefsLive(f, x);
    ReleaseRemovesOwner(f, x, 0);
    UnlinkTarget(f, x, h);
    StealSwapsOwner(Release(f, h), x, f.par[h]);
    StealPar(Release(f, h), x, f.par[h]);
  }
}
