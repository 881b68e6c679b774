/** Allocation, references and moved chunks: the abstract steps. */
module TallocGrow {
  import opened Sequences
  import opened TallocTrees
  import opened TallocForest

  /** A new chunk `c`, the first child of `p`, or a root if `p` is null. */
  ghost function NewChunk(f: Forest, c: Ptr, p: Ptr): Forest
    requires Shape(f) && (p == NULL || p in f.par)
  {
    var kids1 := f.kids[c := []];
    Forest(f.par[c := p], if p == NULL then kids1 else kids1[p := [c] + f.kids[p]],
           f.refs[c := []], f.hnd, f.busy, f.stubborn - {c})
  }

  lemma NewChunkShape(f: Forest, c: Ptr, p: Ptr)
    requires Shape(f) && c != NULL && (p == NULL || p in f.par)
    ensures Shape(NewChunk(f, c, p))
    ensures f.kids.Keys == f.par.Keys && NULL !in f.par && (c !in f.par ==> forall x :: x in f.par ==> f.par[x] != c)
  {
  }

  lemma NewChunkKidsOk(f: Forest, c: Ptr, p: Ptr)
    requires Shape(f) && KidsOk(f) && c !in f.par && c != NULL && (p == NULL || p in f.par)
    ensures Shape(NewChunk(f, c, p)) && KidsOk(NewChunk(f, c, p))
  {
    NewChunkShape(f, c, p);
    var g := NewChunk(f, c, p);
    hide Shape;
    if p != NULL {
      assert c !in f.kids[p];
      FrontDistinct(f.kids[p], c);
    }
    forall q, x {:trigger x in g.kids[q]} | q in g.kids && x in g.kids[q]
      ensures x in g.par && g.par[x] == q && x !in g.busy
    {
      assert (q in f.kids && x in f.kids[q]) || (q == p && x == c);
    }
    hide Distinct;
  }

  lemma NewChunkOk(f: Forest, c: Ptr, p: Ptr)
    requires Ok(f) && c !in f.par && c != NULL && (p == NULL || (p in f.par && p !in f.hnd))
    ensures Ok(NewChunk(f, c, p))
  {
    hide KidsOk, RefsOk;
    NewChunkKidsOk(f, c, p);
    NewChunkRefsOk(f, c, p);
    ExtendWellFounded(f.par, c, p);
  }

  lemma NewChunkRefsOk(f: Forest, c: Ptr, p: Ptr)
    requires Shape(f) && RefsOk(f) && c !in f.par && c != NULL && (p == NULL || (p in f.par && p !in f.hnd))
    requires Shape(NewChunk(f, c, p))
    ensures RefsOk(NewChunk(f, c, p))
  {
    var g := NewChunk(f, c, p);
    assert g.refs == f.refs[c := []] && g.hnd == f.hnd && g.busy == f.busy;
    forall h {:trigger g.hnd[h]} | h in g.hnd
      ensures g.kids[h] == [] && g.refs[h] == [] && g.par[h] == f.par[h]
    {
      assert f.hnd[h] in f.par && h != c;
    }
    forall x {:trigger g.par[x]} | x in g.par
      ensures g.par[x] !in g.hnd
    {
      assert x != c ==> f.par[x] !in f.hnd;
    }
    hide NewChunk;
  }

  /** Chunk `h`, a child, becomes a reference handle to `x`, the first of its list. */
  ghost function MakeHandle(f: Forest, h: Ptr, x: Ptr): Forest
    requires x in f.refs
  {
    f.(refs := f.refs[x := [h] + f.refs[x]], hnd := f.hnd[h := x])
  }

  lemma MakeHandleOk(f: Forest, h: Ptr, x: Ptr)
    requires Ok(f) && x in f.par && x !in f.hnd && x !in f.busy && h in f.par && h !in f.hnd && h != x
    requires f.par[h] != NULL && f.kids[h] == [] && f.refs[h] == [] && h !in f.busy && h !in f.stubborn
    requires forall y {:trigger f.par[y]} :: y in f.par ==> f.par[y] != h
    ensures Ok(MakeHandle(f, h, x))
  {
    MakeHandleRefsOk(f, h, x);
  }

  lemma MakeHandleRefsOk(f: Forest, h: Ptr, x: Ptr)
    requires Shape(f) && RefsOk(f) && x in f.par && x !in f.hnd && x !in f.busy && h in f.par && h !in f.hnd && h != x
    requires f.par[h] != NULL && f.kids[h] == [] && f.refs[h] == [] && h !in f.busy && h !in f.stubborn
    requires forall y {:trigger f.par[y]} :: y in f.par ==> f.par[y] != h
    requires Shape(MakeHandle(f, h, x))
    ensures RefsOk(MakeHandle(f, h, x))
  {
    var g := MakeHandle(f, h, x);
    assert h !in f.refs[x];
    FrontDistinct(f.refs[x], h);
    hide Distinct, Shape;
    forall y, k {:trigger k in g.refs[y]} | y in g.refs && k in g.refs[y]
      ensures k in g.hnd && g.hnd[k] == y
    {
      assert k in f.refs[y] || (y == x && k == h);
    }
    forall k {:trigger g.hnd[k]} | k in g.hnd
      ensures g.hnd[k] in g.par && k in g.refs[g.hnd[k]]
    {
      assert k != h ==> k in f.refs[f.hnd[k]];
    }
    forall k {:trigger g.hnd[k]} | k in g.hnd
      ensures g.par[k] != NULL && g.kids[k] == [] && g.refs[k] == [] && k !in g.busy && k !in g.stubborn
    {
      assert k != h ==> k in f.hnd && f.hnd[k] in f.par;
    }
    forall y {:trigger g.par[y]} | y in g.par
      ensures g.par[y] !in g.hnd
    {
      assert f.par[y] !in f.hnd;
    }
  }

  function Renamed(x: Ptr, c: Ptr, n: Ptr): Ptr {
    if x == c then n else x
  }

  function RenamedSeq(s: seq<Ptr>, c: Ptr, n: Ptr): seq<Ptr> {
    seq(|s|, i requires 0 <= i < |s| => Renamed(s[i], c, n))
  }

  /** Chunk `c` continues at address `n`. */
  ghost function Rename(f: Forest, c: Ptr, n: Ptr): Forest
    requires Shape(f) && c in f.par
  {
    Forest(
      (map x | x in f.par.Keys - {c} :: Renamed(f.par[x], c, n))[n := f.par[c]],
      (map x | x in f.par.Keys - {c} :: RenamedSeq(f.kids[x], c, n))[n := f.kids[c]],
      (f.refs - {c})[n := []], f.hnd, f.busy,
      if c in f.stubborn then f.stubborn - {c} + {n} else f.stubborn - {n})
  }

  lemma RenamedMember(s: seq<Ptr>, c: Ptr, n: Ptr, x: Ptr)
    requires n !in s
    ensures x in RenamedSeq(s, c, n) <==> (if x == n then c in s else x != c && x in s)
    ensures Distinct(s) ==> Distinct(RenamedSeq(s, c, n))
  {
    var t := RenamedSeq(s, c, n);
    if x in t {
      var i :| 0 <= i < |t| && t[i] == x;
      assert s[i] in s;
    }
    if x == n && c in s {
      var i :| 0 <= i < |s| && s[i] == c;
      assert t[i] == n;
    }
    if x != n && x != c && x in s {
      var i :| 0 <= i < |s| && s[i] == x;
      assert t[i] == x;
    }
  }

  lemma RenameWellFounded(f: Forest, c: Ptr, n: Ptr)
    requires Ok(f) && c in f.par && n !in f.par && n != NULL
    ensures WellFounded(Rename(f, c, n).par)
  {
    OwnParent(f, c);
    hide KidsOk, RefsOk, WellFounded, Grounded;
    var par1 := Rename(f, c, n).par;
    forall s | s <= par1.Keys && s != {}
      ensures Grounded(par1, s)
    {
      RenamedGrounded(f.par, par1, c, n, s);
    }
  }

  lemma RenamedGrounded(par: ParentMap, par1: ParentMap, c: Ptr, n: Ptr, s: set<Ptr>)
    requires WellFounded(par) && c in par && n !in par && n !in par.Values && s <= par1.Keys && s != {}
    requires par1 == (map x | x in par.Keys - {c} :: Renamed(par[x], c, n))[n := par[c]] && par[c] != c
    ensures Grounded(par1, s)
  {
    var t := if n in s then s - {n} + {c} else s;
    assert Grounded(par, t);
    var x :| x in t && x in par && par[x] !in t;
    var y := Renamed(x, c, n);
    assert y in s && y in par1 && par1[y] !in s;
  }

  lemma RenameListed(f: Forest, c: Ptr, n: Ptr, p: Ptr, x: Ptr)
    requires Ok(f) && c in f.par && n !in f.par && n != NULL && f.busy == {}
    requires p in Rename(f, c, n).kids && x in Rename(f, c, n).kids[p]
    ensures x in Rename(f, c, n).par && Rename(f, c, n).par[x] == p
  {
    hide WellFounded, RefsOk, RenamedSeq;
    if p != n {
      assert n !in f.kids[p];
      RenamedMember(f.kids[p], c, n, x);
    } else {
      OwnParent(f, c);
    }
  }

  lemma OwnParent(f: Forest, c: Ptr)
    requires Ok(f) && c in f.par
    ensures f.par[c] != c && c !in f.kids[c]
  {
    hide RefsOk;
    ParentNotBeneath(f.par, c);
    DescClosed(f.par, c);
  }

  lemma RenameLists(f: Forest, c: Ptr, n: Ptr, x: Ptr)
    requires Ok(f) && c in f.par && n !in f.par && n != NULL && f.busy == {}
    requires Shape(Rename(f, c, n)) && x in Rename(f, c, n).par && Rename(f, c, n).par[x] != NULL
    ensures x in Rename(f, c, n).kids[Rename(f, c, n).par[x]]
  {
    hide WellFounded, RefsOk, RenamedSeq;
    OwnParent(f, c);
    var y := if x == n then c else x;
    assert y in f.kids[f.par[y]];
    if f.par[y] != c {
      assert n !in f.kids[f.par[y]];
      RenamedMember(f.kids[f.par[y]], c, n, x);
    }
  }

  lemma RenameShape(f: Forest, c: Ptr, n: Ptr)
    requires Ok(f) && c in f.par && n !in f.par && n != NULL && f.busy == {} && c !in f.hnd
    ensures Shape(Rename(f, c, n))
  {
    hide WellFounded, RefsOk, KidsOk;
    OwnParent(f, c);
  }

  lemma RenameKidsOk(f: Forest, c: Ptr, n: Ptr)
    requires Ok(f) && c in f.par && n !in f.par && n != NULL && f.busy == {} && Shape(Rename(f, c, n))
    ensures KidsOk(Rename(f, c, n))
  {
    hide WellFounded, RefsOk, RenamedSeq, Rename;
    var g := Rename(f, c, n);
    assert g.busy == {} by { RenameBusy(f, c, n); }
    forall p, x {:trigger x in g.kids[p]} | p in g.kids && x in g.kids[p]
      ensures x in g.par && g.par[x] == p
    {
      RenameListed(f, c, n, p, x);
    }
    forall p | p in g.kids
      ensures Distinct(g.kids[p])
    {
      RenameDistinct(f, c, n, p);
    }
    forall x | x in g.par && g.par[x] != NULL
      ensures x in g.kids[g.par[x]]
    {
      RenameLists(f, c, n, x);
    }
  }

  lemma RenameBusy(f: Forest, c: Ptr, n: Ptr)
    requires Shape(f) && c in f.par
    ensures Rename(f, c, n).busy == f.busy
  {
  }

  lemma RenameDistinct(f: Forest, c: Ptr, n: Ptr, p: Ptr)
    requires Ok(f) && c in f.par && n !in f.par && p in Rename(f, c, n).kids
    ensures Distinct(Rename(f, c, n).kids[p])
  {
    hide WellFounded, RefsOk, RenamedSeq;
    if p != n {
      assert n !in f.kids[p];
      RenamedMember(f.kids[p], c, n, c);
    }
  }

  lemma RenameOk(f: Forest, c: Ptr, n: Ptr)
    requires Ok(f) && c in f.par && n !in f.par && n != NULL && f.busy == {}
    requires c !in f.hnd && f.refs[c] == []
    ensures Ok(Rename(f, c, n))
  {
    hide KidsOk, WellFounded;
    RenameShape(f, c, n);
    RenameKidsOk(f, c, n);
    RenameWellFounded(f, c, n);
  }
}
