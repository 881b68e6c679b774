/** Trees of chunks as parent maps.

    A chunk is named by its address; 0 is the null pointer. The trees are given by a parent
    map alone. Ancestry is defined by closed sets instead of by recursion: `Desc(par, c)` is the
    least set that contains `c` and every chunk whose parent it contains. */
module TallocTrees {
  type Ptr = nat

  const NULL: Ptr := 0

  type ParentMap = map<Ptr, Ptr>

  ghost predicate DownClosed(par: ParentMap, s: set<Ptr>) {
    forall x {:trigger par[x]} :: x in par && par[x] in s ==> x in s
  }

  ghost predicate Grounded(par: ParentMap, s: set<Ptr>) {
    exists x :: x in s && x in par && par[x] !in s
  }

  /** No chunk is its own ancestor: every non-empty set of chunks holds one whose parent is elsewhere. */
  ghost predicate WellFounded(par: ParentMap) {
    forall s {:trigger Grounded(par, s)} :: s <= par.Keys && s != {} ==> Grounded(par, s)
  }

  ghost predicate Beneath(par: ParentMap, x: Ptr, c: Ptr) {
    forall s {:trigger DownClosed(par, s)} :: c in s && DownClosed(par, s) ==> x in s
  }

  /** The subtree of `c`, `c` included. */
  ghost function Desc(par: ParentMap, c: Ptr): set<Ptr> {
    set x | x in par.Keys && Beneath(par, x, c)
  }

  lemma DescClosed(par: ParentMap, c: Ptr)
    ensures DownClosed(par, Desc(par, c))
    ensures c in par ==> c in Desc(par, c)
  {
    forall x | x in par && par[x] in Desc(par, c)
      ensures x in Desc(par, c)
    {
      forall s | c in s && DownClosed(par, s)
        ensures x in s
      {
        assert par[x] in s;
      }
    }
  }

  lemma DescLeast(par: ParentMap, c: Ptr, s: set<Ptr>)
    requires c in s && DownClosed(par, s)
    ensures Desc(par, c) <= s
  {
  }

  /** Every chunk of a subtree but its root has its parent in the subtree. */
  lemma DescParent(par: ParentMap, c: Ptr, x: Ptr)
    requires c in par && x in Desc(par, c) && x != c
    ensures par[x] in Desc(par, c)
  {
    DescClosed(par, c);
    if par[x] !in Desc(par, c) {
      var s := Desc(par, c) - {x};
      assert DownClosed(par, s);
      assert false;
    }
  }

  lemma ParentNotBeneath(par: ParentMap, c: Ptr)
    requires WellFounded(par) && c in par
    ensures par[c] !in Desc(par, c)
  {
    DescClosed(par, c);
    if par[c] in Desc(par, c) {
      var s := Desc(par, c);
      assert Grounded(par, s);
      var x :| x in s && x in par && par[x] !in s;
      DescParent(par, c, x);
    }
  }

  lemma DescTransitive(par: ParentMap, b: Ptr, c: Ptr)
    requires b in Desc(par, c)
    ensures Desc(par, b) <= Desc(par, c)
  {
    DescClosed(par, c);
    DescLeast(par, b, Desc(par, c));
  }

  /** A chunk moves, with its subtree, under a chunk outside that subtree (or becomes a root). */
  lemma ReparentWellFounded(par: ParentMap, c: Ptr, p: Ptr)
    requires WellFounded(par) && c in par && NULL !in par
    requires p !in Desc(par, c)
    ensures WellFounded(par[c := p])
  {
    var par1 := par[c := p];
    DescClosed(par, c);
    forall s | s <= par1.Keys && s != {}
      ensures Grounded(par1, s)
    {
      if c !in s {
        assert Grounded(par, s);
        var x :| x in s && x in par && par[x] !in s;
        assert par1[x] !in s;
      } else if p !in s {
        assert par1[c] !in s;
      } else {
        var s1 := s - Desc(par, c);
        assert p in s1;
        assert Grounded(par, s1);
        var x :| x in s1 && x in par && par[x] !in s1;
        assert par[x] !in Desc(par, c);
        assert par1[x] !in s;
      }
    }
  }

  /** Removing a chunk without children, or adding a fresh one, keeps the trees well founded. */
  lemma RestrictWellFounded(par: ParentMap, par1: ParentMap)
    requires WellFounded(par) && par1.Keys <= par.Keys
    requires forall x :: x in par1 ==> par1[x] == par[x]
    ensures WellFounded(par1)
  {
    forall s | s <= par1.Keys && s != {}
      ensures Grounded(par1, s)
    {
      assert Grounded(par, s);
      var x :| x in s && x in par && par[x] !in s;
      assert par1[x] !in s;
    }
  }

  lemma ExtendWellFounded(par: ParentMap, c: Ptr, p: Ptr)
    requires WellFounded(par) && c !in par && p != c
    requires forall x :: x in par ==> par[x] != c
    ensures WellFounded(par[c := p])
  {
    var par1 := par[c := p];
    forall s | s <= par1.Keys && s != {}
      ensures Grounded(par1, s)
    {
      var s1 := s - {c};
      if s1 == {} {
        assert s == {c};
        assert par1[c] !in s;
      } else {
        assert Grounded(par, s1);
        var x :| x in s1 && x in par && par[x] !in s1;
        assert par1[x] !in s;
      }
    }
  }

  /** If parents change only inside the subtree of `c`, that subtree does not grow. */
  lemma DescShrinks(par: ParentMap, par1: ParentMap, c: Ptr)
    requires c in par
    requires forall x {:trigger par1[x]} :: x in par1 && x !in Desc(par, c) ==> x in par && par1[x] == par[x]
    ensures Desc(par1, c) <= Desc(par, c)
  {
    DescClosed(par, c);
    var s := Desc(par, c);
    forall x | x in par1 && x !in s
      ensures par1[x] !in s
    {
      assert par1[x] == par[x];
    }
    DescLeast(par1, c, s);
  }

  /** A set of chunks that all have their parents in the set is empty. */
  lemma UpClosedEmpty(par: ParentMap, s: set<Ptr>)
    requires WellFounded(par) && s <= par.Keys
    requires forall x {:trigger par[x]} :: x in s ==> par[x] in s
    ensures s == {}
  {
    assert s != {} ==> Grounded(par, s);
  }

  /** Hanging further chunks, none below another of them, into well-founded trees. */
  lemma LeavesWellFounded(par: ParentMap, par1: ParentMap)
    requires WellFounded(par) && par.Keys <= par1.Keys
    requires forall x {:trigger par[x]} :: x in par ==> par1[x] == par[x] && (par[x] in par1 ==> par[x] in par)
    requires forall x {:trigger par1[x]} :: x in par1 && x !in par ==> par1[x] !in par1 || par1[x] in par
    ensures WellFounded(par1)
  {
    forall s | s <= par1.Keys && s != {}
      ensures Grounded(par1, s)
    {
      var t := s * par.Keys;
      if t == {} {
        var h :| h in s;
        assert forall x :: x in s ==> x !in t;
        assert par1[h] !in s;
      } else {
        assert Grounded(par, t);
        var x :| x in t && x in par && par[x] !in t;
        assert par1[x] !in s;
      }
    }
  }
}
