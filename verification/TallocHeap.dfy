/** The allocator's operations on chunk headers in memory. */
module TallocHeap {
  import opened Sequences
  import opened TallocTrees
  import opened TallocForest
  import opened TallocMemory
  import opened TallocHandles
  import opened TallocGrow
  import opened TallocMoves
  import opened TallocOwners
  import Spec = TallocFree

  const MAX_TALLOC_SIZE := 0x1000_0000
  const HANDLE_SIZE := 24

  /** If `c` is not the first on its list, its left neighbour survives the freeing of `c`. */
  ghost predicate SafePlace(f: Forest, c: Ptr)
    requires Shape(f) && c in f.par
  {
    f.par[c] != NULL && c !in f.busy && f.kids[c] != [] ==>
      forall i {:trigger f.kids[f.par[c]][i]} :: 0 < i < |f.kids[f.par[c]]| && f.kids[f.par[c]][i] == c ==>
        f.kids[f.par[c]][i - 1] !in f.hnd && f.par[c] !in f.busy
  }

  /** No chunk being freed relies on `c` to find its former parent. */
  ghost predicate NotRelied(f: Forest, c: Ptr)
    requires Shape(f) && c in f.par
  {
    c in f.hnd || f.busy == {} || f.par[c] in f.busy
  }

  lemma NotReliedPrev(mem: Memory, f: Forest, c: Ptr)
    requires Ok(f) && Links(mem, f) && c in f.par && c !in f.busy && NotRelied(f, c)
    requires forall b :: b in f.busy ==> f.par[b] != c
    ensures forall b :: b in f.busy ==> f.par[b] != c && mem[b].prev != c
  {
    hide WellFounded, RefsOk;
  }

  /** The chunks above `x`, `x` included. */
  ghost function Above(par: ParentMap, x: Ptr): set<Ptr> {
    set y | y in par && x in Desc(par, y)
  }

  lemma AboveShrinks(par: ParentMap, x: Ptr)
    requires WellFounded(par) && x in par && par[x] in par
    ensures Above(par, par[x]) < Above(par, x)
  {
    DescClosed(par, x);
    ParentNotBeneath(par, x);
    forall y | y in Above(par, par[x])
      ensures y in Above(par, x)
    {
      DescClosed(par, y);
    }
    assert x in Above(par, x);
    if x in Above(par, par[x]) { assert false; }
  }

  class Heap {
    var mem: Memory
    ghost var forest: Forest

    ghost predicate Coherent()
      reads this
    {
      Ok(forest) && Represents(mem, forest)
    }

    /** Between calls nothing is being freed. */
    ghost predicate Valid()
      reads this
    {
      Coherent() && forest.busy == {}
    }

    constructor ()
      ensures Valid() && forest == Forest(map[], map[], map[], map[], {}, {})
    {
      mem := map[];
      forest := Forest(map[], map[], map[], map[], {}, {});
    }

    /** `talloc_parent_chunk`. */
    method ParentChunk(ptr: Ptr) returns (p: Ptr)
      requires Coherent() && ptr in mem
      ensures p == forest.par[ptr]
    {
      hide WellFounded, RefsOk, RefLinks, LoopFlags, ChildHeads;
      var tc := ptr;
      ghost var q := forest.par[ptr];
      ghost var s := if q == NULL then [] else forest.kids[q];
      ghost var i := |s|;
      if ptr !in forest.busy && q != NULL {
        i := KidIndex(forest, ptr);
      }
      while mem[tc].prev != NULL
        invariant tc in mem && 0 <= i <= |s|
        invariant if i < |s| then q != NULL && s[i] == tc else tc == ptr && (ptr in forest.busy || q == NULL)
        decreases i
      {
        tc := mem[tc].prev;
        if i == |s| {
          i :| 0 <= i < |s| && s[i] == tc;
        } else {
          assert s[i] in mem;
          i := i - 1;
        }
        assert s[i] in s && s[i] in mem;
      }
      p := mem[tc].parent;
      if i < |s| {
        assert s[i] in mem;
        assert i > 0 ==> s[i - 1] in s;
      }
    }

    /** `talloc_is_parent`: is `ptr` above `context`, or `context` itself? */
    method IsParent(context: Ptr, ptr: Ptr) returns (r: bool)
      requires Coherent() && context in mem && ptr in mem
      ensures r <==> context in Desc(forest.par, ptr)
    {
      hide KidsOk, RefsOk, RefLinks;
      DescClosed(forest.par, ptr);
      var tc := context;
      while tc != NULL
        invariant tc == NULL || tc in mem
        invariant context in Desc(forest.par, ptr) <==> tc in Desc(forest.par, ptr)
        decreases if tc == NULL then -1 else |Above(forest.par, tc)|
      {
        if tc == ptr { return true; }
        var p := ParentChunk(tc);
        if p != NULL {
          AboveShrinks(forest.par, tc);
          Spec.SubsetSmaller(Above(forest.par, p), Above(forest.par, tc));
        }
        if tc in Desc(forest.par, ptr) {
          DescParent(forest.par, ptr, tc);
        }
        tc := p;
      }
      return false;
    }

    /** Takes `tc` off its parent's child list. */
    method Unlist(tc: Ptr)
      requires Coherent() && tc in mem && tc !in forest.busy
      requires forall b :: b in forest.busy ==> forest.par[b] != tc && mem[b].prev != tc
      modifies this`mem
      ensures Linkable(old(mem), tc) && mem == UnlinkedMemory(old(mem), tc)
      ensures OffList(mem, forest, tc) && mem[tc].prev == old(mem[tc].prev)
      ensures RefLinks(mem, forest) && LoopFlags(mem, forest)
      ensures mem.Keys == old(mem).Keys && KeepsSizes(mem, old(mem))
    {
      hide WellFounded, KidsOk, RefsOk, RefLinks, LoopFlags, OffList, KeepsSizes;
      UnlinkOffList(mem, forest, tc);
      var parent, prev, next := mem[tc].parent, mem[tc].prev, mem[tc].next;
      if parent != NULL {
        mem := mem[parent := mem[parent].(child := next)];
        if next != NULL {
          mem := mem[next := mem[next].(prev := NULL)];
        }
        mem := mem[tc := mem[tc].(next := NULL, prev := NULL)];
        if mem[parent].child != NULL {
          mem := mem[mem[parent].child := mem[mem[parent].child].(parent := parent)];
        }
      } else {
        if prev != NULL {
          mem := mem[prev := mem[prev].(next := next)];
        }
        if next != NULL {
          mem := mem[next := mem[next].(prev := prev)];
        }
      }
      assert mem == UnlinkedMemory(old(mem), tc);
      UnlinkedKeeps(old(mem), tc);
      UnlinkSameRefs(old(mem), forest, tc);
    }

    /** Makes an unlinked chunk the first child of `parent`. */
    method PushFront(tc: Ptr, parent: Ptr)
      requires tc in mem && parent in mem && tc != parent && tc != NULL
      requires mem[parent].child != NULL ==>
        mem[parent].child in mem && mem[parent].child != tc && mem[parent].child != parent
      modifies this`mem
      ensures mem == PushedMemory(old(mem), tc, parent)
    {
      mem := mem[tc := mem[tc].(parent := parent)];
      var first := mem[parent].child;
      if first != NULL {
        mem := mem[first := mem[first].(parent := NULL)];
      }
      // the list is extended at its front
      if first == NULL {
        mem := mem[parent := mem[parent].(child := tc)];
        mem := mem[tc := mem[tc].(next := NULL, prev := NULL)];
      } else {
        mem := mem[first := mem[first].(prev := tc)];
        mem := mem[tc := mem[tc].(next := first)];
        mem := mem[tc := mem[tc].(prev := NULL)];
        mem := mem[parent := mem[parent].(child := tc)];
      }
    }

    /** `talloc_steal`. */
    method Steal(newCtx: Ptr, ptr: Ptr)
      requires Coherent() && ptr in mem && ptr !in forest.busy && ptr !in forest.hnd
      requires NotRelied(forest, ptr) && (forall b :: b in forest.busy ==> forest.par[b] != ptr)
      requires newCtx == NULL || newCtx == ptr ||
        (newCtx in mem && newCtx !in forest.hnd && newCtx !in Desc(forest.par, ptr))
      modifies this
      ensures Coherent() && forest == TallocForest.Steal(old(forest), ptr, newCtx)
      ensures KeepsSizes(mem, old(mem))
    {
      hide WellFounded, KidsOk, RefsOk, RefLinks, LoopFlags, OffList, KidLinks, ChildHeads, RootLinks, StaleLinks;
      hide TallocForest.Steal, KeepsSizes, UnlinkedMemory, PushedMemory;
      NotReliedPrev(mem, forest, ptr);
      SameKeeps(mem);
      if newCtx == NULL {
        Unlist(ptr);
        StolenRoot(mem, forest, ptr);
        RootKeeps(old(mem), mem, ptr);
        mem := mem[ptr := mem[ptr].(parent := NULL, next := NULL, prev := NULL)];
        forest := TallocForest.Steal(forest, ptr, NULL);
        return;
      }
      StealSame(mem, forest, ptr, newCtx);
      if ptr == newCtx || mem[ptr].parent == newCtx {
        return;
      }
      Unlist(ptr);
      StolenPush(mem, forest, ptr, newCtx);
      PushedKeeps(old(mem), mem, ptr, newCtx);
      PushFront(ptr, newCtx);
      forest := TallocForest.Steal(forest, ptr, newCtx);
    }

    /** Removes `h` from the list of handles of `x`. */
    method Remove(x: Ptr, h: Ptr)
      requires Droppable(mem, x, h)
      modifies this`mem
      ensures Droppable(old(mem), x, h) && mem == DroppedMemory(old(mem), x, h)
    {
      var next, prev := mem[h].refNext, mem[h].refPrev;
      if h == mem[x].refs {
        mem := mem[x := mem[x].(refs := next)];
        if next != NULL {
          mem := mem[next := mem[next].(refPrev := NULL)];
        }
      } else {
        if prev != NULL {
          mem := mem[prev := mem[prev].(refNext := next)];
        }
        if next != NULL {
          mem := mem[next := mem[next].(refPrev := prev)];
        }
      }
      mem := mem[h := mem[h].(refNext := NULL, refPrev := NULL)];
    }

    /** The destructor of a reference handle: takes it off the list of its referent. */
    method DropReference(h: Ptr)
      requires Coherent() && h in forest.hnd
      modifies this
      ensures Droppable(old(mem), old(forest).hnd[h], h)
      ensures mem == ReleasedMemory(old(mem), old(forest).hnd[h], h)
      ensures Coherent() && forest == DropRef(old(forest), h)
      ensures forall y {:trigger mem[y]} :: y in mem ==> y in old(mem) && SameKidFields(mem[y], old(mem)[y])
      ensures KeepsSizes(mem, old(mem))
    {
      hide WellFounded, KidsOk, RefLinks, LoopFlags, KidLinks, ChildHeads, RootLinks, StaleLinks, ReleasedMemory;
      DropRefCoherent(mem, forest, h);
      hide RefsOk, Shape, DroppedMemory;
      ghost var m0 := mem;
      var x := mem[h].referent;
      Remove(x, h);
      mem := mem[h := mem[h].(destructor := NoDestructor)];
      forest := DropRef(forest, h);
      ReleasedIs(m0, x, h);
      forall y {:trigger mem[y]} | y in m0
        ensures SameKidFields(mem[y], m0[y])
      {
        ReleasedField(m0, x, h, y);
      }
    }

    /** `_talloc_free`. */
    method Free(ptr: Ptr) returns (rc: int)
      requires Coherent() && Spec.Freeable(forest, ptr) && SafePlace(forest, ptr) && NotRelied(forest, ptr)
      modifies this
      ensures Coherent() && (forest, rc) == Spec.Free(old(forest), ptr) && KeepsSizes(mem, old(mem))
      decreases |forest.par|, if ptr in forest.hnd then 0 else |Desc(forest.par, ptr)|, 2
    {
      hide WellFounded, KidsOk, RefsOk, RefLinks, LoopFlags, Links, SingleRefs, Desc, SafePlace, NotRelied, KeepsSizes;
      hide Shape, Spec.Free, Spec.Freeable, Release;
      FreeFacts(mem, forest, ptr);
      if mem[ptr].refs != NULL {
        ReferencedMemory(mem, forest, ptr);
        FreeReferenced(forest, ptr);
        FreeHandleIs(forest, forest.refs[ptr][0]);
        SafePlaceKept(forest, ptr);
        var handle := mem[ptr].refs;
        var isChild := IsParent(handle, ptr);
        var _ := Free(handle);
        if isChild {
          ghost var m := mem;
          rc := Free(ptr);
          KeepsMore(mem, m, old(mem));
        } else {
          rc := -1;
        }
        return;
      }
      if mem[ptr].loop {
        // never reached: a chunk that is being freed is on no child list
        assert false;
      }
      rc := FreeUnreferenced(ptr);
    }

    /** The part of `_talloc_free` up to the loop over the children, for a chunk that is freed. */
    method UnlinkForFree(ptr: Ptr)
      requires Coherent() && Spec.Freeable(forest, ptr) && SafePlace(forest, ptr) && NotRelied(forest, ptr)
      requires forest.refs[ptr] == [] && ptr !in forest.stubborn
      modifies this
      ensures forest == Spec.Unlinked(old(forest), ptr) && Ok(forest) && AlmostRepresents(mem, forest, ptr)
      ensures forest.kids[ptr] != [] ==> Represents(mem, forest)
      ensures KeepsSizes(mem, old(mem))
    {
      hide WellFounded, KidsOk, RefsOk, RefLinks, LoopFlags, KidLinks, ChildHeads, RootLinks, StaleLinks, SingleRefs;
      hide Desc, SafePlace, OffList, NotRelied, AlmostRepresents, KeepsSizes, UnlinkedMemory, ReleasedMemory;
      FreeFacts(mem, forest, ptr);
      UnlistFacts(mem, forest, ptr);
      Spec.UnlinkedOk(forest, ptr);
      ghost var m := mem;
      SameKeeps(m);
      match mem[ptr].destructor {
        case UserDestructor(refuses) =>
          mem := mem[ptr := mem[ptr].(destructor := NoDestructor)];
          DestructorRun(m, forest, ptr, mem);
          DestructorKeeps(m, ptr);
        case ReferenceDestructor =>
          DropReference(ptr);
        case NoDestructor =>
      }
      ghost var m1 := mem;
      Unlist(ptr);
      UnlistedMarked(mem, forest, ptr);
      KeepsMore(mem, m1, m);
      MarkedKeeps(m, mem, ptr);
      mem := mem[ptr := mem[ptr].(loop := true)];
      forest := Detach(forest, ptr);
    }

    /** The rest of `_talloc_free`, for a chunk without references. */
    method FreeUnreferenced(ptr: Ptr) returns (rc: int)
      requires Coherent() && Spec.Freeable(forest, ptr) && SafePlace(forest, ptr) && NotRelied(forest, ptr)
      requires forest.refs[ptr] == []
      modifies this
      ensures Coherent() && (forest, rc) == Spec.Free(old(forest), ptr) && KeepsSizes(mem, old(mem))
      decreases |forest.par|, if ptr in forest.hnd then 0 else |Desc(forest.par, ptr)|, 1
    {
      hide WellFounded, KidsOk, RefsOk, RefLinks, LoopFlags, KidLinks, ChildHeads, RootLinks, StaleLinks, SingleRefs;
      hide Desc, SafePlace, NotRelied, AlmostRepresents, Shape, Spec.Shrunk, Spec.Free, Spec.FreeKids;
      hide Spec.Unlinked, Delete, Detach, KeepsSizes;
      FreeFacts(mem, forest, ptr);
      SameKeeps(mem);
      if mem[ptr].destructor == UserDestructor(true) {
        FreeRefused(forest, ptr);
        return -1;
      }
      FreedInSteps(forest, ptr);
      UnlinkForFree(ptr);
      KeysOfAlmost(mem, forest, ptr);
      if mem[ptr].child != NULL {
        ghost var m := mem;
        EmptyKids(ptr);
        AlmostFromAll(mem, forest, ptr);
        KeepsMore(mem, m, old(mem));
      }
      KeysOfAlmost(mem, forest, ptr);
      DeletedRepresents(mem, forest, ptr);
      DeletedKeeps(old(mem), mem, ptr);
      mem := mem - {ptr};
      forest := Delete(forest, ptr);
      rc := 0;
    }

    /** What `_talloc_free` does to a reference handle, which has neither children nor references. */
    method FreeHandle(h: Ptr)
      requires Coherent() && h in forest.hnd
      modifies this
      ensures Coherent() && forest.par.Keys == old(forest).par.Keys - {h}
      ensures Shape(old(forest)) && old(forest).par[h] in old(forest).par && old(forest).hnd[h] in old(forest).par
      ensures forest == Release(old(forest), h) && KeepsSizes(mem, old(mem))
    {
      hide WellFounded, KidsOk, RefsOk, RefLinks, LoopFlags, KidLinks, ChildHeads, RootLinks, StaleLinks, SingleRefs;
      hide OffList, AlmostRepresents, KeepsSizes, UnlinkedMemory, ReleasedMemory;
      HandleUnlisted(mem, forest, h);
      DropReference(h);
      ghost var m := mem;
      Unlist(h);
      KeepsMore(mem, m, old(mem));
      UnlistedMarked(mem, forest, h);
      MarkedKeeps(old(mem), mem, h);
      mem := mem[h := mem[h].(loop := true)];
      forest := Detach(forest, h);
      DeletedRepresents(mem, forest, h);
      DeletedKeeps(old(mem), mem, h);
      mem := mem - {h};
      forest := Delete(forest, h);
    }

    /** The loop that frees the children of `tc`. */
    method EmptyKids(tc: Ptr)
      requires Coherent() && Spec.Emptiable(forest, tc) && (tc in forest.busy || forest.busy == {})
      modifies this
      ensures Coherent() && forest == Spec.FreeKids(old(forest), tc) && KeepsSizes(mem, old(mem))
      decreases |forest.par|, |Desc(forest.par, tc)|, 0
    {
      hide WellFounded, KidsOk, RefsOk, RefLinks, LoopFlags, Links, SingleRefs, Desc, SafePlace, NotRelied;
      hide Shape, Spec.Free, Spec.Freeable, Spec.Emptiable, Spec.FreeKids, Spec.AfterKid, Spec.FreePost;
      hide TallocForest.Steal;
      hide KeepsSizes;
      ghost var f0 := forest;
      SameKeeps(mem);
      HeadOfKids(mem, forest, tc);
      while mem[tc].child != NULL
        invariant Coherent() && Spec.Emptiable(forest, tc) && (tc in forest.busy || forest.busy == {})
        invariant tc in mem && tc in forest.kids && mem[tc].child == Head(forest.kids[tc]) && NULL !in forest.kids[tc]
        invariant Spec.FreeKids(forest, tc) == Spec.FreeKids(f0, tc) && KeepsSizes(mem, old(mem))
        invariant |forest.par| < |f0.par| || (|forest.par| == |f0.par| && |Desc(forest.par, tc)| <= |Desc(f0.par, tc)|)
        decreases |forest.par|, |Desc(forest.par, tc)|
      {
        var child := mem[tc].child;
        ghost var f, m := forest, mem;
        KidFacts(mem, f, tc, child);
        var newParent := NULL;
        if mem[child].refs != NULL {
          newParent := ParentChunk(mem[child].refs);
        }
        var rc := Free(child);
        KeepsMore(mem, m, old(mem));
        m := mem;
        ghost var g := forest;
        AfterKidFacts(mem, f, tc, child, g, rc);
        if rc == -1 {
          if newParent == NULL {
            newParent := ParentChunk(tc);
          }
          Steal(newParent, child);
          KeepsMore(mem, m, old(mem));
        }
        HeadOfKids(mem, forest, tc);
      }
      EmptiedKids(forest, tc);
    }

    /** `talloc_free_children`, for a chunk that is not a pool. */
    method FreeChildren(ptr: Ptr)
      requires Valid() && (ptr != NULL ==> Spec.Emptiable(forest, ptr))
      modifies this
      ensures Valid()
      ensures forest == if ptr == NULL then old(forest) else Spec.FreeKids(old(forest), ptr)
      ensures KeepsSizes(mem, old(mem))
    {
      if ptr != NULL {
        EmptyKids(ptr);
      }
    }

    /** `__talloc`, with `at` the address that `malloc` returns. */
    method Alloc(context: Ptr, size: nat, at: Ptr) returns (r: Ptr)
      requires Valid() && (context != NULL ==> context in mem && context !in forest.hnd) && at !in mem && at != NULL
      modifies this
      ensures Valid()
      ensures size >= MAX_TALLOC_SIZE ==> r == NULL && mem == old(mem) && forest == old(forest)
      ensures Shape(old(forest)) && (context != NULL ==> context in old(forest).par)
      ensures size < MAX_TALLOC_SIZE ==> r == at && forest == NewChunk(old(forest), at, context)
      ensures size < MAX_TALLOC_SIZE ==> Allocated(mem, old(mem), at, context, size)
    {
      hide WellFounded, KidsOk, RefsOk, RefLinks, LoopFlags, Links, NewChunk, PushedMemory, AddsSize;
      KeysOfLinks(mem, forest);
      if size >= MAX_TALLOC_SIZE { return NULL; }
      AllocCoherent(mem, forest, at, context, size);
      NewKeeps(mem, at, context, size);
      hide Shape, Represents;
      ghost var m1 := mem[at := NewHeader(size)];
      mem := mem[at := Chunk(NULL, NULL, NULL, NULL, NULL, NULL, NULL, NULL, NoDestructor, false, size)];
      if context != NULL {
        var first := mem[context].child;
        if first != NULL {
          mem := mem[first := mem[first].(parent := NULL)];
          mem := mem[at := mem[at].(next := first)];
          mem := mem[first := mem[first].(prev := at)];
        } else {
          mem := mem[at := mem[at].(next := NULL)];
        }
        mem := mem[at := mem[at].(parent := context, prev := NULL)];
        mem := mem[context := mem[context].(child := at)];
        PushedIs(m1, at, context, mem);
      } else {
        mem := mem[at := mem[at].(next := NULL, prev := NULL, parent := NULL)];
        assert mem == m1;
      }
      forest := NewChunk(forest, at, context);
      r := at;
    }

    /** `talloc_set_destructor`, with a destructor whose answer is always `refuses`. */
    method SetDestructor(ptr: Ptr, refuses: bool)
      requires Valid() && ptr in mem && ptr !in forest.hnd
      modifies this
      ensures Valid()
      ensures forest == old(forest).(stubborn :=
        if refuses then old(forest).stubborn + {ptr} else old(forest).stubborn - {ptr})
      ensures KeepsSizes(mem, old(mem))
    {
      hide WellFounded, KidsOk, RefLinks, LoopFlags, Links;
      DestructorSet(mem, forest, ptr, refuses);
      mem := mem[ptr := mem[ptr].(destructor := UserDestructor(refuses))];
      forest := forest.(stubborn := if refuses then forest.stubborn + {ptr} else forest.stubborn - {ptr});
    }

    /** `_talloc_reference`. */
    method Reference(context: Ptr, ptr: Ptr, at: Ptr) returns (r: Ptr)
      requires Valid() && context in mem && context !in forest.hnd && at !in mem && at != NULL
      requires ptr != NULL ==> ptr in mem && ptr !in forest.hnd
      modifies this
      ensures Valid() && r == ptr
      ensures ptr == NULL ==> mem == old(mem) && forest == old(forest)
      ensures Shape(old(forest)) && context in old(forest).par && (ptr != NULL ==> ptr in old(forest).par)
      ensures ptr != NULL ==> forest == ReferenceResult(old(forest), context, ptr, at)
      ensures ptr != NULL ==> AddsSize(mem, old(mem), at, HANDLE_SIZE)
    {
      hide WellFounded, KidsOk, RefsOk, RefLinks, LoopFlags, Links, NewChunk, AddedMemory, PushedMemory, NewMemory;
      hide AddsSize;
      KeysOfLinks(mem, forest);
      if ptr == NULL { return NULL; }
      ReferenceOk(forest, context, ptr, at);
      var handle := Alloc(context, HANDLE_SIZE, at);
      HandleReady(old(forest), context, ptr, at);
      MakeHandleRepresents(mem, forest, handle, ptr);
      ghost var m1 := mem;
      mem := mem[handle := mem[handle].(destructor := ReferenceDestructor)];
      mem := mem[handle := mem[handle].(referent := ptr)];
      var first := mem[ptr].refs;
      if first == NULL {
        mem := mem[ptr := mem[ptr].(refs := handle)];
        mem := mem[handle := mem[handle].(refNext := NULL, refPrev := NULL)];
      } else {
        mem := mem[first := mem[first].(refPrev := handle)];
        mem := mem[handle := mem[handle].(refNext := first)];
        mem := mem[handle := mem[handle].(refPrev := NULL)];
        mem := mem[ptr := mem[ptr].(refs := handle)];
      }
      AddableHandle(m1, forest, handle, ptr);
      AddedIs(m1, ptr, handle, mem);
      AddedKeeps(old(mem), m1, ptr, handle);
      forest := MakeHandle(forest, handle, ptr);
      r := mem[handle].referent;
    }

    /** `talloc_unreference`. */
    method Unreference(context: Ptr, ptr: Ptr) returns (rc: int)
      requires Valid() && ptr in mem
      modifies this
      ensures Ok(old(forest)) && ptr in old(forest).par
      ensures Valid() && (forest, rc) == UnreferenceResult(old(forest), context, ptr)
      ensures KeepsSizes(mem, old(mem)) && (rc != 0 ==> mem == old(mem))
    {
      hide WellFounded, KidsOk, RefsOk, LoopFlags, Links;
      hide RefLinks, KeepsSizes;
      SameKeeps(mem);
      KeysOfLinks(mem, forest);
      RefsHead(mem, forest, ptr);
      RefsLive(forest, ptr);
      ghost var s := forest.refs[ptr];
      ghost var i := 0;
      var h := mem[ptr].refs;
      while h != NULL
        invariant 0 <= i <= |s| && h == (if i < |s| then s[i] else NULL)
        invariant forall k :: 0 <= k < i && s[k] in forest.par ==> forest.par[s[k]] != context
        decreases |s| - i
        modifies {}
      {
        NextHandle(mem, forest, ptr, i);
        var p := ParentChunk(h);
        if p == NULL {
          if context == NULL { break; }
        } else if p == context {
          break;
        }
        h := mem[h].refNext;
        i := i + 1;
      }
      NoNullHandle(forest, ptr);
      assert i < |s| ==> s[i] in s;
      assert FirstOwned(forest.par, s, context) == i;
      if h == NULL {
        return -1;
      }
      FreeHandle(h);
      rc := 0;
    }

    /** `talloc_unlink`. */
    method UnlinkContext(context: Ptr, ptr: Ptr) returns (rc: int)
      requires Valid() && (ptr != NULL ==> Unlinkable(forest, ptr) && SafePlace(forest, ptr))
      modifies this
      ensures Valid() && (ptr == NULL ==> rc == -1 && forest == old(forest))
      ensures ptr != NULL ==> (forest, rc) == UnlinkResult(old(forest), context, ptr)
      ensures KeepsSizes(mem, old(mem))
    {
      hide WellFounded, KidsOk, RefsOk, RefLinks, LoopFlags, Links, SafePlace, SingleRefs, TallocForest.Steal;
      hide Spec.Free, Desc;
      hide KeepsSizes;
      SameKeeps(mem);
      if ptr == NULL { return -1; }
      KeysOfLinks(mem, forest);
      RefsLive(forest, ptr);
      rc := Unreference(context, ptr);
      if rc == 0 { return; }
      KeysOfLinks(mem, forest);
      var p := ParentChunk(ptr);
      if context == NULL {
        if p != NULL { return -1; }
      } else if context != p {
        return -1;
      }
      RefsHead(mem, forest, ptr);
      if mem[ptr].refs == NULL {
        UnlinkableFreeable(forest, ptr);
        FreedNotBusy(forest, ptr);
        rc := Free(ptr);
        return;
      }
      var newParent := ParentChunk(mem[ptr].refs);
      ReleaseOk(forest, forest.refs[ptr][0]);
      UnlinkTarget(forest, ptr, forest.refs[ptr][0]);
      rc := Unreference(newParent, ptr);
      if rc != 0 { return -1; }
      KeysOfLinks(mem, forest);
      StealPar(forest, ptr, newParent);
      ghost var m := mem;
      Steal(newParent, ptr);
      KeepsMore(mem, m, old(mem));
    }

    /** `_talloc_realloc`, with `at` the address of the block that `realloc` returns. */
    method Realloc(context: Ptr, ptr: Ptr, size: nat, at: Ptr) returns (r: Ptr)
      requires Valid() && at != NULL && (at == ptr || at !in mem)
      requires context != NULL ==> context in mem && context !in forest.hnd
      requires ptr != NULL ==> ptr in mem && ptr !in forest.hnd
      requires ptr != NULL && size == 0 ==> Spec.Freeable(forest, ptr) && SafePlace(forest, ptr)
      modifies this
      ensures Valid() && Shape(old(forest))
      ensures ptr != NULL ==> ptr in old(forest).par
      ensures context != NULL ==> context in old(forest).par
      ensures size == 0 ==> r == NULL && forest == if ptr == NULL then old(forest) else Spec.Free(old(forest), ptr).0
      ensures size >= MAX_TALLOC_SIZE ==> r == NULL && mem == old(mem) && forest == old(forest)
      ensures 0 < size < MAX_TALLOC_SIZE && ptr == NULL ==> r == at && forest == NewChunk(old(forest), at, context)
      ensures 0 < size < MAX_TALLOC_SIZE && ptr != NULL && old(forest).refs[ptr] != [] ==>
        r == NULL && mem == old(mem) && forest == old(forest)
      ensures 0 < size < MAX_TALLOC_SIZE && ptr != NULL && old(forest).refs[ptr] == [] ==>
        && r == (if size < old(mem)[ptr].size && old(mem)[ptr].size - size < 1024 then ptr else at)
        && r in mem && mem[r].size == size
        && forest == (if r == ptr then old(forest) else Rename(old(forest), ptr, at))
        && AddsSize(mem, old(mem) - {ptr}, r, size)
      ensures 0 < size < MAX_TALLOC_SIZE && ptr == NULL ==> AddsSize(mem, old(mem), at, size)
      ensures size == 0 ==> KeepsSizes(mem, old(mem))
    {
      hide WellFounded, KidsOk, RefsOk, RefLinks, LoopFlags, Links, Rename, MovedMemory, SafePlace, NewChunk;
      hide KeepsSizes, AddsSize;
      SameKeeps(mem);
      KeysOfLinks(mem, forest);
      if size == 0 {
        if ptr != NULL {
          var _ := Free(ptr);
          FreedNotBusy(old(forest), ptr);
        }
        return NULL;
      }
      if size >= MAX_TALLOC_SIZE { return NULL; }
      if ptr == NULL {
        r := Alloc(context, size, at);
        return;
      }
      RefsHead(mem, forest, ptr);
      if mem[ptr].refs != NULL { return NULL; }
      if size < mem[ptr].size && mem[ptr].size - size < 1024 {
        ResizedRepresents(mem, forest, ptr, size);
        ResizedKeeps(mem, ptr, size);
        mem := mem[ptr := mem[ptr].(size := size)];
        return ptr;
      }
      ReallocCoherent(mem, forest, ptr, at, size);
      MoveChunk(ptr, at, size);
      MovedKeeps(old(mem), ptr, at, size);
      forest := if at == ptr then forest else Rename(forest, ptr, at);
      r := at;
    }

    /** The end of `_talloc_realloc`: the header is at its new place, and its neighbours learn of it. */
    method MoveChunk(ptr: Ptr, at: Ptr, size: nat)
      requires ptr in mem && NULL !in mem && at != NULL && (at == ptr || at !in mem) && Neighboured(mem, ptr)
      modifies this`mem
      ensures mem == MovedMemory(old(mem), ptr, at, size)
    {
      hide MovedMemory;
      ghost var m0 := mem;
      mem := (mem - {ptr})[at := mem[ptr]];
      var tc := at;
      if mem[tc].parent != NULL {
        mem := mem[mem[tc].parent := mem[mem[tc].parent].(child := tc)];
      }
      if mem[tc].child != NULL {
        mem := mem[mem[tc].child := mem[mem[tc].child].(parent := tc)];
      }
      if mem[tc].prev != NULL {
        mem := mem[mem[tc].prev := mem[mem[tc].prev].(next := tc)];
      }
      if mem[tc].next != NULL {
        mem := mem[mem[tc].next := mem[mem[tc].next].(prev := tc)];
      }
      mem := mem[tc := mem[tc].(size := size)];
      MovedIs(m0, ptr, at, size, mem);
    }
  }

  /** No chunk of `m` is new since `m0`, and each has the size it had. */
  ghost predicate KeepsSizes(m: Memory, m0: Memory) {
    m.Keys <= m0.Keys && forall x {:trigger m[x]} :: x in m ==> m[x].size == m0[x].size
  }

  /** `at` is new since `m0`, with that size, and every other chunk has the size it had. */
  ghost predicate AddsSize(m: Memory, m0: Memory, at: Ptr, size: nat) {
    m.Keys == m0.Keys + {at} && m[at].size == size && forall x {:trigger m[x]} :: x in m0 && x != at ==>
      m[x].size == m0[x].size
  }

  lemma NewKeeps(mem: Memory, at: Ptr, context: Ptr, size: nat)
    requires context != NULL ==> context in mem && (mem[context].child != NULL ==> mem[context].child in mem)
    requires at !in mem && at != NULL
    ensures AddsSize(NewMemory(mem, at, context, size), mem, at, size)
  {
  }

  lemma ResizedKeeps(m: Memory, c: Ptr, size: nat)
    requires c in m
    ensures AddsSize(m[c := m[c].(size := size)], m - {c}, c, size)
  {
  }

  lemma MovedInPlace(m: Memory, c: Ptr, size: nat)
    requires Neighboured(m, c) && NULL !in m
    ensures AddsSize(MovedMemory(m, c, c, size), m - {c}, c, size)
  {
  }

  lemma MovedKeeps(m: Memory, c: Ptr, n: Ptr, size: nat)
    requires Neighboured(m, c) && NULL !in m && (n == c || n !in m) && n != NULL
    ensures AddsSize(MovedMemory(m, c, n, size), m - {c}, n, size)
  {
    hide MovedMemory;
    if n == c {
      MovedInPlace(m, c, size);
      return;
    }
    var u := MovedMemory(m, c, n, size);
    MovedKeys(m, c, n, size);
    forall x {:trigger u[x]} | x in m - {c} && x != n
      ensures x in u && u[x].size == m[x].size
    {
      MovedField(m, c, n, size, x);
    }
  }

  lemma AddedKeeps(m0: Memory, m: Memory, x: Ptr, h: Ptr)
    requires AddsSize(m, m0, h, HANDLE_SIZE) && x in m && h in m && (m[x].refs != NULL ==> m[x].refs in m)
    ensures AddsSize(AddedMemory(m, x, h), m0, h, HANDLE_SIZE)
  {
  }

  lemma SameKeeps(m: Memory)
    ensures KeepsSizes(m, m)
  {
  }

  lemma KeepsMore(m2: Memory, m1: Memory, m0: Memory)
    requires KeepsSizes(m2, m1) && KeepsSizes(m1, m0)
    ensures KeepsSizes(m2, m0)
  {
  }

  lemma UnlinkedKeeps(mem: Memory, c: Ptr)
    requires Linkable(mem, c)
    ensures KeepsSizes(UnlinkedMemory(mem, c), mem)
  {
    forall x | x in UnlinkedMemory(mem, c)
      ensures x in mem && UnlinkedMemory(mem, c)[x].size == mem[x].size
    {
    }
  }

  lemma RootKeeps(m0: Memory, m: Memory, c: Ptr)
    requires KeepsSizes(m, m0) && c in m
    ensures KeepsSizes(RootMemory(m, c), m0)
  {
  }

  lemma PushedKeeps(m0: Memory, m: Memory, c: Ptr, p: Ptr)
    requires KeepsSizes(m, m0) && c in m && p in m && p != c && c != NULL
    requires m[p].child != NULL ==> m[p].child in m && m[p].child != c && m[p].child != p
    ensures KeepsSizes(PushedMemory(m, c, p), m0)
  {
  }

  lemma DestructorKeeps(m: Memory, c: Ptr)
    requires c in m
    ensures KeepsSizes(m[c := m[c].(destructor := NoDestructor)], m)
  {
  }

  lemma MarkedKeeps(m0: Memory, m: Memory, c: Ptr)
    requires KeepsSizes(m, m0) && c in m
    ensures KeepsSizes(m[c := m[c].(loop := true)], m0)
  {
  }

  lemma DeletedKeeps(m0: Memory, m: Memory, c: Ptr)
    requires KeepsSizes(m, m0)
    ensures KeepsSizes(m - {c}, m0)
  {
  }

  /** The memory after `__talloc`. */
  function NewMemory(mem: Memory, at: Ptr, context: Ptr, size: nat): Memory
    requires context != NULL ==> context in mem && (mem[context].child != NULL ==> mem[context].child in mem)
  {
    var m := mem[at := NewHeader(size)];
    if context == NULL then m else PushedMemory(m, at, context)
  }

  /** `m` is `m0` after `__talloc` took address `at`; every other chunk has the size it had. */
  ghost predicate Allocated(m: Memory, m0: Memory, at: Ptr, context: Ptr, size: nat) {
    && (context != NULL ==> context in m0 && (m0[context].child != NULL ==> m0[context].child in m0))
    && m == NewMemory(m0, at, context, size) && AddsSize(m, m0, at, size)
  }

  lemma EmptiedKids(f: Forest, c: Ptr)
    requires Spec.Emptiable(f, c) && f.kids[c] == []
    ensures Spec.FreeKids(f, c) == f
  {
  }

  lemma HeadOfKids(mem: Memory, f: Forest, c: Ptr)
    requires Represents(mem, f) && Spec.Emptiable(f, c)
    ensures c in mem && c in f.kids && mem[c].child == Head(f.kids[c]) && NULL !in f.kids[c]
    ensures c in f.par
  {
  }

  lemma KidFacts(mem: Memory, f: Forest, c: Ptr, k: Ptr)
    requires Represents(mem, f) && Spec.Emptiable(f, c) && f.kids[c] != [] && k == f.kids[c][0]
    requires c in f.busy || f.busy == {}
    ensures Spec.Freeable(f, k) && SafePlace(f, k) && NotRelied(f, k) && k in f.par && f.par[k] == c
    ensures k in mem && mem[k].refs == Head(f.refs[k]) && (f.refs[k] != [] ==> mem[k].refs in mem)
    ensures mem[k].refs == NULL <==> f.refs[k] == []
    ensures |Desc(f.par, k)| < |Desc(f.par, c)|
    ensures forall b :: b in f.busy ==> b in f.par && f.par[b] != k
    ensures f.par[c] == NULL || f.par[c] in f.par
    ensures f.refs[k] != [] ==> f.par[mem[k].refs] == Spec.NewParent(f, k) && Spec.NewParent(f, k) != NULL
    ensures f.refs[k] == [] ==> f.par[c] == Spec.NewParent(f, k)
  {
    hide WellFounded, KidsOk, RefsOk, Links, RefLinks, LoopFlags, Desc, SingleRefs, SafePlace, NotRelied;
    hide Spec.NewParent;
    Spec.FirstKid(f, c);
    KeysOfLinks(mem, f);
    FirstKidPlace(f, c, k);
    RefsHead(mem, f, k);
    FirstKidOwner(f, c, k);
    Spec.SubsetSmaller(Desc(f.par, k), Desc(f.par, c));
  }

  lemma FirstKidPlace(f: Forest, c: Ptr, k: Ptr)
    requires Spec.Emptiable(f, c) && f.kids[c] != [] && k == f.kids[c][0] && Spec.Freeable(f, k) && f.par[k] == c
    requires c in f.busy || f.busy == {}
    ensures SafePlace(f, k) && NotRelied(f, k) && (forall b :: b in f.busy ==> b in f.par && f.par[b] != k)
  {
    hide WellFounded, RefsOk;
    DescClosed(f.par, k);
  }

  lemma FirstKidOwner(f: Forest, c: Ptr, k: Ptr)
    requires Ok(f) && c in f.par && k in f.par && f.par[k] == c
    ensures f.par[c] == NULL || f.par[c] in f.par
    ensures f.refs[k] != [] ==>
      f.refs[k][0] in f.par && f.par[f.refs[k][0]] == Spec.NewParent(f, k) && Spec.NewParent(f, k) != NULL
    ensures f.refs[k] == [] ==> f.par[c] == Spec.NewParent(f, k)
  {
    hide WellFounded, KidsOk;
    if f.refs[k] != [] {
      assert f.refs[k][0] in f.refs[k];
    }
  }

  lemma AfterKidFacts(mem: Memory, f: Forest, c: Ptr, k: Ptr, g: Forest, rc: int)
    requires Represents(mem, g) && Spec.Emptiable(f, c) && f.kids[c] != [] && k == f.kids[c][0] && k in f.par &&
      f.par[k] == c
    requires c in f.busy || f.busy == {}
    requires forall b :: b in f.busy ==> b in f.par && f.par[b] != k
    requires Spec.FreePost(f, k, g, rc) && Spec.Freeable(f, k) && (g, rc) == Spec.Free(f, k)
    ensures var g2 := Spec.AfterKid(f, c, g, rc);
      && Spec.Emptiable(g2, c) && (c in g2.busy || g2.busy == {}) && Spec.FreeKids(g2, c) == Spec.FreeKids(f, c)
      && (|g2.par| < |f.par| || (|g2.par| == |f.par| && |Desc(g2.par, c)| < |Desc(f.par, c)|))
      && (rc == 0 || rc == -1) && (rc == 0 ==> g2 == g)
    ensures rc == -1 ==> var p := Spec.NewParent(f, k);
      && k in mem && k !in g.busy && k !in g.hnd && NotRelied(g, k) && Shape(g) && k in g.par
      && (forall b :: b in g.busy ==> g.par[b] != k)
      && (p == NULL || p == k || (p in mem && p in g.par && p !in g.hnd && p !in Desc(g.par, k)))
      && c in mem && c in g.par && g.par[c] == f.par[c]
      && Spec.AfterKid(f, c, g, rc) == TallocForest.Steal(g, k, p)
  {
    hide WellFounded, KidsOk, RefsOk, RefLinks, LoopFlags, SingleRefs, Desc;
    Spec.FirstKid(f, c);
    Spec.KidStep(f, c, g, rc);
    if rc == -1 {
      Spec.KidRefused(f, c, g);
    }
  }

  lemma FreeHandleIs(f: Forest, h: Ptr)
    requires Ok(f) && SingleRefs(f) && h in f.hnd
    ensures Spec.Freeable(f, h) && SafePlace(f, h) && NotRelied(f, h)
    ensures f.par[h] in f.par && f.hnd[h] in f.par && Spec.Free(f, h) == (Release(f, h), 0)
  {
    hide WellFounded, KidsOk;
    assert f.kids[h] == [] && f.hnd[h] in f.par;
    assert DownClosed(f.par, {h});
    DescLeast(f.par, h, {h});
    DropRefOk(f, h);
    ReleaseInSteps(f, h);
    assert f.par[f.hnd[h]] == f.par[f.hnd[h]];
    assert Spec.Unlinked(f, h).kids[h] == [];
  }

  lemma HandleUnlisted(mem: Memory, f: Forest, h: Ptr)
    requires Ok(f) && Represents(mem, f) && h in f.hnd
    ensures h in f.par && h !in f.busy && (forall b :: b in f.busy ==> f.par[b] != h && mem[b].prev != h)
    ensures f.par[h] in f.par && f.hnd[h] in f.par && Ok(DropRef(f, h)) && Ok(Detach(DropRef(f, h), h)) &&
      f.kids[h] == []
    ensures var g := Detach(DropRef(f, h), h); g.kids[h] == [] && Ok(Delete(g, h)) && Delete(g, h) == Release(f, h)
    ensures mem.Keys == f.par.Keys
  {
    hide WellFounded, KidsOk, RefLinks, LoopFlags;
    assert f.hnd[h] == f.hnd[h] && f.par[h] == f.par[h];
    NotReliedPrev(mem, f, h);
    DropRefOk(f, h);
    HandleDetached(f, h);
    ReleaseInSteps(f, h);
    ReleaseOk(f, h);
  }

  lemma HandleDetached(f: Forest, h: Ptr)
    requires Ok(f) && h in f.hnd && Ok(DropRef(f, h)) && f.kids[h] == [] && f.par[h] in f.par
    ensures Ok(Detach(DropRef(f, h), h)) && Detach(DropRef(f, h), h).kids[h] == []
  {
    hide WellFounded, KidsOk;
    NotOwnParent(f, h);
    assert f.hnd[h] == f.hnd[h];
    var g := DropRef(f, h);
    assert g.refs[h] == [] && h !in g.hnd;
    hide RefsOk;
    DetachOk(g, h);
  }

  lemma FreeFacts(mem: Memory, f: Forest, c: Ptr)
    requires Ok(f) && Represents(mem, f) && Spec.Freeable(f, c)
    ensures c in mem && c !in f.busy && !mem[c].loop
    ensures mem[c].refs == Head(f.refs[c]) && (f.refs[c] != [] ==> mem[c].refs != NULL)
    ensures mem[c].destructor == ReferenceDestructor <==> c in f.hnd
    ensures mem[c].destructor == UserDestructor(true) <==> c in f.stubborn
  {
    DescClosed(f.par, c);
    if f.refs[c] != [] {
      assert f.refs[c][0] in f.refs[c];
    }
  }

  lemma SafePlaceKept(f: Forest, c: Ptr)
    requires Spec.Freeable(f, c) && f.refs[c] != [] && SafePlace(f, c) && NotRelied(f, c) && c !in f.hnd
    requires f.refs[c][0] in f.hnd && f.par[f.refs[c][0]] in f.par && f.hnd[f.refs[c][0]] in f.par
    requires Spec.Freeable(Release(f, f.refs[c][0]), c)
    ensures f.refs[c][0] in Desc(f.par, c) ==>
        SafePlace(Release(f, f.refs[c][0]), c) && NotRelied(Release(f, f.refs[c][0]), c)
  {
    hide WellFounded, KidsOk, RefsOk;
    var h := f.refs[c][0];
    if h in Desc(f.par, c) {
      DescParent(f.par, c, h);
      ParentNotBeneath(f.par, c);
    }
  }

  lemma HandleIsLeaf(f: Forest, c: Ptr)
    requires Spec.Freeable(f, c) && f.refs[c] == [] && c in f.hnd && c in Spec.Unlinked(f, c).kids
    ensures Spec.Unlinked(f, c).kids[c] == []
  {
    hide WellFounded, KidsOk, Desc, SingleRefs;
    NotOwnParent(f, c);
    assert f.par[f.hnd[c]] == f.par[f.hnd[c]];
  }

  lemma FreeRefused(f: Forest, c: Ptr)
    requires Spec.Freeable(f, c) && f.refs[c] == [] && c in f.stubborn
    ensures Spec.Free(f, c) == (f, -1)
  {
  }

  lemma FreedInSteps(f: Forest, c: Ptr)
    requires Spec.Freeable(f, c) && f.refs[c] == [] && c !in f.stubborn
    ensures var u := Spec.Unlinked(f, c);
      && Spec.Emptiable(u, c) && u.par == f.par && c in u.busy && c in u.kids
      && (c in f.hnd ==> u.kids[c] == []) && (u.kids[c] == [] ==> Spec.FreeKids(u, c) == u)
      && var g := Spec.FreeKids(u, c);
      && Spec.Emptiable(g, c) && c in g.busy && g.kids[c] == [] && c in g.par
      && Ok(Delete(g, c)) && Spec.Free(f, c) == (Delete(g, c), 0)
  {
    hide WellFounded, KidsOk, RefsOk, Desc, SingleRefs, Spec.Unlinked;
    Spec.UnlinkedOk(f, c);
    var u := Spec.Unlinked(f, c);
    var g := Spec.FreeKids(u, c);
    Spec.EmptiedDelete(f, c, g);
    DescShrinks(f.par, g.par, c);
    if c in f.hnd {
      HandleIsLeaf(f, c);
    }
  }

  lemma FreeReferenced(f: Forest, c: Ptr)
    requires Spec.Freeable(f, c) && f.refs[c] != []
    ensures var h := f.refs[c][0];
      && h in f.hnd && c !in f.hnd && h in f.par && h != NULL && f.par[h] in f.par && f.hnd[h] in f.par
      && |Release(f, h).par| < |f.par| && Spec.Freeable(Release(f, h), c)
      && Spec.Free(f, c) == (if h in Desc(f.par, c) then Spec.Free(Release(f, h), c) else (Release(f, h), -1))
  {
    hide WellFounded, KidsOk, SingleRefs, Desc, Release;
    Spec.FreeHandleCase(f, c);
  }

  lemma ReferencedMemory(mem: Memory, f: Forest, c: Ptr)
    requires Represents(mem, f) && Spec.Freeable(f, c) && f.refs[c] != []
    ensures c in f.refs && mem.Keys == f.par.Keys && mem[c].refs == f.refs[c][0] && |Desc(f.par, c)| > 0 && Ok(f) &&
      SingleRefs(f)
  {
    hide WellFounded, KidsOk, RefsOk, SingleRefs, LoopFlags, SafePlace, NotRelied, Desc;
    DescClosed(f.par, c);
    assert c in Desc(f.par, c);
  }

  lemma KeysOfAlmost(mem: Memory, g: Forest, c: Ptr)
    requires AlmostRepresents(mem, g, c) && c in g.par
    ensures mem.Keys == g.par.Keys && Shape(g) && mem[c].child == Head(g.kids[c])
    ensures g.kids[c] != [] && Ok(g) ==> Head(g.kids[c]) != NULL
  {
    if g.kids[c] != [] {
      assert g.kids[c][0] in g.kids[c];
    }
  }

  lemma AlmostFromAll(mem: Memory, g: Forest, c: Ptr)
    requires Represents(mem, g)
    ensures AlmostRepresents(mem, g, c)
  {
  }

  lemma UnlistFacts(mem: Memory, f: Forest, c: Ptr)
    requires Ok(f) && Represents(mem, f) && Spec.Freeable(f, c) && SafePlace(f, c) && NotRelied(f, c) && c !in f.busy
    ensures forall b :: b in f.busy ==> f.par[b] != c && mem[b].prev != c
    ensures mem[c].prev != NULL && f.kids[c] != [] ==> mem[c].prev !in f.hnd && f.par[c] !in f.busy
  {
    hide WellFounded, RefsOk, RefLinks, LoopFlags, SingleRefs;
    DescClosed(f.par, c);
    NotReliedPrev(mem, f, c);
    if f.par[c] != NULL {
      var i := KidIndex(f, c);
      assert f.kids[f.par[c]][i] in mem;
    }
  }

  lemma DestructorRun(mem: Memory, f: Forest, c: Ptr, m: Memory)
    requires Ok(f) && Represents(mem, f) && c in mem && mem[c].destructor == UserDestructor(false)
    requires m == mem[c := mem[c].(destructor := NoDestructor)]
    ensures Represents(m, f)
  {
    hide LoopFlags, RefLinks, Links, WellFounded, KidsOk, RefsOk;
    SameKidLinks(mem, m, f, f);
    RefHandlesLive(f);
    KeysOfLinks(mem, f);
    SameRefLinks(mem, f, m, f);
  }

  lemma KeysOfLinks(mem: Memory, f: Forest)
    requires Represents(mem, f)
    ensures mem.Keys == f.par.Keys
  {
  }

  /** Destructors may change as long as reference handles and refusing chunks stay the same. */
  lemma SameRefLinks(mem: Memory, f: Forest, m: Memory, g: Forest)
    requires Shape(f) && Shape(g) && mem.Keys == f.par.Keys && m.Keys == g.par.Keys && m.Keys <= mem.Keys &&
      RefLinks(mem, f)
    requires forall x {:trigger m[x]} :: x in m ==>
      && m[x].refs == mem[x].refs && m[x].refPrev == mem[x].refPrev && m[x].refNext == mem[x].refNext
      && m[x].referent == mem[x].referent
      && (m[x].destructor == ReferenceDestructor <==> mem[x].destructor == ReferenceDestructor)
      && (m[x].destructor == UserDestructor(true) <==> mem[x].destructor == UserDestructor(true))
    requires forall x {:trigger g.refs[x]} :: x in g.refs ==> x in f.refs && g.refs[x] == f.refs[x]
    requires forall x, h :: x in g.refs && h in g.refs[x] ==> h in m
    requires g.hnd == f.hnd && g.stubborn == f.stubborn
    ensures RefLinks(m, g)
  {
    hide RefLinked;
    forall x {:trigger m[x]} | x in m
      ensures m[x].refs == Head(g.refs[x])
      ensures (m[x].destructor == ReferenceDestructor <==> x in g.hnd) &&
        (m[x].destructor == UserDestructor(true) <==> x in g.stubborn)
    {
      assert mem[x].refs == Head(f.refs[x]) && g.refs[x] == f.refs[x];
    }
    forall x | x in g.refs
      ensures RefLinked(m, x, g.refs[x])
    {
      RefFrame(mem, m, x, g.refs[x]);
    }
  }

  /** `mem` represents `g` but for the way from the chunk `c`, being freed, to its parent. */
  ghost predicate AlmostRepresents(mem: Memory, g: Forest, c: Ptr) {
    && Shape(g) && mem.Keys == g.par.Keys && KidLinks(mem, g.kids) && ChildHeads(mem, g.kids) && RootLinks(mem, g)
    && StaleBut(mem, g, c) && RefLinks(mem, g) && LoopFlags(mem, g)
  }

  /** Chunks being freed, except perhaps `c`, still lead to their former parents. */
  ghost predicate StaleBut(mem: Memory, g: Forest, c: Ptr)
    requires Shape(g) && mem.Keys == g.par.Keys
  {
    forall b {:trigger b in g.busy} :: b in g.busy && b != c ==> Stale(mem, g, b)
  }

  lemma MarkedLinks(mem: Memory, f: Forest, c: Ptr, m: Memory)
    requires Ok(f) && c in f.par && OffList(mem, f, c) && m == mem[c := mem[c].(loop := true)]
    ensures KidLinks(m, Detach(f, c).kids) && ChildHeads(m, Detach(f, c).kids) && RootLinks(m, Detach(f, c))
  {
    hide WellFounded, KidsOk, RefsOk, Linked, Stale;
    var g := Detach(f, c);
    forall p | p in g.kids
      ensures Linked(m, p, g.kids[p])
    {
      LinkedFrame(mem, m, p, g.kids[p]);
    }
  }

  lemma MarkedStale(mem: Memory, g: Forest, c: Ptr, m: Memory)
    requires Shape(g) && c in mem && mem.Keys == g.par.Keys && m == mem[c := mem[c].(loop := true)]
    requires StaleBut(mem, g, c)
    ensures StaleBut(m, g, c)
  {
    hide Stale;
    forall b {:trigger b in g.busy} | b in g.busy && b != c
      ensures Stale(m, g, b)
    {
      StaleFrame(mem, g, m, g, b);
    }
  }

  lemma MarkedRefs(mem: Memory, f: Forest, c: Ptr, m: Memory)
    requires Shape(f) && c in f.par && Shape(Detach(f, c)) && mem.Keys == f.par.Keys
    requires m == mem[c := mem[c].(loop := true)]
    requires Ok(f) && RefLinks(mem, f) && LoopFlags(mem, f)
    ensures RefLinks(m, Detach(f, c)) && LoopFlags(m, Detach(f, c))
  {
    hide WellFounded, KidsOk, RefsOk, RefLinks;
    RefHandlesLive(f);
    SameRefLinks(mem, f, m, Detach(f, c));
  }

  lemma UnlistedMarked(mem: Memory, f: Forest, c: Ptr)
    requires Ok(f) && c in f.par && c !in f.busy && OffList(mem, f, c) && RefLinks(mem, f) && LoopFlags(mem, f)
    requires mem[c].prev != NULL && f.kids[c] != [] ==> mem[c].prev !in f.hnd && f.par[c] !in f.busy
    ensures var m, g := mem[c := mem[c].(loop := true)], Detach(f, c);
      AlmostRepresents(m, g, c) && (f.kids[c] != [] ==> Represents(m, g))
  {
    hide WellFounded, KidsOk, RefsOk, RefLinks, LoopFlags, KidLinks, ChildHeads, RootLinks, Stale;
    var m := mem[c := mem[c].(loop := true)];
    NotOwnParent(f, c);
    MarkedLinks(mem, f, c, m);
    MarkedStale(mem, Detach(f, c), c, m);
    MarkedRefs(mem, f, c, m);
    if f.kids[c] != [] {
      StaleSelf(mem, f, c, m);
    }
  }

  lemma StaleSelf(mem: Memory, f: Forest, c: Ptr, m: Memory)
    requires Shape(f) && c in f.par && c !in f.busy && Shape(Detach(f, c)) && mem.Keys == f.par.Keys
    requires LeadsBack(mem, f, c) && f.par[c] != c
    requires mem[c].prev != NULL ==> mem[c].prev !in f.hnd && f.par[c] !in f.busy
    requires m.Keys == mem.Keys && m[c].prev == mem[c].prev && m[c].parent == mem[c].parent
    ensures Stale(m, Detach(f, c), c)
  {
  }

  lemma RefHandlesLive(f: Forest)
    requires Ok(f)
    ensures forall x, h :: x in f.refs && h in f.refs[x] ==> h in f.par && h in f.hnd
  {
    hide WellFounded, KidsOk;
  }

  lemma DeletedLinks(mem: Memory, g: Forest, c: Ptr)
    requires Ok(g) && c in g.busy && AlmostRepresents(mem, g, c)
    ensures KidLinks(mem - {c}, g.kids - {c}) && ChildHeads(mem - {c}, g.kids - {c})
  {
    hide WellFounded, RefsOk, RefLinks, Linked, Stale, Desc, SingleRefs;
    var m, k := mem - {c}, g.kids - {c};
    forall p | p in k
      ensures Linked(m, p, k[p])
    {
      assert c !in g.kids[p];
      LinkedFrame(mem, m, p, k[p]);
    }
  }

  lemma DeletedStale(mem: Memory, g: Forest, c: Ptr)
    requires Ok(g) && c in g.busy && g.kids[c] == [] && AlmostRepresents(mem, g, c)
    requires Shape(Delete(g, c)) && Ok(Delete(g, c))
    ensures StaleLinks(mem - {c}, Delete(g, c)) && RootLinks(mem - {c}, Delete(g, c))
  {
    hide WellFounded, RefLinks, KidLinks, ChildHeads, Stale, Desc, SingleRefs, KidsOk, RefsOk;
    var m, f := mem - {c}, Delete(g, c);
    forall b | b in f.busy
      ensures Stale(m, f, b)
    {
      assert f.par[b] == g.par[b] && g.par[b] != c;
      StaleFrame(mem, g, m, f, b);
    }
  }

  lemma DeletedRepresents(mem: Memory, g: Forest, c: Ptr)
    requires Ok(g) && c in g.busy && g.kids[c] == [] && AlmostRepresents(mem, g, c)
    requires Shape(Delete(g, c)) && Ok(Delete(g, c))
    ensures Represents(mem - {c}, Delete(g, c))
  {
    hide WellFounded, KidLinks, ChildHeads, RootLinks, RefLinks, StaleLinks, Stale, Desc, SingleRefs, KidsOk, RefsOk;
    DeletedLinks(mem, g, c);
    DeletedStale(mem, g, c);
    RefHandlesLive(Delete(g, c));
    SameRefLinks(mem, g, mem - {c}, Delete(g, c));
  }

  lemma ReleasedIs(mem: Memory, x: Ptr, h: Ptr)
    requires Droppable(mem, x, h)
    ensures h in DroppedMemory(mem, x, h)
    ensures var m := DroppedMemory(mem, x, h); ReleasedMemory(mem, x, h) == m[h := m[h].(destructor := NoDestructor)]
  {
    DroppedField(mem, x, h, h);
  }

  lemma DropRefCoherent(mem: Memory, f: Forest, h: Ptr)
    requires Ok(f) && Represents(mem, f) && h in f.hnd
    ensures Droppable(mem, f.hnd[h], h) && mem[h].referent == f.hnd[h]
    ensures Ok(DropRef(f, h)) && Represents(ReleasedMemory(mem, f.hnd[h], h), DropRef(f, h))
  {
    hide WellFounded, KidsOk, RootLinks, StaleLinks, ReleasedMemory, KidLinks, ChildHeads;
    DropRefOk(f, h);
    var i := HandleIndex(mem, f, h);
    DropRefLinks(mem, f, h);
    SameKidLinks(mem, ReleasedMemory(mem, f.hnd[h], h), f, DropRef(f, h));
  }

  lemma SameKidLinks(mem: Memory, m: Memory, f: Forest, g: Forest)
    requires Shape(f) && Links(mem, f) && LoopFlags(mem, f) && Shape(g)
    requires m.Keys == mem.Keys && forall x {:trigger m[x]} :: x in mem ==> SameKidFields(m[x], mem[x])
    requires g.par == f.par && g.kids == f.kids && g.busy == f.busy && g.hnd.Keys <= f.hnd.Keys
    ensures Links(m, g) && LoopFlags(m, g)
  {
    hide Linked, Stale;
    forall p | p in g.kids
      ensures Linked(m, p, g.kids[p])
    {
      LinkedFrame(mem, m, p, g.kids[p]);
    }
    forall b | b in g.busy
      ensures Stale(m, g, b)
    {
      StaleFrame(mem, f, m, g, b);
    }
  }

  lemma StolenRoot(mem: Memory, f: Forest, c: Ptr)
    requires Ok(f) && c in f.par && c !in f.busy && c !in f.hnd && OffList(mem, f, c)
    requires mem.Keys == f.par.Keys && RefLinks(mem, f) && LoopFlags(mem, f)
    ensures var g := TallocForest.Steal(f, c, NULL); Ok(g) && Represents(RootMemory(mem, c), g)
  {
    hide WellFounded, KidsOk, RefsOk, RefLinks, LoopFlags, OffList, Links;
    StealOk(f, c, NULL);
    RootLinksMade(mem, f, c);
    SameRefs(mem, RootMemory(mem, c), f, MakeRoot(f, c));
  }

  lemma StolenPush(mem: Memory, f: Forest, c: Ptr, p: Ptr)
    requires Ok(f) && c in f.par && c !in f.busy && c !in f.hnd && OffList(mem, f, c)
    requires p in f.par && p != c && p !in f.hnd && p !in Desc(f.par, c)
    requires !(f.par[c] == p && f.kids[p] != [] && f.kids[p][0] == c)
    requires mem.Keys == f.par.Keys && RefLinks(mem, f) && LoopFlags(mem, f)
    ensures mem[p].child != NULL ==> mem[p].child in mem && mem[p].child != c && mem[p].child != p
    ensures c != NULL
    ensures var g := TallocForest.Steal(f, c, p); Ok(g) && Represents(PushedMemory(mem, c, p), g)
  {
    hide WellFounded, KidsOk, RefsOk, RefLinks, LoopFlags, OffList, Links, PushedMemory;
    StealOk(f, c, p);
    StealLinks(mem, f, c, p);
    StealPar(f, c, p);
    PushSameRefs(mem, f, c, p, TallocForest.Steal(f, c, p));
  }

  lemma PushSameRefs(mem: Memory, f: Forest, c: Ptr, p: Ptr, g: Forest)
    requires Shape(f) && Shape(g) && mem.Keys == f.par.Keys == g.par.Keys && RefLinks(mem, f) && LoopFlags(mem, f)
    requires c in mem && p in mem && p != c
    requires mem[p].child != NULL ==> mem[p].child in mem && mem[p].child != c && mem[p].child != p
    requires g.refs == f.refs && g.hnd == f.hnd && g.busy == f.busy && g.stubborn == f.stubborn
    ensures PushedMemory(mem, c, p).Keys == mem.Keys
    ensures RefLinks(PushedMemory(mem, c, p), g) && LoopFlags(PushedMemory(mem, c, p), g)
  {
    hide PushedMemory, RefLinks, LoopFlags;
    var m := PushedMemory(mem, c, p);
    PushedField(mem, c, p, c);
    forall x {:trigger m[x]} | x in mem
      ensures SameRefFields(m[x], mem[x]) && m[x].loop == mem[x].loop
    {
      PushedField(mem, c, p, x);
    }
    SameRefs(mem, m, f, g);
  }

  /** The test at the start of a steal finds the cases in which nothing has to move. */
  lemma StealSame(mem: Memory, f: Forest, c: Ptr, p: Ptr)
    requires Ok(f) && Links(mem, f) && c in f.par && c !in f.busy && p in f.par
    ensures p == c || mem[c].parent == p ==> TallocForest.Steal(f, c, p) == f
    ensures p != c && mem[c].parent != p ==> !(f.par[c] == p && f.kids[p] != [] && f.kids[p][0] == c)
  {
    hide WellFounded, RefsOk, KidsOk, Links;
    if p != c {
      StealStays(mem, f, c, p);
    }
  }

  lemma StealStays(mem: Memory, f: Forest, c: Ptr, p: Ptr)
    requires Ok(f) && Links(mem, f) && c in f.par && c !in f.busy && p in f.par && p != c
    ensures mem[c].parent == p <==> f.par[c] == p && f.kids[p] != [] && f.kids[p][0] == c
  {
    hide WellFounded, RefsOk;
    if f.par[c] != NULL {
      var i := KidIndex(f, c);
      assert f.kids[f.par[c]][i] in mem;
      if f.kids[p] != [] && f.kids[p][0] == c {
        assert f.kids[p][0] in mem;
      }
    }
  }

  lemma UnlinkSameRefs(mem: Memory, f: Forest, c: Ptr)
    requires Shape(f) && mem.Keys == f.par.Keys && RefLinks(mem, f) && LoopFlags(mem, f)
    requires Linkable(mem, c) && (mem[c].parent != NULL ==> mem[c].prev == NULL)
    ensures UnlinkedMemory(mem, c).Keys == mem.Keys
    ensures RefLinks(UnlinkedMemory(mem, c), f) && LoopFlags(UnlinkedMemory(mem, c), f)
  {
    hide UnlinkedMemory;
    var m := UnlinkedMemory(mem, c);
    UnlinkedField(mem, c, c);
    forall x | x in mem
      ensures SameRefFields(m[x], mem[x]) && m[x].loop == mem[x].loop
    {
      UnlinkedField(mem, c, x);
    }
    SameRefs(mem, m, f, f);
  }

  lemma PushedIs(mem: Memory, c: Ptr, p: Ptr, m: Memory)
    requires c in mem && p in mem && p != c && c != NULL
    requires mem[p].child != NULL ==> mem[p].child in mem && mem[p].child != c && mem[p].child != p
    requires mem[c].next == NULL && mem[c].prev == NULL && mem[c].parent == NULL
    requires var k := mem[p].child;
      var m1 := if k == NULL then mem[c := mem[c].(next := NULL)] else
        var a := mem[k := mem[k].(parent := NULL)];
        var b := a[c := a[c].(next := k)];
        b[k := b[k].(prev := c)];
      var m2 := m1[c := m1[c].(parent := p, prev := NULL)];
      m == m2[p := m2[p].(child := c)]
    ensures m == PushedMemory(mem, c, p)
  {
  }

  lemma AllocCoherent(mem: Memory, f: Forest, c: Ptr, p: Ptr, size: nat)
    requires Ok(f) && Represents(mem, f) && f.busy == {} && c !in f.par && c != NULL
    requires p != NULL ==> p in f.par && p !in f.hnd
    ensures Ok(NewChunk(f, c, p)) && NewChunk(f, c, p).busy == {} && mem.Keys == f.par.Keys
    ensures var m1 := mem[c := NewHeader(size)];
      p != NULL ==> p in m1 && p != c && (m1[p].child != NULL ==>
        m1[p].child in mem && m1[p].child in m1 && m1[p].child != c && m1[p].child != p)
    ensures Represents(NewMemory(mem, c, p, size), NewChunk(f, c, p))
  {
    hide WellFounded, KidsOk, RefsOk, RefLinks, LoopFlags, Links, PushedMemory, OffList, TallocForest.Steal, Desc;
    KeysOfLinks(mem, f);
    NewChunkOk(f, c, p);
    NewRootRepresents(mem, f, c, size);
    if p != NULL {
      NewChunkBelow(f, c, p);
      var m1, g := mem[c := NewHeader(size)], NewChunk(f, c, NULL);
      KeysOfLinks(m1, g);
      StolenPush(m1, g, c, p);
      KidNotNew(mem, f, c, p);
    }
  }

  lemma KidNotNew(mem: Memory, f: Forest, c: Ptr, p: Ptr)
    requires Ok(f) && Represents(mem, f) && p in f.par
    ensures p in mem && (mem[p].child != NULL ==> mem[p].child in mem)
  {
    if f.kids[p] != [] {
      assert f.kids[p][0] in f.kids[p];
    }
  }

  lemma DestructorSet(mem: Memory, f: Forest, c: Ptr, refuses: bool)
    requires Ok(f) && Represents(mem, f) && c in mem && c !in f.hnd
    ensures var g := f.(stubborn := if refuses then f.stubborn + {c} else f.stubborn - {c});
      Shape(g) && Ok(g) && Represents(mem[c := mem[c].(destructor := UserDestructor(refuses))], g)
  {
    hide WellFounded, Links, RefLinks, LoopFlags;
    var g := f.(stubborn := if refuses then f.stubborn + {c} else f.stubborn - {c});
    assert Ok(g);
    hide Ok;
    var m := mem[c := mem[c].(destructor := UserDestructor(refuses))];
    KeysOfLinks(mem, f);
    SameKidLinks(mem, m, f, g);
    DestructorRefs(mem, f, c, refuses, m, g);
  }

  lemma DestructorRefs(mem: Memory, f: Forest, c: Ptr, refuses: bool, m: Memory, g: Forest)
    requires Ok(f) && Represents(mem, f) && c in mem && c !in f.hnd && mem.Keys == f.par.Keys && Shape(g)
    requires g == f.(stubborn := if refuses then f.stubborn + {c} else f.stubborn - {c})
    requires m == mem[c := mem[c].(destructor := UserDestructor(refuses))]
    ensures RefLinks(m, g)
  {
    hide Ok, Links, RefLinked, LoopFlags;
    forall x | x in g.refs
      ensures RefLinked(m, x, g.refs[x])
    {
      RefFrame(mem, m, x, g.refs[x]);
    }
  }

  /** A new child is fit to become a handle. */
  lemma HandleReady(f: Forest, ctx: Ptr, x: Ptr, h: Ptr)
    requires Ok(f) && ctx in f.par && ctx !in f.hnd && x in f.par && x !in f.hnd && h !in f.par && h != NULL
    ensures var g := NewChunk(f, h, ctx);
      x in g.par && x !in g.hnd && h in g.par && h !in g.hnd && h != x && h !in g.stubborn && x in g.refs
  {
    hide WellFounded, KidsOk;
  }

  lemma AddedIs(mem: Memory, x: Ptr, h: Ptr, m: Memory)
    requires x in mem && h in mem && x != h
    requires mem[x].refs != NULL ==> mem[x].refs in mem && mem[x].refs != h && mem[x].refs != x
    requires var k := mem[x].refs;
      var a := mem[h := mem[h].(destructor := ReferenceDestructor)];
      var b := a[h := a[h].(referent := x)];
      m == if k == NULL then
        var c := b[x := b[x].(refs := h)];
        c[h := c[h].(refNext := NULL, refPrev := NULL)]
      else
        var c := b[k := b[k].(refPrev := h)];
        var d := c[h := c[h].(refNext := k)];
        var e := d[h := d[h].(refPrev := NULL)];
        e[x := e[x].(refs := h)]
    ensures m == AddedMemory(mem, x, h) && h in m && m[h].referent == x
  {
  }

  lemma NextHandle(mem: Memory, f: Forest, x: Ptr, i: nat)
    requires Ok(f) && Represents(mem, f) && x in f.par && i < |f.refs[x]|
    ensures var h := f.refs[x][i];
      && h in mem && h in f.par && h in f.hnd && h in f.refs[x] && h != NULL
      && mem[h].refNext == (if i + 1 < |f.refs[x]| then f.refs[x][i + 1] else NULL)
  {
    hide WellFounded, KidsOk, LoopFlags, Links;
    var s := f.refs[x];
    assert RefLinked(mem, x, s) && s[i] in s;
    assert s[i] in f.par && s[i] in mem;
  }

  lemma NoNullHandle(f: Forest, x: Ptr)
    requires Ok(f) && x in f.par
    ensures forall i :: 0 <= i < |f.refs[x]| ==> f.refs[x][i] != NULL
  {
    forall i | 0 <= i < |f.refs[x]|
      ensures f.refs[x][i] != NULL
    {
      assert f.refs[x][i] in f.refs[x];
    }
  }

  lemma RefsHead(mem: Memory, f: Forest, x: Ptr)
    requires Ok(f) && Represents(mem, f) && x in f.par
    ensures x in mem && mem[x].refs == Head(f.refs[x]) && (mem[x].refs == NULL <==> f.refs[x] == [])
    ensures f.refs[x] != [] ==> f.refs[x][0] in f.refs[x] && f.refs[x][0] in mem
  {
    if f.refs[x] != [] {
      assert f.refs[x][0] in f.refs[x];
    }
  }

  lemma UnlinkableFreeable(f: Forest, x: Ptr)
    requires Unlinkable(f, x) && f.refs[x] == []
    ensures Spec.Freeable(f, x) && NotRelied(f, x)
  {
  }

  lemma FreedNotBusy(f: Forest, c: Ptr)
    requires Spec.Freeable(f, c) && f.busy == {}
    ensures Spec.Free(f, c).0.busy == {}
  {
    assert Spec.FreePost(f, c, Spec.Free(f, c).0, Spec.Free(f, c).1);
  }

  lemma ReallocCoherent(mem: Memory, f: Forest, c: Ptr, n: Ptr, size: nat)
    requires Ok(f) && Represents(mem, f) && f.busy == {} && c in f.par && c !in f.hnd && f.refs[c] == []
    requires n != NULL && (n == c || n !in mem)
    ensures Neighboured(mem, c) && NULL !in mem
    ensures var g := if n == c then f else Rename(f, c, n);
      Ok(g) && g.busy == {} && Represents(MovedMemory(mem, c, n, size), g)
    ensures n in MovedMemory(mem, c, n, size) && MovedMemory(mem, c, n, size)[n].size == size
  {
    hide WellFounded, KidsOk, RefsOk, RefLinks, LoopFlags, Links, Rename, MovedMemory, Neighboured;
    KeysOfLinks(mem, f);
    LinksNeighboured(mem, f, c);
    if n == c {
      ResizedRepresents(mem, f, c, size);
      MovedNowhere(mem, f, c, size);
    } else {
      MovedRepresents(mem, f, c, n, size);
      RenameBusy(f, c, n);
      MovedKeys(mem, c, n, size);
    }
  }

  lemma MovedNowhere(mem: Memory, f: Forest, c: Ptr, size: nat)
    requires Ok(f) && Represents(mem, f) && f.busy == {} && c in mem && Neighboured(mem, c) && NULL !in mem
    ensures MovedMemory(mem, c, c, size) == mem[c := mem[c].(size := size)]
  {
    hide Ok, Represents;
    NeighbourLeadsBack(mem, f, c);
    assert (mem - {c})[c := mem[c]] == mem;
  }

  lemma NeighbourLeadsBack(mem: Memory, f: Forest, c: Ptr)
    requires Ok(f) && Represents(mem, f) && f.busy == {} && c in mem && Neighboured(mem, c)
    ensures mem[c].parent != NULL ==> mem[mem[c].parent].child == c
    ensures mem[c].child != NULL ==> mem[mem[c].child].parent == c
    ensures mem[c].prev != NULL ==> mem[mem[c].prev].next == c
    ensures mem[c].next != NULL ==> mem[mem[c].next].prev == c
  {
    hide Ok, Links, RefLinks, LoopFlags;
    if mem[c].parent != NULL { MutualLinks(mem, f, mem[c].parent, c); }
    if mem[c].child != NULL { MutualLinks(mem, f, c, mem[c].child); }
    if mem[c].prev != NULL { MutualLinks(mem, f, mem[c].prev, c); }
    if mem[c].next != NULL { MutualLinks(mem, f, c, mem[c].next); }
  }

  lemma MovedIs(mem: Memory, c: Ptr, n: Ptr, size: nat, m: Memory)
    requires Neighboured(mem, c) && NULL !in mem && (n == c || n !in mem) && n != NULL
    requires var t := mem[c];
      var m0 := (mem - {c})[n := t];
      var m1 := if m0[n].parent != NULL then m0[m0[n].parent := m0[m0[n].parent].(child := n)] else m0;
      var m2 := if m1[n].child != NULL then m1[m1[n].child := m1[m1[n].child].(parent := n)] else m1;
      var m3 := if m2[n].prev != NULL then m2[m2[n].prev := m2[m2[n].prev].(next := n)] else m2;
      var m4 := if m3[n].next != NULL then m3[m3[n].next := m3[m3[n].next].(prev := n)] else m3;
      m == m4[n := m4[n].(size := size)]
    ensures m == MovedMemory(mem, c, n, size)
  {
  }
}
