/** A chunk that is freed although its left neighbour is a reference handle. */
module TallocNeighbours {
  import opened Sequences
  import opened TallocTrees
  import opened TallocForest
  import opened TallocMemory
  import opened TallocHandles
  import opened TallocGrow
  import opened TallocHeap
  import opened TallocOwners
  import Spec = TallocFree

  /** The memory after handle `h` to `x` was freed. */
  function HandleFreed(mem: Memory, x: Ptr, h: Ptr): Memory
    requires Droppable(mem, x, h) && h in ReleasedMemory(mem, x, h) && Linkable(ReleasedMemory(mem, x, h), h)
  {
    UnlinkedMemory(ReleasedMemory(mem, x, h), h) - {h}
  }

  /** Chunk `c` is child number `i` of its parent, and the one before it is a handle. */
  ghost predicate BehindHandle(f: Forest, c: Ptr, i: nat) {
    && Ok(f) && f.busy == {} && c in f.par && c !in f.hnd && f.par[c] != NULL && f.par[c] in f.kids
    && 0 < i < |f.kids[f.par[c]]| && f.kids[f.par[c]][i] == c && f.kids[f.par[c]][i - 1] in f.hnd
  }

  lemma Neighbours(mem: Memory, f: Forest, c: Ptr, i: nat)
    requires Represents(mem, f) && BehindHandle(f, c, i)
    ensures var s, h := f.kids[f.par[c]], f.kids[f.par[c]][i - 1];
      && c in mem && h in mem && h != c && h != NULL && c != NULL && Linkable(mem, c) && Linkable(mem, h)
      && mem[c].prev == h && mem[c].parent == NULL && mem[h].next == c
      && f.hnd[h] in mem && f.hnd[h] != h && Droppable(mem, f.hnd[h], h)
      && (mem[h].parent != NULL ==> mem[h].prev == NULL)
      && mem[c].next != h && (mem[c].next != NULL ==> mem[c].next != mem[h].prev && mem[c].next != mem[h].parent)
  {
    hide WellFounded, LoopFlags, RefLinks;
    var s := f.kids[f.par[c]];
    var h := s[i - 1];
    assert s[i - 1] in s && s[i] in s;
    ChildLinkable(mem, f, c, i);
    ChildLinkable(mem, f, h, i - 1);
    var _ := HandleIndex(mem, f, h);
    NotOwnParent(f, f.par[c]);
    assert i + 1 < |s| ==> s[i + 1] in s;
    assert i > 1 ==> s[i - 2] in s;
  }

  /** `c` points to `h`, which has the place on its list that `c` had. */
  ghost predicate Pointing(m: Memory, c: Ptr, h: Ptr) {
    && c in m && h in m && h != c && c != NULL && m[c].prev == h && m[c].parent == NULL && m[h].next != c
    && Linkable(m, h) && (m[h].parent != NULL ==> m[h].prev == NULL)
  }

  lemma UnlinkedNeighbour(mem: Memory, c: Ptr, h: Ptr, x: Ptr)
    requires c in mem && h in mem && h != c && h != NULL && Linkable(mem, c) && Linkable(mem, h)
    requires mem[c].prev == h && mem[c].parent == NULL && mem[h].next == c && Droppable(mem, x, h)
    requires mem[h].parent != NULL ==> mem[h].prev == NULL
    requires mem[c].next != h && (mem[c].next != NULL ==> mem[c].next != mem[h].prev && mem[c].next != mem[h].parent)
    ensures Pointing(UnlinkedMemory(mem, c), c, h) && Droppable(UnlinkedMemory(mem, c), x, h)
  {
    hide UnlinkedMemory;
    UnlinkedField(mem, c, c);
    UnlinkedField(mem, c, h);
    UnlinkedField(mem, c, x);
  }

  lemma ReleasedNeighbour(m: Memory, c: Ptr, h: Ptr, x: Ptr)
    requires Pointing(m, c, h) && Droppable(m, x, h)
    ensures Pointing(ReleasedMemory(m, x, h), c, h)
  {
    hide ReleasedMemory;
    ReleasedField(m, x, h, c);
    ReleasedField(m, x, h, h);
  }

  lemma UnlinkedStays(m: Memory, c: Ptr, h: Ptr)
    requires Pointing(m, c, h)
    ensures Linkable(m, h) && var u := UnlinkedMemory(m, h) - {h};
      c in u && u[c].prev == h && u[c].parent == NULL && h !in u
  {
    hide UnlinkedMemory;
    UnlinkedField(m, h, c);
  }

  /** Taken off its list, `c` still points to the handle, and so it does when that is freed: from then
      on the way from `c` to its former parent leads through memory that was given back. */
  lemma LeadsIntoFreed(mem: Memory, f: Forest, c: Ptr, i: nat)
    requires Represents(mem, f) && BehindHandle(f, c, i)
    ensures var h := f.kids[f.par[c]][i - 1];
      && Linkable(mem, c) && Droppable(UnlinkedMemory(mem, c), f.hnd[h], h)
      && var m1 := UnlinkedMemory(mem, c);
      && h in ReleasedMemory(m1, f.hnd[h], h) && Linkable(ReleasedMemory(m1, f.hnd[h], h), h)
      && var m := HandleFreed(m1, f.hnd[h], h);
      && c in m && m[c].prev == h && h !in m && m[c].parent == NULL
  {
    Neighbours(mem, f, c, i);
    var h := f.kids[f.par[c]][i - 1];
    var x := f.hnd[h];
    hide *;
    var m1 := UnlinkedMemory(mem, c);
    UnlinkedNeighbour(mem, c, h, x);
    var m2 := ReleasedMemory(m1, x, h);
    ReleasedNeighbour(m1, c, h, x);
    UnlinkedStays(m2, c, h);
  }

  /** A forest of chunks without references. */
  ghost function Plain(par: ParentMap, kids: map<Ptr, seq<Ptr>>, stubborn: set<Ptr>): Forest {
    Forest(par, kids, map x | x in par :: [], map[], {}, stubborn)
  }

  /** Chunk 1 with the child 3, and 3 with the child 5. */
  ghost function Small(): Forest {
    Plain(map[1 := NULL, 3 := 1, 5 := 3], map[1 := [3], 3 := [5], 5 := []], {})
  }

  /** Then 3 also has the child 4, and 5 refuses. */
  ghost function Household(): Forest {
    Plain(map[1 := NULL, 3 := 1, 5 := 3, 4 := 3], map[1 := [3], 3 := [4, 5], 5 := [], 4 := []], {5})
  }

  /** And chunk 1 holds a reference, 2, to 4. */
  ghost function Visited(): Forest {
    Forest(map[1 := NULL, 3 := 1, 5 := 3, 4 := 3, 2 := 1], map[1 := [2, 3], 3 := [4, 5], 5 := [], 4 := [], 2 := []],
           map[1 := [], 3 := [], 5 := [], 4 := [2], 2 := []], map[2 := 4], {}, {5})
  }

  lemma SmallMade()
    ensures var f0 := Plain(map[], map[], {}); Shape(f0)
    ensures var f1 := NewChunk(Plain(map[], map[], {}), 1, NULL); Shape(f1) && 1 in f1.par
    ensures var f2 := NewChunk(NewChunk(Plain(map[], map[], {}), 1, NULL), 3, 1); Shape(f2) && 3 in f2.par
    ensures NewChunk(NewChunk(NewChunk(Plain(map[], map[], {}), 1, NULL), 3, 1), 5, 3) == Small()
  {
    var f0 := Plain(map[], map[], {});
    var f1 := NewChunk(f0, 1, NULL);
    assert f1 == Plain(map[1 := NULL], map[1 := []], {});
    var f2 := NewChunk(f1, 3, 1);
    assert [3] + [] == [3];
    assert f2 == Plain(map[1 := NULL, 3 := 1], map[1 := [3], 3 := []], {});
    assert [5] + [] == [5];
  }

  lemma HouseholdMade()
    ensures Shape(Small()) && 3 in Small().par && 4 !in Small().par && Small().hnd == map[]
    ensures var f := NewChunk(Small(), 4, 3); f.(stubborn := f.stubborn + {5}) == Household()
    ensures 5 in Household().par && Household().hnd == map[]
  {
    assert [4] + [5] == [4, 5];
  }

  lemma HouseholdShape()
    ensures Shape(Household()) && 1 in Household().par && 4 in Household().par && 2 !in Household().par
  {
  }

  lemma VisitedTree()
    requires Shape(Household()) && 1 in Household().par
    ensures var f := NewChunk(Household(), 2, 1); f.par == Visited().par && f.kids == Visited().kids
  {
    hide Shape;
    assert [2] + [3] == [2, 3];
  }

  lemma VisitedRefs()
    requires Shape(Household()) && 1 in Household().par && 4 in Household().par
    ensures var f := NewChunk(Household(), 2, 1);
      && 4 in f.refs && f.refs[4 := [2] + f.refs[4]] == Visited().refs && f.hnd[2 := 4] == Visited().hnd
      && f.busy == {} && f.stubborn == {5}
  {
    hide Shape;
    assert [2] + [] == [2];
  }

  lemma VisitedMade()
    ensures Shape(Household()) && 1 in Household().par && 4 in Household().par && 2 !in Household().par
    ensures ReferenceResult(Household(), 1, 4, 2) == Visited()
  {
    HouseholdShape();
    VisitedTree();
    VisitedRefs();
    assert Visited().busy == {} && Visited().stubborn == {5};
    hide NewChunk, Household, Visited;
  }

  method MakeSmall() returns (heap: Heap)
    ensures fresh(heap) && heap.Valid() && heap.forest == Small()
  {
    SmallMade();
    hide Ok, Represents, Allocated;
    heap := new Heap();
    Named(heap);
    var _ := heap.Alloc(NULL, 0, 1);
    Named(heap);
    var _ := heap.Alloc(1, 0, 3);
    Named(heap);
    var _ := heap.Alloc(3, 0, 5);
  }

  /** A program that comes to such a chunk: freeing 3 frees handle 2 with its first child, 4, and then
      its second one, 5, refuses, so that the parent of 3 is asked for. */
  method LostNeighbour() returns (heap: Heap)
    ensures fresh(heap) && heap.Valid() && heap.forest == Visited()
    ensures BehindHandle(Visited(), 3, 1) && Spec.Freeable(Visited(), 3) && !SafePlace(Visited(), 3)
  {
    HouseholdMade();
    VisitedMade();
    hide Ok, Represents, Allocated, KeepsSizes, AddsSize, SafePlace, Spec.Freeable, BehindHandle, ReferenceResult;
    hide NewChunk, Visited, Household, Small, Shape;
    heap := MakeSmall();
    Named(heap);
    var _ := heap.Alloc(3, 0, 4);
    Named(heap);
    heap.SetDestructor(5, true);
    Named(heap);
    var _ := heap.Reference(1, 4, 2);
    VisitedIs(heap);
  }

  lemma VisitedIs(heap: Heap)
    requires heap.Valid() && heap.forest == Visited()
    ensures BehindHandle(Visited(), 3, 1) && Spec.Freeable(Visited(), 3) && !SafePlace(Visited(), 3)
  {
    hide WellFounded, KidsOk, RefsOk, Represents;
    var s := Visited().kids[1];
    assert s[1] == 3 && s[0] == 2;
  }

  lemma Named(heap: Heap)
    requires heap.Valid()
    ensures heap.mem.Keys == heap.forest.par.Keys
  {
    KeysOfLinks(heap.mem, heap.forest);
  }
}
