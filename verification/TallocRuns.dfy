/** Runs of the allocator. */
module TallocRuns {
  import opened TallocTrees
  import opened TallocForest
  import opened TallocMemory
  import opened TallocGrow
  import opened TallocMoves
  import opened TallocHeap
  import opened TallocOwners
  import Spec = TallocFree

  /** The forest, and the size of every chunk. */
  datatype State = State(forest: Forest, sizes: map<Ptr, nat>)

  datatype Command =
    | Allocate(context: Ptr, size: nat, at: Ptr)
    | Move(newCtx: Ptr, ptr: Ptr)
    | Resize(context: Ptr, ptr: Ptr, size: nat, at: Ptr)
    | Release(ptr: Ptr)
    | ReleaseChildren(ptr: Ptr)
    | Refer(context: Ptr, ptr: Ptr, at: Ptr)
    | Unrefer(context: Ptr, ptr: Ptr)
    | Unlink(context: Ptr, ptr: Ptr)
    | SetDestructor(ptr: Ptr, refuses: bool)

  /** A context: a live chunk that is not a reference handle. */
  ghost predicate Context(f: Forest, p: Ptr) {
    p in f.par && p !in f.hnd
  }

  ghost predicate FreeAddress(f: Forest, at: Ptr) {
    at !in f.par && at != NULL
  }

  /** What the caller owes: live chunks as arguments, nothing moved beneath itself; and what
      `malloc` owes: a free address. */
  ghost predicate Allowed(f: Forest, cmd: Command)
    requires Ok(f)
  {
    match cmd
    case Allocate(context, size, at) => (context == NULL || Context(f, context)) && FreeAddress(f, at)
    case Move(newCtx, ptr) =>
      && Context(f, ptr)
      && (newCtx == NULL || newCtx == ptr || (Context(f, newCtx) && newCtx !in Desc(f.par, ptr)))
    case Resize(context, ptr, size, at) =>
      && (context == NULL || Context(f, context)) && (ptr == NULL || Context(f, ptr))
      && at != NULL && (at == ptr || FreeAddress(f, at))
      && (ptr != NULL && size == 0 ==> Spec.Freeable(f, ptr) && SafePlace(f, ptr))
    case Release(ptr) => Spec.Freeable(f, ptr) && SafePlace(f, ptr)
    case ReleaseChildren(ptr) => ptr == NULL || Spec.Emptiable(f, ptr)
    case Refer(context, ptr, at) => Context(f, context) && (ptr == NULL || Context(f, ptr)) && FreeAddress(f, at)
    case Unrefer(context, ptr) => ptr in f.par
    case Unlink(context, ptr) => ptr == NULL || (Unlinkable(f, ptr) && SafePlace(f, ptr))
    case SetDestructor(ptr, refuses) => Context(f, ptr)
  }

  /** The state in which only the chunks of `g` are left. */
  ghost function Left(s: State, g: Forest): State {
    State(g, map x | x in s.sizes && x in g.par :: s.sizes[x])
  }

  /** Resizing an unreferenced chunk: a little smaller it stays where it is, else it gets the new address. */
  ghost function Resized(s: State, ptr: Ptr, size: nat, at: Ptr): State
    requires Shape(s.forest) && ptr in s.forest.par && ptr in s.sizes
  {
    if size < s.sizes[ptr] && s.sizes[ptr] - size < 1024 then s.(sizes := s.sizes[ptr := size])
    else State(if at == ptr then s.forest else Rename(s.forest, ptr, at), (s.sizes - {ptr})[at := size])
  }

  /** Between commands nothing is being freed, and every chunk has a size. */
  ghost predicate Sound(s: State) {
    Ok(s.forest) && s.forest.busy == {} && s.sizes.Keys == s.forest.par.Keys
  }

  /** A state in which the command may be given. */
  ghost predicate Startable(s: State, cmd: Command) {
    Sound(s) && Allowed(s.forest, cmd)
  }

  /** The state after a command. */
  ghost function After(s: State, cmd: Command): State
    requires Startable(s, cmd)
  {
    var f := s.forest;
    match cmd
    case Allocate(context, size, at) =>
      if size < MAX_TALLOC_SIZE then State(NewChunk(f, at, context), s.sizes[at := size]) else s
    case Move(newCtx, ptr) => s.(forest := Steal(f, ptr, newCtx))
    case Resize(context, ptr, size, at) =>
      if size == 0 then (if ptr == NULL then s else Left(s, Spec.Free(f, ptr).0))
      else if size >= MAX_TALLOC_SIZE then s
      else if ptr == NULL then State(NewChunk(f, at, context), s.sizes[at := size])
      else if f.refs[ptr] != [] then s
      else Resized(s, ptr, size, at)
    case Release(ptr) => Left(s, Spec.Free(f, ptr).0)
    case ReleaseChildren(ptr) => if ptr == NULL then s else Left(s, Spec.FreeKids(f, ptr))
    case Refer(context, ptr, at) =>
      if ptr == NULL then s else State(ReferenceResult(f, context, ptr, at), s.sizes[at := HANDLE_SIZE])
    case Unrefer(context, ptr) => Left(s, UnreferenceResult(f, context, ptr).0)
    case Unlink(context, ptr) => if ptr == NULL then s else Left(s, UnlinkResult(f, context, ptr).0)
    case SetDestructor(ptr, refuses) =>
      s.(forest := f.(stubborn := if refuses then f.stubborn + {ptr} else f.stubborn - {ptr}))
  }

  ghost predicate Runnable(s: State, cmds: seq<Command>)
    decreases |cmds|
  {
    cmds == [] ||
    (Startable(s, cmds[0]) && Runnable(After(s, cmds[0]), cmds[1..]))
  }

  ghost function AfterAll(s: State, cmds: seq<Command>): State
    requires Runnable(s, cmds)
    decreases |cmds|
  {
    if cmds == [] then s else AfterAll(After(s, cmds[0]), cmds[1..])
  }

  ghost function SizesOf(mem: Memory): (z: map<Ptr, nat>)
    ensures z.Keys == mem.Keys
  {
    map x | x in mem :: mem[x].size
  }

  /** What the heap stands for. */
  ghost function StateOf(heap: Heap): State
    reads heap
  {
    State(heap.forest, SizesOf(heap.mem))
  }

  lemma SizesKept(m: Memory, m0: Memory, g: Forest, s: State)
    requires KeepsSizes(m, m0) && m.Keys == g.par.Keys && s.sizes == SizesOf(m0)
    ensures Left(s, g).sizes == SizesOf(m)
    ensures m.Keys == m0.Keys ==> SizesOf(m) == s.sizes
  {
  }

  lemma SizesAdded(m: Memory, m0: Memory, at: Ptr, size: nat)
    requires AddsSize(m, m0, at, size)
    ensures SizesOf(m) == SizesOf(m0)[at := size]
  {
  }

  lemma SizesWithout(m0: Memory, c: Ptr)
    ensures SizesOf(m0 - {c}) == SizesOf(m0) - {c}
  {
  }

  lemma HeapState(heap: Heap)
    requires heap.Valid()
    ensures Sound(StateOf(heap)) && heap.mem.Keys == heap.forest.par.Keys &&
      heap.forest.refs.Keys == heap.forest.par.Keys &&
      NULL !in heap.mem
  {
    KeysOfLinks(heap.mem, heap.forest);
  }

  lemma StealSameKeys(f: Forest, c: Ptr, p: Ptr)
    requires Shape(f) && c in f.par && (p == NULL || p in f.par)
    ensures Steal(f, c, p).busy == f.busy && Steal(f, c, p).par.Keys == f.par.Keys
  {
  }

  /** One command that takes away, or moves within the forest, but makes nothing. */
  method Shrink(heap: Heap, cmd: Command)
    requires heap.Valid() && Allowed(heap.forest, cmd)
    requires cmd.Release? || cmd.ReleaseChildren? || cmd.Unrefer? || cmd.Unlink? || cmd.SetDestructor? || cmd.Move?
    modifies heap
    ensures heap.Valid() && KeepsSizes(heap.mem, old(heap.mem))
    ensures Sound(old(StateOf(heap)))
    ensures heap.forest == After(old(StateOf(heap)), cmd).forest
    ensures cmd.SetDestructor? || cmd.Move? ==> heap.mem.Keys == old(heap.mem).Keys
  {
    HeapState(heap);
    hide Represents, SafePlace, Steal, Spec.Free, Spec.FreeKids, Desc, KeepsSizes, UnlinkResult, UnreferenceResult;
    hide Unlinkable;
    SameKeeps(heap.mem);
    match cmd {
      case Release(ptr) =>
        FreedNotBusy(heap.forest, ptr);
        var _ := heap.Free(ptr);
      case ReleaseChildren(ptr) => heap.FreeChildren(ptr);
      case Unrefer(context, ptr) => var _ := heap.Unreference(context, ptr);
      case Unlink(context, ptr) => var _ := heap.UnlinkContext(context, ptr);
      case SetDestructor(ptr, refuses) => heap.SetDestructor(ptr, refuses);
      case Move(newCtx, ptr) =>
        StealSameKeys(heap.forest, ptr, newCtx);
        heap.Steal(newCtx, ptr);
    }
  }

  /** A command that makes a chunk. */
  method Grow(heap: Heap, cmd: Command)
    requires heap.Valid() && Allowed(heap.forest, cmd) && (cmd.Allocate? || cmd.Refer?)
    modifies heap
    ensures Sound(old(StateOf(heap)))
    ensures heap.Valid() && StateOf(heap) == After(old(StateOf(heap)), cmd)
  {
    HeapState(heap);
    hide Represents, AddsSize, ReferenceResult, NewChunk, NewMemory, KidsOk, RefsOk, WellFounded;
    match cmd {
      case Allocate(context, size, at) =>
        var _ := heap.Alloc(context, size, at);
        if size < MAX_TALLOC_SIZE { SizesAdded(heap.mem, old(heap.mem), at, size); }
      case Refer(context, ptr, at) =>
        var _ := heap.Reference(context, ptr, at);
        if ptr != NULL { SizesAdded(heap.mem, old(heap.mem), at, HANDLE_SIZE); }
    }
  }

  /** Resizing. */
  method Change(heap: Heap, context: Ptr, ptr: Ptr, size: nat, at: Ptr)
    requires heap.Valid() && Allowed(heap.forest, Resize(context, ptr, size, at))
    modifies heap
    ensures Sound(old(StateOf(heap)))
    ensures heap.Valid() && StateOf(heap) == After(old(StateOf(heap)), Resize(context, ptr, size, at))
  {
    HeapState(heap);
    ResizeAllowed(StateOf(heap), context, ptr, size, at);
    hide Sound, Startable, After, Allowed, Ok, Represents, SafePlace, Spec.Free, Spec.Freeable, KeepsSizes, AddsSize;
    hide Rename, NewChunk, SizesOf, Shape;
    ghost var f, m0 := heap.forest, heap.mem;
    var r := heap.Realloc(context, ptr, size, at);
    HeapState(heap);
    if size == 0 {
      Vanished(f, m0, heap.forest, heap.mem, context, ptr, at);
    } else if size >= MAX_TALLOC_SIZE || (ptr != NULL && f.refs[ptr] != []) {
      Refused(State(f, SizesOf(m0)), context, ptr, size, at);
    } else if ptr == NULL {
      Made(f, m0, heap.mem, context, size, at);
    } else {
      Changed(State(f, SizesOf(m0)), context, ptr, size, at);
      ChangedSizes(m0, heap.mem, ptr, r, size);
    }
  }

  lemma ResizeAllowed(s: State, context: Ptr, ptr: Ptr, size: nat, at: Ptr)
    requires Startable(s, Resize(context, ptr, size, at))
    ensures var f := s.forest;
      && (context == NULL || (context in f.par && context !in f.hnd))
      && (ptr == NULL || (ptr in f.par && ptr !in f.hnd && ptr in f.refs))
      && at != NULL && (at == ptr || at !in f.par)
      && (ptr != NULL && size == 0 ==> Spec.Freeable(f, ptr) && SafePlace(f, ptr))
      && Shape(f)
  {
    hide KidsOk, RefsOk, WellFounded, Spec.Freeable, SafePlace;
  }

  lemma Vanished(f: Forest, m0: Memory, g: Forest, m: Memory, context: Ptr, ptr: Ptr, at: Ptr)
    requires Startable(State(f, SizesOf(m0)), Resize(context, ptr, 0, at)) && KeepsSizes(m, m0) && m.Keys == g.par.Keys
    requires m0.Keys == f.par.Keys
    requires g == if ptr == NULL then f else Spec.Free(f, ptr).0
    ensures State(g, SizesOf(m)) == After(State(f, SizesOf(m0)), Resize(context, ptr, 0, at))
  {
    hide Ok, SafePlace, Spec.Freeable, Spec.Free, NewChunk, Rename;
    SizesKept(m, m0, g, State(f, SizesOf(m0)));
    hide Left, SizesOf, KeepsSizes;
  }

  lemma Refused(s: State, context: Ptr, ptr: Ptr, size: nat, at: Ptr)
    requires Startable(s, Resize(context, ptr, size, at)) && size > 0
    requires size >= MAX_TALLOC_SIZE || (ptr in s.forest.refs && s.forest.refs[ptr] != [])
    ensures After(s, Resize(context, ptr, size, at)) == s
  {
  }

  lemma Made(f: Forest, m0: Memory, m: Memory, context: Ptr, size: nat, at: Ptr)
    requires Startable(State(f, SizesOf(m0)), Resize(context, NULL, size, at)) && 0 < size < MAX_TALLOC_SIZE
    requires AddsSize(m, m0, at, size)
    ensures Shape(f) && (context == NULL || context in f.par)
    ensures State(NewChunk(f, at, context), SizesOf(m)) ==
      After(State(f, SizesOf(m0)), Resize(context, NULL, size, at))
  {
    hide SafePlace, Spec.Freeable, Spec.Free, NewChunk, Rename, KidsOk, RefsOk, WellFounded;
    SizesAdded(m, m0, at, size);
    hide SizesOf, AddsSize;
  }

  lemma ChangedSizes(m0: Memory, m: Memory, ptr: Ptr, r: Ptr, size: nat)
    requires AddsSize(m, m0 - {ptr}, r, size)
    ensures SizesOf(m) == (SizesOf(m0) - {ptr})[r := size]
  {
    SizesWithout(m0, ptr);
    SizesAdded(m, m0 - {ptr}, r, size);
  }

  lemma Changed(s: State, context: Ptr, ptr: Ptr, size: nat, at: Ptr)
    requires Startable(s, Resize(context, ptr, size, at)) && 0 < size < MAX_TALLOC_SIZE
    requires ptr != NULL && ptr in s.forest.par && ptr in s.sizes && ptr in s.forest.refs && s.forest.refs[ptr] == []
    ensures After(s, Resize(context, ptr, size, at)) ==
      if size < s.sizes[ptr] && s.sizes[ptr] - size < 1024 then State(s.forest, (s.sizes - {ptr})[ptr := size])
      else State(if at == ptr then s.forest else Rename(s.forest, ptr, at), (s.sizes - {ptr})[at := size])
  {
    assert (s.sizes - {ptr})[ptr := size] == s.sizes[ptr := size];
  }

  /** One command. */
  method Perform(heap: Heap, cmd: Command)
    requires heap.Valid() && Allowed(heap.forest, cmd)
    modifies heap
    ensures Sound(old(StateOf(heap)))
    ensures heap.Valid() && StateOf(heap) == After(old(StateOf(heap)), cmd)
  {
    HeapState(heap);
    assert Startable(StateOf(heap), cmd);
    hide Sound, Startable, After, Allowed, Ok, Represents, KeepsSizes, SizesOf;
    ghost var f, m0 := heap.forest, heap.mem;
    if cmd.Resize? {
      Change(heap, cmd.context, cmd.ptr, cmd.size, cmd.at);
    } else if cmd.Allocate? || cmd.Refer? {
      Grow(heap, cmd);
    } else {
      Shrink(heap, cmd);
      HeapState(heap);
      Shrunk(f, m0, heap.forest, heap.mem, cmd);
    }
  }

  lemma Shrunk(f: Forest, m0: Memory, g: Forest, m: Memory, cmd: Command)
    requires Startable(State(f, SizesOf(m0)), cmd) && KeepsSizes(m, m0) && m.Keys == g.par.Keys
    requires cmd.Release? || cmd.ReleaseChildren? || cmd.Unrefer? || cmd.Unlink? || cmd.SetDestructor? || cmd.Move?
    requires g == After(State(f, SizesOf(m0)), cmd).forest
    requires cmd.SetDestructor? || cmd.Move? ==> m.Keys == m0.Keys
    ensures State(g, SizesOf(m)) == After(State(f, SizesOf(m0)), cmd)
  {
    var s := State(f, SizesOf(m0));
    assert Sound(s) && f.par.Keys == m0.Keys;
    hide Sound, Startable, Allowed, After, Ok;
    SizesKept(m, m0, g, s);
    ShrunkSizes(s, cmd);
  }

  lemma ShrunkSizes(s: State, cmd: Command)
    requires Startable(s, cmd)
    requires cmd.Release? || cmd.ReleaseChildren? || cmd.Unrefer? || cmd.Unlink? || cmd.SetDestructor? || cmd.Move?
    ensures var t := After(s, cmd);
      t.sizes == Left(s, t.forest).sizes || (t.sizes == s.sizes &&
        (cmd.SetDestructor? || cmd.Move? || t.forest == s.forest))
  {
    hide KidsOk, RefsOk, WellFounded, SafePlace, Steal, Spec.Free, Spec.FreeKids, UnlinkResult, UnreferenceResult;
    hide Unlinkable, Spec.Freeable, Spec.Emptiable, NewChunk, Rename, ReferenceResult, Desc, Shape;
  }

  /** Every run takes a memory that represents a forest to one that represents the forest its
      commands make of it, with every chunk at its last address and of its last size. */
  method Run(heap: Heap, cmds: seq<Command>)
    requires heap.Valid() && Runnable(StateOf(heap), cmds)
    modifies heap
    ensures heap.Valid() && StateOf(heap) == AfterAll(old(StateOf(heap)), cmds)
  {
    hide Ok, Represents, Allowed, After;
    ghost var s := StateOf(heap);
    var i := 0;
    assert cmds[0..] == cmds;
    while i < |cmds|
      invariant 0 <= i <= |cmds| && heap.Valid() && Runnable(StateOf(heap), cmds[i..])
      invariant AfterAll(StateOf(heap), cmds[i..]) == AfterAll(s, cmds)
    {
      assert cmds[i..][0] == cmds[i] && cmds[i..][1..] == cmds[i + 1..];
      Perform(heap, cmds[i]);
      i := i + 1;
    }
    assert cmds[i..] == [];
  }

  /** After a resize that moves a chunk a run goes on with it: at its new address it is a chunk with
      its old parent and its new size, and the old address is free for another. */
  lemma MovedAndUsed(s: State, c: Ptr, n: Ptr, size: nat)
    requires Startable(s, Resize(NULL, c, size, n)) && c != NULL && c in s.forest.refs && s.forest.refs[c] == [] &&
      n != c
    requires 0 < size < MAX_TALLOC_SIZE && c in s.sizes && (size >= s.sizes[c] || s.sizes[c] - size >= 1024)
    ensures var t := After(s, Resize(NULL, c, size, n));
      && n in t.forest.par && t.forest.par[n] == s.forest.par[c] && n in t.sizes && t.sizes[n] == size
      && Startable(t, Move(NULL, n)) && Startable(t, Allocate(n, size, c))
      && forall rest {:trigger Runnable(t, rest)} :: Runnable(t, rest) ==>
        Runnable(s, [Resize(NULL, c, size, n)] + rest)
  {
    Changed(s, NULL, c, size, n);
    var cmd := Resize(NULL, c, size, n);
    var t, f := After(s, cmd), s.forest;
    RenameOk(f, c, n);
    RenameBusy(f, c, n);
    RenamedKeys(f, c, n);
    OwnParent(f, c);
    forall rest {:trigger Runnable(t, rest)} | Runnable(t, rest)
      ensures Runnable(s, [cmd] + rest)
    {
      assert ([cmd] + rest)[0] == cmd && ([cmd] + rest)[1..] == rest;
    }
  }
}
