/** Memory pools: bump allocation inside one block, and the object count that decides when the
    block is given back. */
module Pools {
  const HDR_SIZE := 80
  const POOL_HDR_SIZE := 16
  const MAX_TALLOC_SIZE := 0x1000_0000

  /** The part of a chunk header that pools use. For a pool `link` is the end of the part of its
      block that is in use; for a member it is the address of its pool. The header of a pool that
      was freed stays as long as its block does. */
  datatype Cell = Cell(size: nat, pool: bool, member: bool, link: nat, freed: bool)

  type Cells = map<nat, Cell>

  function RoundUp(n: nat): (r: nat)
    ensures r % 16 == 0 && n <= r < n + 16
  {
    (n + 15) / 16 * 16
  }

  lemma RoundUpMonotone(m: nat, n: nat)
    requires m <= n
    ensures RoundUp(m) <= RoundUp(n)
  {
    assert (m + 15) / 16 <= (n + 15) / 16;
  }

  function Start(p: nat): nat {
    p + HDR_SIZE + POOL_HDR_SIZE
  }

  function End(cells: Cells, x: nat): nat
    requires x in cells
  {
    x + HDR_SIZE + cells[x].size
  }

  /** The end of the room a pool member takes. */
  function RoomEnd(cells: Cells, x: nat): nat
    requires x in cells
  {
    x + RoundUp(HDR_SIZE + cells[x].size)
  }

  ghost function Members(cells: Cells, p: nat): set<nat> {
    set x | x in cells && cells[x].member && cells[x].link == p
  }

  ghost predicate MemberOk(cells: Cells, x: nat)
    requires x in cells
  {
    cells[x].member ==>
      && cells[x].link in cells && cells[cells[x].link].pool && !cells[x].pool && x % 16 == 0
      && Start(cells[x].link) <= x && RoomEnd(cells, x) <= cells[cells[x].link].link
  }

  ghost predicate PoolOk(cells: Cells, p: nat)
    requires p in cells
  {
    cells[p].pool ==>
      !cells[p].member && p % 16 == 0 && cells[p].link % 16 == 0 && Start(p) <= cells[p].link <= End(cells, p)
  }

  ghost predicate Apart(cells: Cells, x: nat, y: nat)
    requires x in cells && y in cells
  {
    && (!cells[x].member && !cells[y].member ==> End(cells, x) <= y || End(cells, y) <= x)
    && (cells[x].member && cells[y].member && cells[x].link == cells[y].link ==>
          RoomEnd(cells, x) <= y || RoomEnd(cells, y) <= x)
  }

  ghost predicate CellsOk(cells: Cells) {
    && 0 !in cells
    && (forall x {:trigger cells[x]} :: x in cells ==>
      MemberOk(cells, x) && PoolOk(cells, x) && (cells[x].freed ==> cells[x].pool))
    && (forall x, y {:trigger Apart(cells, x, y)} :: x in cells && y in cells && x != y ==> Apart(cells, x, y))
  }

  ghost function ObjectCount(cells: Cells, p: nat): nat
    requires p in cells
  {
    |Members(cells, p)| + if cells[p].freed then 0 else 1
  }

  ghost predicate CountsOk(cells: Cells, counts: map<nat, nat>) {
    && (forall p {:trigger p in counts} {:trigger cells[p]} :: p in counts <==> p in cells && cells[p].pool)
    && (forall p {:trigger counts[p]} :: p in counts ==> counts[p] == ObjectCount(cells, p))
  }

  /** Address `at` is what `malloc` can return for a block of `bytes` bytes. */
  ghost predicate Unused(cells: Cells, at: nat, bytes: nat) {
    at != 0 && at % 16 == 0
    && forall x {:trigger cells[x]} :: x in cells && !cells[x].member ==> End(cells, x) <= at || at + bytes <= x
  }

  /** The bytes of live chunks do not overlap: those of a member lie behind the headers of its pool,
      and any two other chunks are apart. */
  lemma LiveChunksApart(cells: Cells, x: nat, y: nat)
    requires CellsOk(cells) && x in cells && y in cells && x != y
    ensures cells[y].member && cells[y].link == x ==> Start(x) <= y && End(cells, y) <= End(cells, x)
    ensures !(cells[y].member && cells[y].link == x) && !(cells[x].member && cells[x].link == y) ==>
      End(cells, x) <= y || End(cells, y) <= x
  {
    assert MemberOk(cells, x) && MemberOk(cells, y) && PoolOk(cells, x) && PoolOk(cells, y);
    assert Apart(cells, x, y);
    var bx := if cells[x].member then cells[x].link else x;
    var b := if cells[y].member then cells[y].link else y;
    assert PoolOk(cells, bx) && PoolOk(cells, b);
    if bx != b {
      assert Apart(cells, bx, b);
    }
  }

  lemma Facts(cells: Cells, counts: map<nat, nat>, x: nat)
    requires CellsOk(cells) && CountsOk(cells, counts) && x in cells
    ensures x != 0 && MemberOk(cells, x) && PoolOk(cells, x)
    ensures cells[x].freed ==> cells[x].pool
    ensures cells[x].pool ==> x in counts && counts[x] == ObjectCount(cells, x)
    ensures forall y :: y in Members(cells, x) ==> RoomEnd(cells, y) <= cells[x].link
    ensures !cells[x].pool ==> x !in counts && Members(cells, x) == {}
    ensures cells[x].member ==>
      var p := cells[x].link;
      p in counts && counts[p] == ObjectCount(cells, p) && p != x && p != 0 && PoolOk(cells, p) &&
        x in Members(cells, p) && counts[p] > 0
  {
    forall y | y in cells && cells[y].member && cells[y].link == x
      ensures cells[x].pool && RoomEnd(cells, y) <= cells[x].link
    {
      assert MemberOk(cells, y);
    }
    if cells[x].member {
      assert PoolOk(cells, cells[x].link);
      assert x in Members(cells, cells[x].link);
    }
  }

  /** Where a new chunk of `p` goes, if there is room. */
  ghost predicate Room(cells: Cells, p: nat, bytes: nat)
    requires p in cells
  {
    cells[p].link + RoundUp(bytes) <= End(cells, p)
  }

  /** The pool that a chunk allocated below `parent` is taken from, or 0. */
  function PoolOf(cells: Cells, parent: nat): nat
    requires parent != 0 ==> parent in cells
  {
    if parent == 0 then 0
    else if cells[parent].pool then parent
    else if cells[parent].member then cells[parent].link
    else 0
  }

  function Placed(cells: Cells, p: nat, size: nat): Cells
    requires p in cells
  {
    var r := cells[p].link;
    cells[p := cells[p].(link := r + RoundUp(HDR_SIZE + size))][r := Cell(size, false, true, p, false)]
  }

  ghost predicate Placeable(cells: Cells, p: nat, size: nat) {
    CellsOk(cells) && p in cells && cells[p].pool && Room(cells, p, HDR_SIZE + size)
  }

  lemma FreshSpot(cells: Cells, p: nat, size: nat)
    requires Placeable(cells, p, size)
    ensures PoolOk(cells, p) && cells[p].link !in cells && cells[p].link != 0 && cells[p].link % 16 == 0
  {
    hide RoundUp;
    var r := cells[p].link;
    assert PoolOk(cells, p);
    assert RoundUp(HDR_SIZE + size) > 0;
    if r in cells {
      assert MemberOk(cells, r);
      LiveChunksApart(cells, p, r);
      assert false;
    }
  }

  lemma PlacedMember(cells: Cells, p: nat, size: nat, x: nat)
    requires Placeable(cells, p, size) && x in cells && PoolOk(cells, p) && cells[p].link !in cells
    ensures MemberOk(Placed(cells, p, size), x) && PoolOk(Placed(cells, p, size), x)
  {
    hide RoundUp;
    assert MemberOk(cells, x) && PoolOk(cells, x);
    assert RoundUp(HDR_SIZE + size) % 16 == 0;
  }

  lemma PlacedOk(cells: Cells, p: nat, size: nat)
    requires Placeable(cells, p, size)
    ensures cells[p].link !in cells && CellsOk(Placed(cells, p, size))
  {
    hide RoundUp;
    var r, c := cells[p].link, Placed(cells, p, size);
    FreshSpot(cells, p, size);
    PlacedMember(cells, p, size, p);
    hide Room;
    forall x | x in c
      ensures MemberOk(c, x) && PoolOk(c, x) && (c[x].freed ==> c[x].pool)
    {
      if x != r {
        PlacedMember(cells, p, size, x);
      }
    }
    forall x, y | x in c && y in c && x != y
      ensures Apart(c, x, y)
    {
      PlacedApart(cells, p, size, x, y);
    }
  }

  lemma PlacedApart(cells: Cells, p: nat, size: nat, x: nat, y: nat)
    requires Placeable(cells, p, size) && cells[p].link !in cells
    requires x in Placed(cells, p, size) && y in Placed(cells, p, size) && x != y
    ensures Apart(Placed(cells, p, size), x, y)
  {
    hide RoundUp;
    var r := cells[p].link;
    assert PoolOk(cells, p);
    if x != r && y != r {
      assert Apart(cells, x, y);
    } else {
      var z := if x == r then y else x;
      assert MemberOk(cells, z);
    }
  }

  lemma MembersPlus(cells: Cells, c: Cells, p: nat, r: nat)
    requires r !in Members(cells, p) && Members(c, p) == Members(cells, p) + {r}
    ensures |Members(c, p)| == |Members(cells, p)| + 1
  {
  }

  lemma MembersMinus(cells: Cells, c: Cells, p: nat, r: nat)
    requires r in Members(cells, p) && Members(c, p) == Members(cells, p) - {r}
    ensures |Members(c, p)| == |Members(cells, p)| - 1
  {
  }

  lemma PlacedCounts(cells: Cells, counts: map<nat, nat>, p: nat, size: nat)
    requires Placeable(cells, p, size) && CountsOk(cells, counts) && cells[p].link !in cells
    ensures p in counts && CountsOk(Placed(cells, p, size), counts[p := counts[p] + 1])
  {
    hide CellsOk, RoundUp, Room;
    var r, c := cells[p].link, Placed(cells, p, size);
    assert p in counts;
    forall q | q in counts
      ensures ObjectCount(c, q) == ObjectCount(cells, q) + if q == p then 1 else 0
    {
      PlacedCount(cells, p, size, q);
    }
    hide ObjectCount;
  }

  lemma PlacedCount(cells: Cells, p: nat, size: nat, q: nat)
    requires Placeable(cells, p, size) && cells[p].link !in cells && q in cells
    ensures ObjectCount(Placed(cells, p, size), q) == ObjectCount(cells, q) + if q == p then 1 else 0
  {
    hide CellsOk, RoundUp, Room;
    PlacedMembers(cells, p, size, q);
    if q == p { MembersPlus(cells, Placed(cells, p, size), p, cells[p].link); }
  }

  lemma PlacedMembers(cells: Cells, p: nat, size: nat, q: nat)
    requires Placeable(cells, p, size) && cells[p].link !in cells && q in cells && q != cells[p].link
    ensures cells[p].link !in Members(cells, p)
    ensures Members(Placed(cells, p, size), q) ==
      if q == p then Members(cells, p) + {cells[p].link} else Members(cells, q)
  {
    assert PoolOk(cells, p);
  }

  /** A block from `malloc`. */
  lemma FreshOk(cells: Cells, counts: map<nat, nat>, at: nat, cell: Cell)
    requires CellsOk(cells) && CountsOk(cells, counts) && Unused(cells, at, HDR_SIZE + cell.size)
    requires !cell.member && !cell.freed && (cell.pool ==> cell.link == Start(at) && cell.size >= POOL_HDR_SIZE)
    ensures at !in cells && at !in counts && CellsOk(cells[at := cell])
    ensures CountsOk(cells[at := cell], if cell.pool then counts[at := 1] else counts)
  {
    hide RoundUp, ObjectCount, CountsOk, CellsOk, Unused;
    FreshAddress(cells, at, HDR_SIZE + cell.size);
    FreshCounts(cells, counts, at, cell);
    FreshCells(cells, at, cell);
  }

  lemma FreshMember(cells: Cells, at: nat, cell: Cell, x: nat)
    requires CellsOk(cells) && Unused(cells, at, HDR_SIZE + cell.size) && at !in cells && (x == at || x in cells)
    requires !cell.member && !cell.freed && (cell.pool ==> cell.link == Start(at) && cell.size >= POOL_HDR_SIZE)
    ensures var c := cells[at := cell]; MemberOk(c, x) && PoolOk(c, x) && (c[x].freed ==> c[x].pool)
  {
    hide Apart, RoundUp;
    if x != at { assert MemberOk(cells, x) && PoolOk(cells, x); }
  }

  lemma FreshCells(cells: Cells, at: nat, cell: Cell)
    requires CellsOk(cells) && Unused(cells, at, HDR_SIZE + cell.size)
    requires !cell.member && !cell.freed && (cell.pool ==> cell.link == Start(at) && cell.size >= POOL_HDR_SIZE)
    ensures CellsOk(cells[at := cell])
  {
    FreshAddress(cells, at, HDR_SIZE + cell.size);
    var c := cells[at := cell];
    forall x | x in c
      ensures MemberOk(c, x) && PoolOk(c, x) && (c[x].freed ==> c[x].pool)
    {
      FreshMember(cells, at, cell, x);
    }
    hide RoundUp, MemberOk, PoolOk;
    forall x, y | x in c && y in c && x != y
      ensures Apart(c, x, y)
    {
      if x != at && y != at { assert Apart(cells, x, y); }
    }
  }

  lemma FreshAddress(cells: Cells, at: nat, bytes: nat)
    requires CellsOk(cells) && Unused(cells, at, bytes) && bytes >= HDR_SIZE
    ensures at !in cells
  {
    if at in cells && cells[at].member {
      InsideBlock(cells, at);
      assert false;
    }
  }

  lemma InsideBlock(cells: Cells, x: nat)
    requires CellsOk(cells) && x in cells && cells[x].member
    ensures var p := cells[x].link; p in cells && !cells[p].member && p < x < End(cells, p)
  {
    assert MemberOk(cells, x);
    assert PoolOk(cells, cells[x].link);
    LiveChunksApart(cells, cells[x].link, x);
  }

  lemma FreshCounts(cells: Cells, counts: map<nat, nat>, at: nat, cell: Cell)
    requires CellsOk(cells) && CountsOk(cells, counts) && at !in cells && !cell.member && !cell.freed
    ensures at !in counts
    ensures CountsOk(cells[at := cell], if cell.pool then counts[at := 1] else counts)
  {
    var c := cells[at := cell];
    forall q | q in cells
      ensures Members(c, q) == Members(cells, q)
    {
    }
    forall y
      ensures y !in Members(c, at)
    {
      if y in cells { assert MemberOk(cells, y); }
    }
    assert Members(c, at) == {};
  }

  /** A member leaves its pool. */
  lemma LeaveOk(cells: Cells, counts: map<nat, nat>, x: nat)
    requires CellsOk(cells) && CountsOk(cells, counts) && x in cells && cells[x].member
    ensures var p := cells[x].link;
      p in counts && p in cells && counts[p] > 0 && x != p && !cells[x].pool
      && CellsOk(cells - {x}) && CountsOk(cells - {x}, counts[p := counts[p] - 1])
  {
    var p, c := cells[x].link, cells - {x};
    assert MemberOk(cells, x);
    assert PoolOk(cells, p);
    RemoveOk(cells, x);
    assert x in Members(cells, p);
    LeaveCounts(cells, counts, x);
  }

  lemma LeaveCounts(cells: Cells, counts: map<nat, nat>, x: nat)
    requires CountsOk(cells, counts) && x in cells && cells[x].member && cells[x].link in counts && cells[x].link != x
    requires !cells[x].pool && cells[x].link in cells && counts[cells[x].link] > 0
    ensures CountsOk(cells - {x}, counts[cells[x].link := counts[cells[x].link] - 1])
  {
    hide RoundUp;
    var p, c := cells[x].link, cells - {x};
    assert x in Members(cells, p);
    forall q | q in counts
      ensures Members(c, q) == if q == p then Members(cells, p) - {x} else Members(cells, q)
    {
    }
    MembersMinus(cells, c, p, x);
  }

  lemma RemoveOk(cells: Cells, x: nat)
    requires CellsOk(cells) && x in cells && (Members(cells, x) == {} || cells[x].member)
    ensures CellsOk(cells - {x})
  {
    var c := cells - {x};
    assert MemberOk(cells, x);
    assert cells[x].member ==> PoolOk(cells, cells[x].link);
    forall y | y in c
      ensures MemberOk(c, y) && PoolOk(c, y)
    {
      assert MemberOk(cells, y) && PoolOk(cells, y);
      assert y in Members(cells, cells[y].link) || !cells[y].member;
    }
    forall y, z | y in c && z in c && y != z
      ensures Apart(c, y, z)
    {
      assert Apart(cells, y, z);
    }
  }

  lemma RemoveBlock(cells: Cells, counts: map<nat, nat>, x: nat)
    requires CellsOk(cells) && CountsOk(cells, counts) && x in cells && !cells[x].member
    requires cells[x].pool ==> cells[x].freed && counts[x] == 0
    ensures CellsOk(cells - {x}) && CountsOk(cells - {x}, counts - {x})
  {
    if cells[x].pool {
      assert counts[x] == ObjectCount(cells, x);
      assert Members(cells, x) == {};
    }
    Facts(cells, counts, x);
    RemoveOk(cells, x);
    RemoveCounts(cells, counts, x);
  }

  lemma RemoveCounts(cells: Cells, counts: map<nat, nat>, x: nat)
    requires CellsOk(cells) && CountsOk(cells, counts) && x in cells && !cells[x].member
    ensures CountsOk(cells - {x}, counts - {x})
  {
    forall q
      ensures Members(cells - {x}, q) == Members(cells, q)
    {
    }
  }

  ghost predicate Updatable(cells: Cells, x: nat, cell: Cell) {
    && CellsOk(cells) && x in cells && cell.pool == cells[x].pool && cell.member == cells[x].member
    && cell.size <= cells[x].size && (cell.freed ==> cell.pool)
    && (cell.pool ==> cell.size == cells[x].size && cell.link % 16 == 0 && Start(x) <= cell.link <= End(cells, x))
    && (cell.member ==> cell.link == cells[x].link)
    && (forall y {:trigger y in Members(cells, x)} :: y in Members(cells, x) ==> RoomEnd(cells, y) <= cell.link)
  }

  lemma UpdateOne(cells: Cells, x: nat, cell: Cell, y: nat)
    requires Updatable(cells, x, cell) && y in cells
    ensures MemberOk(cells[x := cell], y) && PoolOk(cells[x := cell], y)
  {
    hide RoundUp, Apart;
    RoundUpMonotone(HDR_SIZE + cell.size, HDR_SIZE + cells[x].size);
    assert MemberOk(cells, y) && PoolOk(cells, y);
    if cells[y].member && cells[y].link == x {
      assert y in Members(cells, x);
    }
    if y == x && cells[x].member {
      assert PoolOk(cells, cells[x].link);
    }
  }

  lemma UpdateApart(cells: Cells, x: nat, cell: Cell, y: nat, z: nat)
    requires Updatable(cells, x, cell) && y in cells && z in cells && y != z
    ensures Apart(cells[x := cell], y, z)
  {
    hide RoundUp, MemberOk, PoolOk, Members;
    RoundUpMonotone(HDR_SIZE + cell.size, HDR_SIZE + cells[x].size);
    assert Apart(cells, y, z);
  }

  /** Changes of a header that move nothing. */
  lemma UpdateOk(cells: Cells, x: nat, cell: Cell)
    requires Updatable(cells, x, cell)
    ensures CellsOk(cells[x := cell])
  {
    hide RoundUp, MemberOk, PoolOk, Apart, Members;
    var c := cells[x := cell];
    forall y | y in c
      ensures MemberOk(c, y) && PoolOk(c, y) && (c[y].freed ==> c[y].pool)
    {
      UpdateOne(cells, x, cell, y);
    }
    forall y, z | y in c && z in c && y != z
      ensures Apart(c, y, z)
    {
      UpdateApart(cells, x, cell, y, z);
    }
  }

  lemma UpdateCounts(cells: Cells, counts: map<nat, nat>, x: nat, cell: Cell)
    requires CountsOk(cells, counts) && x in cells && cell.pool == cells[x].pool && cell.member == cells[x].member
    requires cell.member ==> cell.link == cells[x].link
    requires cell.freed != cells[x].freed ==> cell.pool && cell.freed
    ensures cell.pool ==> x in counts
    ensures var fewer := cell.freed != cells[x].freed && x in counts && counts[x] > 0;
      CountsOk(cells[x := cell], if fewer then counts[x := counts[x] - 1] else counts)
  {
    forall q
      ensures Members(cells[x := cell], q) == Members(cells, q)
    {
    }
    assert cell.pool ==> x in counts;
  }

  /** The pool that a live chunk allocates from has an object. */
  lemma OwnPool(cells: Cells, counts: map<nat, nat>, x: nat)
    requires CellsOk(cells) && CountsOk(cells, counts) && x in cells && !cells[x].freed && x != 0
    ensures var p := PoolOf(cells, x); p != 0 ==>
      p in cells && cells[p].pool && p in counts && counts[p] > 0 && p != cells[p].link
  {
    Facts(cells, counts, x);
    if cells[x].pool { LivePool(cells, counts, x); }
  }

  lemma LivePool(cells: Cells, counts: map<nat, nat>, p: nat)
    requires CountsOk(cells, counts) && p in cells && cells[p].pool && !cells[p].freed
    ensures p in counts && counts[p] > 0
  {
  }

  lemma NothingInPool(cells: Cells, counts: map<nat, nat>, p: nat)
    requires CountsOk(cells, counts) && p in counts && counts[p] == 0
    ensures p in cells && cells[p].pool && !cells[p].member && cells[p].freed
    requires CellsOk(cells)
  {
    assert counts[p] == ObjectCount(cells, p);
    assert PoolOk(cells, p);
  }

  /** The headers after `x` is freed, as long as the block it is in stays. */
  ghost function Released(cells: Cells, x: nat): Cells
    requires x in cells
  {
    if cells[x].pool then cells[x := cells[x].(freed := true)] else cells - {x}
  }

  /** Pools whose block is kept although no object is left. */
  ghost function Leaked(counts: map<nat, nat>): set<nat> {
    set p | p in counts && counts[p] == 0
  }

  /** All headers, and the object count of every pool. */
  datatype PoolState = PoolState(cells: Cells, counts: map<nat, nat>)

  /** Adding a chunk of `size` bytes for `parent`: in its pool if there is room, else at `at`. */
  ghost function Added(s: PoolState, parent: nat, size: nat, at: nat): PoolState
    requires parent != 0 ==> parent in s.cells
  {
    var p := PoolOf(s.cells, parent);
    if p != 0 && p in s.cells && p in s.counts && Room(s.cells, p, HDR_SIZE + size) then
      PoolState(Placed(s.cells, p, size), s.counts[p := s.counts[p] + 1])
    else PoolState(s.cells[at := Cell(size, false, false, 0, false)], s.counts)
  }

  /** Giving up `x`; with the last object of a pool its block goes. */
  ghost function GivenUp(s: PoolState, x: nat): PoolState
    requires x in s.cells
  {
    var p := PoolOf(s.cells, x);
    if p == 0 || p !in s.counts then PoolState(s.cells - {x}, s.counts)
    else if s.counts[p] <= 1 then PoolState(Released(s.cells, x) - {p}, s.counts - {p})
    else PoolState(Released(s.cells, x), s.counts[p := s.counts[p] - 1])
  }

  /** Resizing `x`: a little smaller it stays; else it moves within its pool, or out of it, or its
      block gets another address. Its pool loses the object that it was and may gain one. */
  ghost function Resized(s: PoolState, x: nat, size: nat, at: nat): PoolState
    requires x in s.cells
  {
    var cell := s.cells[x];
    var p := cell.link;
    if size >= MAX_TALLOC_SIZE || cell.pool then s
    else if size < cell.size && cell.size - size < 1024 then s.(cells := s.cells[x := cell.(size := size)])
    else if !cell.member then s.(cells := (s.cells - {x})[at := Cell(size, false, false, 0, false)])
    else if p in s.cells && Room(s.cells, p, HDR_SIZE + size) then s.(cells := Placed(s.cells, p, size) - {x})
    else
      PoolState((s.cells - {x})[at := Cell(size, false, false, 0, false)],
                if p in s.counts && s.counts[p] > 0 then s.counts[p := s.counts[p] - 1] else s.counts)
  }

  class PoolHeap {
    var cells: Cells
    var counts: map<nat, nat>

    ghost predicate Valid()
      reads this
    {
      CellsOk(cells) && CountsOk(cells, counts)
    }

    ghost predicate Live(x: nat)
      reads this
    {
      x in cells && !cells[x].freed
    }

    constructor ()
      ensures Valid() && cells == map[] && counts == map[]
    {
      cells, counts := map[], map[];
    }

    /** `talloc_alloc_pool`; the caller fills in the header of the chunk it gets. */
    method AllocPool(parent: nat, size: nat) returns (r: nat)
      requires Valid() && (parent != 0 ==> parent in cells)
      modifies this
      ensures var p := PoolOf(old(cells), parent);
        if p != 0 && Room(old(cells), p, HDR_SIZE + size) then
          && r == old(cells)[p].link && r !in old(cells) && r != 0 && p in old(counts)
          && cells == Placed(old(cells), p, size) && counts == old(counts)[p := old(counts)[p] + 1] && Valid()
        else r == 0 && cells == old(cells) && counts == old(counts)
    {
      hide RoundUp, CellsOk, CountsOk, ObjectCount;
      if parent == 0 { return 0; }
      Facts(cells, counts, parent);
      var pool := 0;
      if cells[parent].pool {
        pool := parent;
      } else if cells[parent].member {
        pool := cells[parent].link;
      }
      if pool == 0 { return 0; }
      Facts(cells, counts, pool);
      var spaceLeft := pool + HDR_SIZE + cells[pool].size - cells[pool].link;
      var chunkSize := RoundUp(HDR_SIZE + size);
      if spaceLeft < chunkSize { return 0; }
      PlacedOk(cells, pool, size);
      PlacedCounts(cells, counts, pool, size);
      r := cells[pool].link;
      cells := cells[pool := cells[pool].(link := r + chunkSize)];
      cells := cells[r := Cell(size, false, true, pool, false)];
      counts := counts[pool := counts[pool] + 1];
    }

    /** `__talloc`: a chunk from the pool of `parent` if there is room, else the block `at`. */
    method Alloc(parent: nat, size: nat, at: nat) returns (r: nat)
      requires Valid() && (parent != 0 ==> Live(parent)) && Unused(cells, at, HDR_SIZE + size)
      modifies this
      ensures Valid()
      ensures size >= MAX_TALLOC_SIZE ==> r == 0 && cells == old(cells) && counts == old(counts)
      ensures size < MAX_TALLOC_SIZE ==>
        r != 0 && r !in old(cells) && Live(r) && cells[r].size == size && !cells[r].pool
      ensures size < MAX_TALLOC_SIZE ==>
        var p := PoolOf(old(cells), parent);
        if p != 0 && Room(old(cells), p, HDR_SIZE + size) then
          && r == old(cells)[p].link && p in old(counts)
          && cells == Placed(old(cells), p, size) && counts == old(counts)[p := old(counts)[p] + 1]
        else r == at && cells == old(cells)[at := Cell(size, false, false, 0, false)] && counts == old(counts)
      ensures size < MAX_TALLOC_SIZE ==>
        PoolState(cells, counts) == Added(PoolState(old(cells), old(counts)), parent, size, at)
      ensures Leaked(counts) == Leaked(old(counts))
    {
      hide RoundUp, CellsOk, CountsOk, ObjectCount, Room, Members;
      if size >= MAX_TALLOC_SIZE { return 0; }
      FreshOk(cells, counts, at, Cell(size, false, false, 0, false));
      if parent != 0 { OwnPool(cells, counts, parent); }
      ghost var p := PoolOf(cells, parent);
      if p != 0 && Room(cells, p, HDR_SIZE + size) { FreshSpot(cells, p, size); }
      r := AllocPool(parent, size);
      if r == 0 {
        r := at;
        cells := cells[at := Cell(size, false, false, 0, false)];
      }
    }

    /** `talloc_pool`, outside any pool. */
    method CreatePool(parent: nat, size: nat, at: nat) returns (r: nat)
      requires Valid() && (parent != 0 ==> Live(parent)) && PoolOf(cells, parent) == 0
      requires Unused(cells, at, HDR_SIZE + size + POOL_HDR_SIZE)
      modifies this
      ensures Valid() && Leaked(counts) == Leaked(old(counts))
      ensures size + POOL_HDR_SIZE >= MAX_TALLOC_SIZE ==> r == 0 && cells == old(cells) && counts == old(counts)
      ensures size + POOL_HDR_SIZE < MAX_TALLOC_SIZE ==>
        && r == at && at !in old(cells) && counts == old(counts)[at := 1]
        && cells == old(cells)[at := Cell(size + POOL_HDR_SIZE, true, false, Start(at), false)]
    {
      hide RoundUp, CellsOk, CountsOk, ObjectCount, Unused;
      FreshOk(cells, counts, at, Cell(size + POOL_HDR_SIZE, true, false, Start(at), false));
      r := Alloc(parent, size + POOL_HDR_SIZE, at);
      if r == 0 { return; }
      cells := cells[r := cells[r].(pool := true, link := r + HDR_SIZE + POOL_HDR_SIZE)];
      counts := counts[r := 1];
      assert cells == old(cells)[at := Cell(size + POOL_HDR_SIZE, true, false, Start(at), false)];
    }

    /** The end of `_talloc_free`, when the children are gone. */
    method Release(x: nat)
      requires Valid() && Live(x)
      modifies this
      ensures Valid() && !Live(x)
      ensures PoolOf(old(cells), x) == 0 ==> cells == old(cells) - {x} && counts == old(counts)
      ensures PoolOf(old(cells), x) != 0 ==>
        var p := PoolOf(old(cells), x);
        && p in old(counts) && old(counts)[p] > 0
        && (p !in counts <==> old(counts)[p] == 1)
        && cells == Released(old(cells), x) - (if old(counts)[p] == 1 then {p} else {})
        && counts == if old(counts)[p] == 1 then old(counts) - {p} else old(counts)[p := old(counts)[p] - 1]
      ensures PoolState(cells, counts) == GivenUp(PoolState(old(cells), old(counts)), x)
      ensures Leaked(counts) == Leaked(old(counts))
    {
      hide RoundUp, CellsOk, CountsOk, ObjectCount;
      Facts(cells, counts, x);
      var cell := cells[x];
      if cell.pool || cell.member {
        var pool := if cell.pool then x else cell.link;
        if cell.pool {
          LivePool(cells, counts, x);
          UpdateOk(cells, x, cell.(freed := true));
          UpdateCounts(cells, counts, x, cell.(freed := true));
          cells := cells[x := cell.(freed := true)];
        } else {
          LeaveOk(cells, counts, x);
          cells := cells - {x};
        }
        counts := counts[pool := counts[pool] - 1];
        if counts[pool] == 0 {
          Facts(cells, counts, pool);
          NothingInPool(cells, counts, pool);
          RemoveBlock(cells, counts, pool);
          cells := cells - {pool};
          counts := counts - {pool};
        }
      } else {
        RemoveBlock(cells, counts, x);
        assert counts - {x} == counts;
        cells := cells - {x};
      }
    }

    /** The end of `talloc_free_children`: a pool without members is used from its start again. */
    method Reset(x: nat)
      requires Valid() && Live(x)
      modifies this`cells
      ensures Valid()
      ensures cells == if old(cells)[x].pool && Members(old(cells), x) == {}
        then old(cells)[x := old(cells)[x].(link := Start(x))] else old(cells)
    {
      Facts(cells, counts, x);
      if cells[x].pool {
        if counts[x] == 1 {
          UpdateOk(cells, x, cells[x].(link := Start(x)));
          UpdateCounts(cells, counts, x, cells[x].(link := Start(x)));
          cells := cells[x := cells[x].(link := x + HDR_SIZE + POOL_HDR_SIZE)];
        }
      }
    }

    /** `talloc_realloc` for an unreferenced chunk and a size that is not zero. */
    method Realloc(x: nat, size: nat, at: nat) returns (r: nat)
      requires Valid() && Live(x) && size > 0
      requires if cells[x].pool || cells[x].member then Unused(cells, at, HDR_SIZE + size)
        else Unused(cells - {x}, at, HDR_SIZE + size)
      modifies this
      ensures Valid()
      ensures size >= MAX_TALLOC_SIZE || old(cells)[x].pool ==> r == 0
      ensures PoolState(cells, counts) == Resized(PoolState(old(cells), old(counts)), x, size, at)
      ensures size < MAX_TALLOC_SIZE && !old(cells)[x].pool ==>
        && Live(r) && cells[r].size == size && (r == x || x !in cells)
        && (forall y :: y in old(cells) && y != x ==> y in cells && cells[y].size == old(cells)[y].size)
        && (forall y :: y in cells && y != r ==> y in old(cells) && y != x)
      ensures size < MAX_TALLOC_SIZE && old(cells)[x].member ==>
        var p := old(cells)[x].link;
        && p in old(counts)
        && if size < old(cells)[x].size && old(cells)[x].size - size < 1024 then r == x && counts == old(counts)
           else if Room(old(cells), p, HDR_SIZE + size) then
             r == old(cells)[p].link && cells[r].member && counts == old(counts)
           else r == at && !cells[r].member && old(counts)[p] > 0 && counts == old(counts)[p := old(counts)[p] - 1]
      ensures Leaked(counts) == Leaked(old(counts)) + set p | p in old(cells) && LeaksBlock(old(cells), x, size, p)
    {
      hide RoundUp, CellsOk, CountsOk, ObjectCount;
      if size >= MAX_TALLOC_SIZE { return 0; }
      Facts(cells, counts, x);
      if cells[x].pool { return 0; }
      var cell := cells[x];
      if size < cell.size && cell.size - size < 1024 {
        Facts(cells, counts, x);
        UpdateOk(cells, x, cell.(size := size));
        UpdateCounts(cells, counts, x, cell.(size := size));
        cells := cells[x := cell.(size := size)];
        return x;
      }
      if cell.member {
        LeaksMeans(cells, counts, x, size);
        r := AllocPool(x, size);
        LeaveOk(cells, counts, x);
        counts := counts[cell.link := counts[cell.link] - 1];
        if r == 0 {
          FreshAddress(cells, at, HDR_SIZE + size);
          SmallerUnused(cells, x, at, HDR_SIZE + size);
          FreshOk(cells - {x}, counts, at, Cell(size, false, false, 0, false));
          r := at;
          cells := (cells - {x})[r := Cell(size, false, false, 0, false)];
        } else {
          cells := (cells - {x})[r := Cell(size, false, true, cell.link, false)];
          assert cells == Placed(old(cells), cell.link, size) - {x};
        }
      } else {
        RemoveBlock(cells, counts, x);
        assert counts - {x} == counts;
        FreshOk(cells - {x}, counts, at, Cell(size, false, false, 0, false));
        r := at;
        cells := (cells - {x})[r := Cell(size, false, false, 0, false)];
      }
    }
  }

  /** Member `x` is the last object of its freed pool `p`, must move to get `size` bytes, and does
      not find room in the pool. */
  ghost predicate LeaksBlock(cells: Cells, x: nat, size: nat, p: nat)
    requires x in cells && p in cells
  {
    && cells[x].member && cells[x].link == p && size < MAX_TALLOC_SIZE
    && !(size < cells[x].size && cells[x].size - size < 1024)
    && cells[p].freed && Members(cells, p) == {x} && !Room(cells, p, HDR_SIZE + size)
  }

  lemma LeaksMeans(cells: Cells, counts: map<nat, nat>, x: nat, size: nat)
    requires CellsOk(cells) && CountsOk(cells, counts) && x in cells && cells[x].member
    requires size < MAX_TALLOC_SIZE && !(size < cells[x].size && cells[x].size - size < 1024)
    ensures cells[x].link in counts && counts[cells[x].link] > 0
    ensures LeaksBlock(cells, x, size, cells[x].link) <==>
      counts[cells[x].link] == 1 && !Room(cells, cells[x].link, HDR_SIZE + size)
  {
    var p := cells[x].link;
    assert MemberOk(cells, x);
    assert counts[p] == ObjectCount(cells, p);
    assert x in Members(cells, p);
    if |Members(cells, p)| == 1 {
      OneMember(Members(cells, p), x);
    }
  }

  lemma OneMember(s: set<nat>, x: nat)
    requires x in s && |s| == 1
    ensures s == {x}
  {
    assert |s - {x}| == 0;
  }

  lemma SmallerUnused(cells: Cells, x: nat, at: nat, bytes: nat)
    requires Unused(cells, at, bytes)
    ensures Unused(cells - {x}, at, bytes)
  {
  }

  datatype Command =
    | MakePool(parent: nat, size: nat, at: nat)
    | Make(parent: nat, size: nat, at: nat)
    | Give(x: nat)
    | Clear(x: nat)
    | Resize(x: nat, size: nat, at: nat)

  ghost predicate LiveIn(s: PoolState, x: nat) {
    x in s.cells && !s.cells[x].freed
  }

  /** What the caller owes: live chunks, and no pool inside a pool; and what `malloc` owes: a block
      that is not in use. */
  ghost predicate Allowed(s: PoolState, cmd: Command) {
    match cmd
    case MakePool(parent, size, at) =>
      (parent != 0 ==> LiveIn(s, parent)) && PoolOf(s.cells, parent) == 0 &&
        Unused(s.cells, at, HDR_SIZE + size + POOL_HDR_SIZE)
    case Make(parent, size, at) => (parent != 0 ==> LiveIn(s, parent)) && Unused(s.cells, at, HDR_SIZE + size)
    case Give(x) => LiveIn(s, x)
    case Clear(x) => LiveIn(s, x)
    case Resize(x, size, at) =>
      LiveIn(s, x) && size > 0 &&
      Unused(if s.cells[x].pool || s.cells[x].member then s.cells else s.cells - {x}, at, HDR_SIZE + size)
  }

  /** The state after a command. */
  ghost function After(s: PoolState, cmd: Command): PoolState
    requires Allowed(s, cmd)
  {
    match cmd
    case MakePool(parent, size, at) =>
      if size + POOL_HDR_SIZE >= MAX_TALLOC_SIZE then s
      else PoolState(s.cells[at := Cell(size + POOL_HDR_SIZE, true, false, Start(at), false)], s.counts[at := 1])
    case Make(parent, size, at) => if size >= MAX_TALLOC_SIZE then s else Added(s, parent, size, at)
    case Give(x) => GivenUp(s, x)
    case Clear(x) =>
      if s.cells[x].pool && Members(s.cells, x) == {} then s.(cells := s.cells[x := s.cells[x].(link := Start(x))])
      else s
    case Resize(x, size, at) => Resized(s, x, size, at)
  }

  /** The pools whose block a command leaves behind. */
  ghost function Leaks(s: PoolState, cmd: Command): set<nat>
    requires Allowed(s, cmd)
  {
    if cmd.Resize? then set p | p in s.cells && LeaksBlock(s.cells, cmd.x, cmd.size, p) else {}
  }

  ghost predicate Runnable(s: PoolState, cmds: seq<Command>)
    decreases |cmds|
  {
    cmds == [] || (Allowed(s, cmds[0]) && Runnable(After(s, cmds[0]), cmds[1..]))
  }

  ghost function AfterAll(s: PoolState, cmds: seq<Command>): PoolState
    requires Runnable(s, cmds)
    decreases |cmds|
  {
    if cmds == [] then s else AfterAll(After(s, cmds[0]), cmds[1..])
  }

  ghost function LeaksOfAll(s: PoolState, cmds: seq<Command>): set<nat>
    requires Runnable(s, cmds)
    decreases |cmds|
  {
    if cmds == [] then {} else Leaks(s, cmds[0]) + LeaksOfAll(After(s, cmds[0]), cmds[1..])
  }

  method Perform(heap: PoolHeap, cmd: Command)
    requires heap.Valid() && Allowed(PoolState(heap.cells, heap.counts), cmd)
    modifies heap
    ensures heap.Valid() && PoolState(heap.cells, heap.counts) == After(old(PoolState(heap.cells, heap.counts)), cmd)
    ensures Leaked(heap.counts) == Leaked(old(heap.counts)) + Leaks(old(PoolState(heap.cells, heap.counts)), cmd)
  {
    hide CellsOk, CountsOk, Members, Room, Placed, Leaked, LeaksBlock, Unused, RoundUp, Added, GivenUp, Resized;
    match cmd {
      case MakePool(parent, size, at) => var _ := heap.CreatePool(parent, size, at);
      case Make(parent, size, at) => var _ := heap.Alloc(parent, size, at);
      case Give(x) => heap.Release(x);
      case Clear(x) => heap.Reset(x);
      case Resize(x, size, at) => var _ := heap.Realloc(x, size, at);
    }
  }

  /** On every run members stay apart and counts right, and the blocks left behind are exactly those
      of the resizes that are named. */
  method Run(heap: PoolHeap, cmds: seq<Command>)
    requires heap.Valid() && Runnable(PoolState(heap.cells, heap.counts), cmds)
    modifies heap
    ensures heap.Valid() && PoolState(heap.cells, heap.counts) ==
      AfterAll(old(PoolState(heap.cells, heap.counts)), cmds)
    ensures Leaked(heap.counts) == Leaked(old(heap.counts)) + LeaksOfAll(old(PoolState(heap.cells, heap.counts)), cmds)
  {
    hide CellsOk, CountsOk, Leaked, Leaks, Allowed, After, Runnable, AfterAll, LeaksOfAll;
    ghost var s, leaked := PoolState(heap.cells, heap.counts), Leaked(heap.counts);
    var i := 0;
    assert cmds[0..] == cmds;
    while i < |cmds|
      invariant 0 <= i <= |cmds| && heap.Valid() && Runnable(PoolState(heap.cells, heap.counts), cmds[i..])
      invariant AfterAll(PoolState(heap.cells, heap.counts), cmds[i..]) == AfterAll(s, cmds)
      invariant Leaked(heap.counts) + LeaksOfAll(PoolState(heap.cells, heap.counts), cmds[i..]) ==
        leaked + LeaksOfAll(s, cmds)
    {
      assert cmds[i..][0] == cmds[i] && cmds[i..][1..] == cmds[i + 1..];
      RunStep(PoolState(heap.cells, heap.counts), cmds[i..]);
      Perform(heap, cmds[i]);
      i := i + 1;
    }
    RunEnd(PoolState(heap.cells, heap.counts), cmds[i..]);
  }

  lemma RunStep(s: PoolState, cmds: seq<Command>)
    requires cmds != [] && Runnable(s, cmds)
    ensures Allowed(s, cmds[0]) && Runnable(After(s, cmds[0]), cmds[1..])
    ensures AfterAll(s, cmds) == AfterAll(After(s, cmds[0]), cmds[1..])
    ensures LeaksOfAll(s, cmds) == Leaks(s, cmds[0]) + LeaksOfAll(After(s, cmds[0]), cmds[1..])
  {
  }

  lemma RunEnd(s: PoolState, cmds: seq<Command>)
    requires cmds == [] && Runnable(s, cmds)
    ensures AfterAll(s, cmds) == s && LeaksOfAll(s, cmds) == {}
  {
  }

  /** A run that keeps a block for ever: a pool is freed while it has a member, and the member then
      outgrows the pool. */
  method OutgrownPool() returns (heap: PoolHeap)
    ensures fresh(heap) && heap.Valid() && Leaked(heap.counts) == {4096}
  {
    hide CellsOk, CountsOk, ObjectCount;
    heap := new PoolHeap();
    var p := heap.CreatePool(0, 128, 4096);
    assert RoundUp(HDR_SIZE + 16) == 96;
    var x := heap.Alloc(p, 16, 65536);
    Facts(heap.cells, heap.counts, x);
    ghost var before := heap.cells;
    heap.Release(p);
    assert heap.counts == map[4096 := 1];
    assert Unused(heap.cells, 65536, HDR_SIZE + 4096);
    Facts(heap.cells, heap.counts, x);
    LeaksMeans(heap.cells, heap.counts, x, 4096);
    assert RoundUp(HDR_SIZE + 4096) == 4176;
    var r := heap.Realloc(x, 4096, 65536);
  }
}
