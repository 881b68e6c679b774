/** The buffer for output to a terminal: a queue of blocks in front of a descriptor that may accept
    less than it is given, refuse for a while, or fail. */
module OutputBuffer {
  import opened Bytes
  import opened Sequences

  datatype Status = Error | Empty | Pending

  datatype Errno = Again | Interrupted | Broken

  /** What the kernel does with a write: accept some of it, or report an error. */
  datatype Outcome = Accept(limit: nat) | Refuse(errno: Errno)

  const MAX_CHUNKS := 16
  const MAX_FLUSH := 131072

  function Min(a: nat, b: nat): nat {
    if a < b then a else b
  }

  /** The descriptor: its behaviour is fixed by `oracle`, one outcome for each call. */
  class Wire {
    const oracle: nat -> Outcome
    var time: nat
    var errno: Errno
    var sent: seq<byte>

    constructor (oracle: nat -> Outcome)
      ensures this.oracle == oracle && sent == [] && time == 0
    {
      this.oracle := oracle;
      time, errno, sent := 0, Again, [];
    }

    /** `write` and `writev`: the number of bytes accepted, or -1. */
    method Write(bytes: seq<byte>) returns (n: int)
      modifies this
      ensures time == old(time) + 1
      ensures match oracle(old(time))
        case Accept(limit) => n == Min(limit, |bytes|) && sent == old(sent) + bytes[..n] && errno == old(errno)
        case Refuse(e) => n == -1 && sent == old(sent) && errno == e
    {
      match oracle(time)
      case Accept(limit) =>
        n := Min(limit, |bytes|);
        sent := sent + bytes[..n];
        time := time + 1;
      case Refuse(e) =>
        n := -1;
        errno := e;
        time := time + 1;
    }
  }

  /** A block: its data lie behind its header, `size` bytes of them. */
  class Block {
    var data: seq<byte>
    var next: Block?
    var cp: nat
    var sp: nat

    /** A new block with its first bytes. */
    constructor (size: nat, bytes: seq<byte>)
      requires 0 < |bytes| <= size
      ensures Holds(this, size, null, bytes)
    {
      data := bytes + seq(size - |bytes|, _ => 0);
      next := null;
      cp, sp := |bytes|, 0;
      new;
      assert data[..|bytes|] == bytes;
    }

    method Link(ghost size: nat, ghost chunk: seq<byte>, d: Block)
      requires Holds(this, size, null, chunk) && cp == size
      modifies this`next
      ensures Holds(this, size, d, chunk)
    {
      next := d;
    }

    method Extend(ghost size: nat, ghost chunk: seq<byte>, bytes: seq<byte>)
      requires Holds(this, size, null, chunk) && 0 < |bytes| <= size - cp
      modifies this`cp, this`data
      ensures Holds(this, size, null, chunk + bytes)
    {
      data := data[..cp] + bytes + data[cp + |bytes|..];
      cp := cp + |bytes|;
      assert data[sp..cp] == chunk + bytes;
    }

    method Advance(ghost size: nat, ghost after: Block?, ghost chunk: seq<byte>, n: nat)
      requires Holds(this, size, after, chunk) && n < |chunk|
      modifies this`sp
      ensures Holds(this, size, after, chunk[n..]) && sp == old(sp) + n
    {
      sp := sp + n;
    }
  }

  /** Block `b` holds the bytes `chunk` that are not sent; if another follows it is filled to its end. */
  ghost predicate Holds(b: Block, size: nat, next: Block?, chunk: seq<byte>)
    reads b
  {
    && |b.data| == size && b.sp < b.cp <= size && b.next == next && (next != null ==> b.cp == size)
    && chunk == b.data[b.sp..b.cp]
  }

  function After(blocks: seq<Block>, i: nat): Block? {
    if i + 1 < |blocks| then blocks[i + 1] else null
  }

  ghost predicate Apart(blocks: seq<Block>) {
    forall i, j {:trigger blocks[i], blocks[j]} :: 0 <= i < j < |blocks| ==> blocks[i] != blocks[j]
  }

  lemma AppendApart(blocks: seq<Block>, d: Block)
    requires Apart(blocks) && forall i {:trigger blocks[i]} :: 0 <= i < |blocks| ==> blocks[i] != d
    ensures Apart(blocks + [d])
  {
  }

  lemma FirstApart(blocks: seq<Block>)
    requires Apart(blocks)
    ensures forall i {:trigger blocks[i]} :: 0 < i < |blocks| ==> blocks[i] != blocks[0]
  {
  }

  lemma LastApart(blocks: seq<Block>)
    requires Apart(blocks)
    ensures forall i {:trigger blocks[i]} :: 0 <= i < |blocks| - 1 ==> blocks[i] != blocks[|blocks| - 1]
  {
  }

  lemma AppendHolds(blocks: seq<Block>, chunks: seq<seq<byte>>, size: nat, d: Block, bytes: seq<byte>,
                    owned: set<Block>)
    requires |chunks| == |blocks| && d in owned && Holds(d, size, null, bytes)
    requires forall i {:trigger blocks[i]} :: 0 <= i < |blocks| ==>
      blocks[i] in owned && Holds(blocks[i], size, if i + 1 < |blocks| then blocks[i + 1] else d, chunks[i])
    ensures var all, held := blocks + [d], chunks + [bytes];
      forall i {:trigger all[i]} :: 0 <= i < |all| ==> all[i] in owned && Holds(all[i], size, After(all, i), held[i])
  {
  }

  /** A call that moves nothing and leaves the flushing loop running if `errno` is EINTR. */
  predicate Stuck(x: Outcome) {
    x == Accept(0) || x == Refuse(Interrupted)
  }

  /** `errno` before call `t`, if it is `e` before call `t0`. */
  function ErrnoAt(o: nat -> Outcome, t0: nat, e: Errno, t: nat): Errno {
    if t <= t0 then e
    else
      match o(t - 1)
      case Accept(_) => ErrnoAt(o, t0, e, t - 1)
      case Refuse(f) => f
  }

  /** Call `t` does not end the flushing of a queue that stays non-empty. */
  predicate GoesOn(o: nat -> Outcome, t0: nat, e: Errno, t: nat) {
    match o(t)
    case Accept(n) => n > 0 || ErrnoAt(o, t0, e, t) == Interrupted
    case Refuse(f) => f == Interrupted
  }

  /** What the last call of a flush, call `t`, makes of it. */
  function Verdict(o: nat -> Outcome, t0: nat, e: Errno, t: nat): Status {
    if GoesOn(o, t0, e, t) then Empty else if o(t) == Refuse(Broken) then Error else Pending
  }

  /** A call that moves something, or is interrupted. */
  predicate Moves(x: Outcome) {
    x == Refuse(Interrupted) || (x.Accept? && x.limit > 0)
  }

  /** The first `n` blocks of a queue are what one `writev` is given: sixteen at most, and no more
      than it takes to reach the limit on bytes. */
  ghost predicate Batch(chunks: seq<seq<byte>>, n: nat) {
    && n <= |chunks| && n <= MAX_CHUNKS
    && (n > 0 ==> |Flatten(chunks[..n - 1])| < MAX_FLUSH)
    && (n < |chunks| && n < MAX_CHUNKS ==> |Flatten(chunks[..n])| >= MAX_FLUSH)
  }

  /** Of what it is given, `writev` sends as much as the descriptor accepts. */
  ghost predicate Sends(chunks: seq<seq<byte>>, limit: nat, was: seq<byte>, now: seq<byte>) {
    exists n: nat :: Batch(chunks, n) && now == was + Prefix(Flatten(chunks[..n]), limit)
  }

  function Prefix(bytes: seq<byte>, limit: nat): seq<byte> {
    bytes[..Min(limit, |bytes|)]
  }

  /** Flushing comes to an end, whatever is queued: some call ends it, or there are always more
      calls that move something. */
  ghost predicate CanEnd(o: nat -> Outcome, t0: nat, e: Errno) {
    (exists t :: t >= t0 && !GoesOn(o, t0, e, t)) || Lively(o)
  }

  ghost predicate Lively(o: nat -> Outcome) {
    forall t: nat :: LiveFrom(o, t)
  }

  ghost predicate LiveFrom(o: nat -> Outcome, t: nat) {
    exists u {:trigger o(u)} :: u >= t && !Stuck(o(u))
  }

  /** The next call that moves something or ends the flushing, if there always is one. */
  ghost function NextLive(o: nat -> Outcome, t: nat): (u: nat)
    ensures u >= t && (Lively(o) ==> !Stuck(o(u)))
  {
    if LiveFrom(o, t) then (var u :| u >= t && !Stuck(o(u)); u) else t
  }

  /** Where flushing comes to an end: at call `stop`, or never without moving something at `next`. */
  lemma EndOf(o: nat -> Outcome, t0: nat, e: Errno) returns (stops: bool, stop: nat, next: nat)
    requires CanEnd(o, t0, e)
    ensures stops ==> stop >= t0 && !GoesOn(o, t0, e, stop)
    ensures !stops ==> Lively(o) && next >= t0 && !Stuck(o(next))
    ensures next >= t0 && ErrnoAt(o, t0, e, t0) == e
  {
    stops := exists t :: t >= t0 && !GoesOn(o, t0, e, t);
    stop :| stops ==> stop >= t0 && !GoesOn(o, t0, e, stop);
    next := NextLive(o, t0);
  }

  /** Call `t` found `was` bytes and left `now`: either the flushing ends or its end is nearer. */
  lemma Watched(o: nat -> Outcome, t0: nat, e0: Errno, stops: bool, stop: nat, next: nat,
                t: nat, e: Errno, f: Errno, was: nat, now: nat)
    requires t >= t0 && e == ErrnoAt(o, t0, e0, t)
    requires stops ==> t <= stop && !GoesOn(o, t0, e0, stop)
    requires !stops ==> t <= next && !Stuck(o(next))
    requires match o(t)
      case Accept(limit) => f == e && (limit > 0 <==> now < was)
      case Refuse(g) => f == g && now == was && g != Broken
    ensures f == ErrnoAt(o, t0, e0, t + 1)
    ensures stops && Moving(was, now, f) ==> t + 1 <= stop
    ensures !stops && Moving(was, now, f) ==> now < was || t + 1 <= next
  {
  }

  /** What call `t`, which found `was` bytes and left `now`, means for the flushing. */
  lemma Judged(o: nat -> Outcome, t0: nat, e0: Errno, t: nat, e: Errno, f: Errno, was: nat, now: nat, ret: Status)
    requires t >= t0 && e == ErrnoAt(o, t0, e0, t) && was > 0 && (ret != Error ==> (ret == Empty <==> now == 0))
    requires match o(t)
      case Accept(limit) => ret != Error && f == e && (limit > 0 <==> now < was) && now <= was
      case Refuse(g) => ret == (if g == Broken then Error else Pending) && f == g && now == was
    ensures ret == Pending && Moving(was, now, f) ==> GoesOn(o, t0, e0, t)
    ensures ret != Pending || !Moving(was, now, f) ==> ret == Verdict(o, t0, e0, t)
  {
  }

  lemma MovingOn(o: nat -> Outcome, t0: nat, e: Errno, t: nat)
    requires Moves(o(t))
    ensures GoesOn(o, t0, e, t) && Verdict(o, t0, e, t) == Empty
  {
  }

  /** The condition is exact: if it fails, no call ends the flushing, and from some call on nothing
      is moved. A queue of more than what is accepted until then is flushed for ever. */
  lemma Endless(o: nat -> Outcome, t0: nat, e: Errno) returns (still: nat)
    requires !CanEnd(o, t0, e)
    ensures still >= t0 && (forall t :: t >= t0 ==> GoesOn(o, t0, e, t)) && (forall t :: t >= still ==> Stuck(o(t)))
  {
    var n: nat :| !LiveFrom(o, n);
    still := if n > t0 then n else t0;
  }

  /** Without EINTR in `errno` and none to come, every descriptor ends the flushing. With it, one that
      from some call on is not interrupted and does not accept nothing does. */
  lemma CalmEnds(o: nat -> Outcome, t0: nat, e: Errno, calm: nat)
    requires forall t :: t >= calm ==> o(t) != Refuse(Interrupted)
    requires t0 < calm || e == Interrupted ==> forall t :: t >= calm ==> o(t) != Accept(0)
    ensures CanEnd(o, t0, e)
  {
    if !CanEnd(o, t0, e) {
      var still := Endless(o, t0, e);
      var t := if still > calm then still else calm;
      assert Stuck(o(t)) && o(t) == Accept(0) && GoesOn(o, t0, e, t);
      QuietErrno(o, t0, e, t);
    }
  }

  lemma {:induction false} QuietErrno(o: nat -> Outcome, t0: nat, e: Errno, t: nat)
    requires e != Interrupted && forall u :: u >= t0 ==> o(u) != Refuse(Interrupted)
    ensures ErrnoAt(o, t0, e, t) != Interrupted
  {
    if t > t0 { QuietErrno(o, t0, e, t - 1); }
  }

  /** One interrupted call and then calls that accept nothing: `errno` keeps saying EINTR. */
  function InterruptedOnce(t: nat): Outcome {
    if t == 0 then Refuse(Interrupted) else Accept(0)
  }

  /** Such a descriptor keeps the flushing of any data for ever, whatever `errno` was. */
  lemma NeverFlushed(e: Errno)
    ensures !CanEnd(InterruptedOnce, 0, e) && Budget(InterruptedOnce, 0, 0) == 0
    ensures forall t :: t >= 0 ==> Stuck(InterruptedOnce(t)) && GoesOn(InterruptedOnce, 0, e, t)
  {
    forall t: nat
      ensures GoesOn(InterruptedOnce, 0, e, t)
    {
      StaleErrno(e, t);
    }
    assert !LiveFrom(InterruptedOnce, 0);
  }

  lemma {:induction false} StaleErrno(e: Errno, t: nat)
    ensures t > 0 ==> ErrnoAt(InterruptedOnce, 0, e, t) == Interrupted
  {
    if t > 1 { StaleErrno(e, t - 1); }
  }

  /** What was moved while the queue was flushed once, or that `errno` says to try again. */
  predicate Moving(before: nat, now: nat, e: Errno) {
    now < before || e == Interrupted
  }

  /** An upper bound of what is accepted from call `t` up to call `end`. */
  function Budget(o: nat -> Outcome, t: nat, end: nat): nat
    decreases end - t
  {
    if t >= end then 0 else (if o(t).Accept? then o(t).limit else 0) + Budget(o, t + 1, end)
  }

  class Buffer {
    var head: Block?
    var tail: Block?
    const size: nat
    ghost var blocks: seq<Block>
    /** The bytes of each block that are not sent. */
    ghost var chunks: seq<seq<byte>>
    ghost var owned: set<Block>

    ghost predicate Valid()
      reads this, owned
    {
      && size > 0 && |chunks| == |blocks|
      && (if blocks == [] then head == null && tail == null else head == blocks[0] && tail == blocks[|blocks| - 1])
      && (forall i {:trigger blocks[i]} :: 0 <= i < |blocks| ==>
        blocks[i] in owned && Holds(blocks[i], size, After(blocks, i), chunks[i]))
      && Apart(blocks)
    }

    /** The bytes not sent yet. */
    ghost function Contents(): seq<byte>
      reads this
    {
      Flatten(chunks)
    }

    constructor (size: nat)
      requires size > 0
      ensures Valid() && Contents() == [] && this.size == size && owned == {}
    {
      head, tail := null, null;
      this.size := size;
      blocks, chunks, owned := [], [], {};
    }

    /** `buffer_empty`. */
    method IsEmpty() returns (r: bool)
      requires Valid()
      ensures r <==> Contents() == []
      ensures r <==> head == null
    {
      r := head == null;
      if blocks != [] {
        FlattenFirst(chunks);
        assert blocks[0] in owned;
      }
    }

    /** `buffer_reset`. */
    method Reset()
      requires Valid()
      modifies this
      ensures Valid() && Contents() == [] && owned == old(owned)
    {
      head, tail := null, null;
      blocks, chunks := [], [];
    }

    /** `buffer_add`, followed by the first bytes that go into the new block. */
    method AddBlock(bytes: seq<byte>)
      requires Valid() && 0 < |bytes| <= size && (tail != null ==> tail.cp == size)
      modifies this, owned
      ensures Valid() && Contents() == old(Contents()) + bytes
      ensures fresh(owned - old(owned))
    {
      hide Holds, Apart, Flatten;
      var d := new Block(size, bytes);
      ghost var was := blocks;
      AppendApart(was, d);
      TailFacts();
      if tail != null {
        LinkLast(d);
      } else {
        head := d;
      }
      tail := d;
      FlattenOne(chunks, bytes);
      ghost var had := chunks;
      blocks, chunks, owned := was + [d], had + [bytes], owned + {d};
      AppendHolds(was, had, size, d, bytes, owned);
    }

    /** Makes the last block, which is full, point to `d`. */
    method LinkLast(d: Block)
      requires Valid() && tail != null && tail.cp == size && d !in owned && tail in owned
      modifies tail`next
      ensures forall i {:trigger blocks[i]} :: 0 <= i < |blocks| ==>
        blocks[i] in owned && Holds(blocks[i], size, if i + 1 < |blocks| then blocks[i + 1] else d, chunks[i])
    {
      hide Holds, Apart, Flatten;
      ghost var last := |blocks| - 1;
      LastApart(blocks);
      tail.Link(size, chunks[last], d);
      forall i | 0 <= i < |blocks|
        ensures blocks[i] in owned && Holds(blocks[i], size, if i + 1 < |blocks| then blocks[i + 1] else d, chunks[i])
      {
        if i < last {
          assert blocks[i] != blocks[last] && After(blocks, i) == blocks[i + 1];
        }
      }
    }

    /** Bytes that fit into the last block. */
    method Fill(bytes: seq<byte>)
      requires Valid() && tail != null && 0 < |bytes| <= size - tail.cp
      modifies this, owned
      ensures Valid() && Contents() == old(Contents()) + bytes && owned == old(owned)
    {
      hide Holds, Apart, Flatten;
      ghost var n := |blocks| - 1;
      assert blocks[n] == tail && tail in owned;
      LastApart(blocks);
      ghost var front, c := chunks[..n], chunks[n];
      assert chunks == front + [c];
      FlattenOne(front, c);
      FlattenOne(front, c + bytes);
      tail.Extend(size, c, bytes);
      chunks := front + [c + bytes];
      forall i | 0 <= i < |blocks|
        ensures blocks[i] in owned && Holds(blocks[i], size, After(blocks, i), chunks[i])
      {
        if i < n {
          assert blocks[i] != tail && chunks[i] == old(chunks)[i];
        }
      }
    }

    lemma TailFacts()
      requires Valid()
      ensures tail != null ==> tail in owned && tail.cp <= size
    {
      if blocks != [] {
        assert blocks[|blocks| - 1] in owned;
      }
    }

    /** `buffer_put`. */
    method Put(p: seq<byte>)
      requires Valid()
      modifies this, owned
      ensures Valid() && Contents() == old(Contents()) + p
      ensures fresh(owned - old(owned))
    {
      hide Holds, Apart, Flatten;
      var n := 0;
      assert p[..0] == [];
      while n < |p|
        invariant 0 <= n <= |p| && Valid() && Contents() == old(Contents()) + p[..n]
        invariant fresh(owned - old(owned))
      {
        var left := |p| - n;
        TailFacts();
        if tail == null || tail.cp == size {
          var chunk := if left <= size then left else size;
          Slice(old(Contents()), p, n, chunk);
          AddBlock(p[n..n + chunk]);
          n := n + chunk;
        } else {
          var chunk := if left <= size - tail.cp then left else size - tail.cp;
          Slice(old(Contents()), p, n, chunk);
          Fill(p[n..n + chunk]);
          n := n + chunk;
        }
      }
      assert p[..n] == p;
    }

    /** `buffer_getstr`, without the final zero. */
    method GetStr() returns (s: seq<byte>)
      requires Valid()
      ensures s == Contents()
    {
      s := [];
      var d := head;
      ghost var i := 0;
      while d != null
        invariant 0 <= i <= |blocks| && d == (if i < |blocks| then blocks[i] else null) && s == Flatten(chunks[..i])
        decreases |blocks| - i
      {
        s := s + d.data[d.sp..d.cp];
        FlattenOne(chunks[..i], chunks[i]);
        assert chunks[..i] + [chunks[i]] == chunks[..i + 1];
        d := d.next;
        i := i + 1;
      }
      assert chunks[..i] == chunks;
    }

    /** The part of the queue that one call hands to `writev`. */
    method Gather() returns (iov: seq<byte>, ghost n: nat)
      requires Valid()
      ensures n <= |blocks| && iov == Flatten(chunks[..n]) && Batch(chunks, n)
      ensures blocks != [] ==> n > 0 && |iov| > 0
    {
      iov, n := [], 0;
      var d := head;
      var iovcnt := 0;
      while d != null && iovcnt < MAX_CHUNKS && |iov| < MAX_FLUSH
        invariant n == iovcnt <= MAX_CHUNKS && n <= |blocks| && d == (if n < |blocks| then blocks[n] else null) &&
          iov == Flatten(chunks[..n])
        invariant n > 0 ==> |iov| > 0 && |Flatten(chunks[..n - 1])| < MAX_FLUSH
        decreases |blocks| - n
      {
        iov := iov + d.data[d.sp..d.cp];
        FlattenOne(chunks[..n], chunks[n]);
        assert chunks[..n] + [chunks[n]] == chunks[..n + 1];
        d := d.next;
        n := n + 1;
        iovcnt := iovcnt + 1;
      }
    }

    /** Releases the first block. */
    method DropBlock()
      requires Valid() && head != null
      modifies this
      ensures Valid() && owned == old(owned) && old(chunks) != [] && chunks == old(chunks)[1..]
      ensures old(head) !in blocks && forall b :: b in blocks ==> b in old(blocks)
    {
      assert blocks[0] == head && blocks[0] in owned;
      head := head.next;
      if head == null {
        tail := null;
      }
      hide Holds;
      ghost var was := blocks;
      blocks, chunks := was[1..], chunks[1..];
      forall i | 0 <= i < |blocks|
        ensures blocks[i] in owned && Holds(blocks[i], size, After(blocks, i), chunks[i])
      {
        assert blocks[i] == was[i + 1] && After(blocks, i) == After(was, i + 1);
      }
    }

    /** Takes `written` bytes off the front of the queue. */
    method Drop(written: nat)
      requires Valid() && written <= |Contents()|
      modifies this, owned
      ensures Valid() && Contents() == old(Contents())[written..] && owned == old(owned)
      ensures written == 0 ==> head == old(head) && (head != null ==> head.sp == old(head.sp))
      ensures written > 0 && head != null ==> head != old(head) || head.sp != old(head.sp)
    {
      hide Holds, Apart, Flatten;
      var left := written;
      ghost var all := Contents();
      while left > 0
        invariant Valid() && owned == old(owned) && 0 <= left <= written
        invariant |Contents()| == |all| - (written - left) && Contents() == all[written - left..]
        invariant forall b :: b in owned ==> b.sp == old(b.sp)
        invariant if left == written then head == old(head) else old(head) !in blocks
        modifies this, owned
        decreases left
      {
        HeadFacts();
        FlattenFirst(chunks);
        var d := head;
        if left < d.cp - d.sp {
          TakeFront(chunks, left);
          DropPart(left);
          DropMore(all, written - left, left);
          return;
        }
        DropMore(all, written - left, |chunks[0]|);
        left := left - (d.cp - d.sp);
        DropBlock();
      }
      assert left == 0 && written - left == written;
    }

    lemma HeadFacts()
      requires Valid()
      ensures blocks == [] <==> head == null
      ensures |blocks| == |chunks|
      ensures Contents() != [] ==> head != null
      ensures head != null ==> head in owned && head in blocks && head.sp < head.cp && |chunks[0]| == head.cp - head.sp
    {
      if head != null {
        assert blocks[0] in owned;
      }
    }

    /** Takes `n` bytes off the first block, which holds more. */
    method DropPart(n: nat)
      requires Valid() && head != null && n < head.cp - head.sp && chunks != []
      modifies this`chunks, head`sp
      ensures Valid() && head.sp == old(head.sp) + n
      ensures n < |old(chunks)[0]| && chunks == [old(chunks)[0][n..]] + old(chunks)[1..]
    {
      hide Holds, Apart, Flatten;
      HeadFacts();
      ghost var c, rest := chunks[0], chunks[1..];
      assert blocks[0] == head && Holds(head, size, After(blocks, 0), c);
      FirstApart(blocks);
      head.Advance(size, After(blocks, 0), c, n);
      chunks := [c[n..]] + rest;
      forall i | 0 <= i < |blocks|
        ensures blocks[i] in owned && Holds(blocks[i], size, After(blocks, i), chunks[i])
      {
        if i > 0 {
          assert blocks[i] != head && chunks[i] == old(chunks)[i];
        }
      }
    }

    /** `buffer_flush_available`. */
    method FlushAvailable(wire: Wire) returns (ret: Status)
      requires Valid()
      modifies this, owned, wire
      ensures Valid() && owned == old(owned) && wire.sent + Contents() == old(wire.sent + Contents())
      ensures ret != Error ==> (ret == Empty <==> Contents() == [])
      ensures old(Contents()) == [] ==> ret == Empty && wire.time == old(wire.time)
      ensures old(Contents()) != [] ==> wire.time == old(wire.time) + 1
      ensures old(Contents()) != [] ==>
        match wire.oracle(old(wire.time))
        case Accept(limit) =>
          && ret != Error && wire.errno == old(wire.errno)
          && (limit > 0 <==> |Contents()| < |old(Contents())|) && |old(Contents())| <= |Contents()| + limit
          && Sends(old(chunks), limit, old(wire.sent), wire.sent)
        case Refuse(e) =>
          && ret == (if e == Broken then Error else Pending) && wire.errno == e && Contents() == old(Contents())
      ensures |Contents()| <= |old(Contents())|
      ensures head != null ==> (head == old(head) && head.sp == old(head.sp) <==> |Contents()| == |old(Contents())|)
      ensures ret == Pending ==> head != null && old(head) != null
    {
      hide Holds, Apart, Flatten, Valid, Batch;
      ghost var all := Contents();
      var wasEmpty := IsEmpty();
      var iov, n := Gather();
      HeadFacts();
      FlattenPrefix(chunks, n);
      if |iov| == 0 { return Empty; }
      var written := wire.Write(iov);
      if written < 0 {
        if wire.errno == Again || wire.errno == Interrupted { return Pending; }
        return Error;
      }
      SentFirst(old(wire.sent), all, iov, written);
      Drop(written);
      var empty := IsEmpty();
      ret := if head != null then Pending else Empty;
    }

    /** `buffer_flush_all`, on a descriptor that does not keep it for ever. */
    method FlushAll(wire: Wire) returns (ret: Status)
      requires Valid() && CanEnd(wire.oracle, wire.time, wire.errno)
      modifies this, owned, wire
      ensures Valid() && owned == old(owned) && wire.sent + Contents() == old(wire.sent + Contents())
      ensures ret != Error ==> (ret == Empty <==> Contents() == [])
      ensures old(Contents()) == [] ==> ret == Empty && wire.time == old(wire.time)
      ensures old(Contents()) != [] ==>
        && wire.time > old(wire.time)
        && ret == Verdict(wire.oracle, old(wire.time), old(wire.errno), wire.time - 1)
        && forall t :: old(wire.time) <= t < wire.time - 1 ==>
             GoesOn(wire.oracle, old(wire.time), old(wire.errno), t)
      ensures (forall t :: t >= old(wire.time) ==> Moves(wire.oracle(t))) ==>
        ret == Empty && wire.sent == old(wire.sent) + old(Contents())
    {
      hide Holds, Apart, Flatten, Valid, GoesOn, ErrnoAt, Stuck, Lively, LiveFrom, NextLive, CanEnd, Sends, Verdict;
      hide Moves;
      var wasEmpty := IsEmpty();
      if head == null { return Empty; }
      ghost var o, t0, e0 := wire.oracle, wire.time, wire.errno;
      ghost var stops: bool, stop: nat, next: nat := EndOf(o, t0, e0);
      var first := head;
      var firstSp := first.sp;
      ghost var before := Contents();
      ret := FlushAvailable(wire);
      if ret == Pending {
        Watched(o, t0, e0, stops, stop, next, t0, e0, wire.errno, |before|, |Contents()|);
      }
      Judged(o, t0, e0, t0, e0, wire.errno, |before|, |Contents()|, ret);
      if next < wire.time { next := NextLive(o, wire.time); }
      while ret == Pending
        invariant Valid() && owned == old(owned) && wire.sent + Contents() == old(wire.sent + Contents())
        invariant ret != Error ==> (ret == Empty <==> Contents() == [])
        invariant wire.time > t0 && (ret == Pending ==> wire.errno == ErrnoAt(o, t0, e0, wire.time))
        invariant ret == Pending ==> head != null && (head == first && head.sp == firstSp <==> |Contents()| == |before|)
        invariant |Contents()| <= |before|
        invariant forall t :: t0 <= t < wire.time - 1 ==> GoesOn(o, t0, e0, t)
        invariant ret == Pending && Moving(|before|, |Contents()|, wire.errno) ==> GoesOn(o, t0, e0, wire.time - 1)
        invariant ret != Pending || !Moving(|before|, |Contents()|, wire.errno) ==>
          ret == Verdict(o, t0, e0, wire.time - 1)
        invariant ret == Pending && stops && Moving(|before|, |Contents()|, wire.errno) ==> wire.time <= stop
        invariant ret == Pending && !stops && Moving(|before|, |Contents()|, wire.errno) ==>
          wire.time <= next && !Stuck(o(next))
        decreases if Moving(|before|, |Contents()|, wire.errno) then 1 else 0,
                  if stops then stop - wire.time else |Contents()|, if stops then 0 else next - wire.time
      {
        if head == first && firstSp == head.sp && wire.errno != Interrupted {
          break;
        }
        first := head;
        firstSp := first.sp;
        before := Contents();
        ghost var errno := wire.errno;
        ret := FlushAvailable(wire);
        if ret == Pending {
          Watched(o, t0, e0, stops, stop, next, wire.time - 1, errno, wire.errno, |before|, |Contents()|);
        }
        Judged(o, t0, e0, wire.time - 1, errno, wire.errno, |before|, |Contents()|, ret);
        if next < wire.time { next := NextLive(o, wire.time); }
      }
      if Moves(o(wire.time - 1)) { MovingOn(o, t0, e0, wire.time - 1); }
    }

    /** The first `n` rounds of `buffer_flush_all`; `over` tells that it has returned. */
    method FlushRounds(wire: Wire, n: nat, ghost still: nat) returns (over: bool)
      requires Valid() && (forall t :: t >= wire.time ==> GoesOn(wire.oracle, wire.time, wire.errno, t))
      requires (forall t :: t >= still ==> Stuck(wire.oracle(t))) &&
        |Contents()| > Budget(wire.oracle, wire.time, still)
      modifies this, owned, wire
      ensures Valid() && owned == old(owned) && !over && Contents() != []
    {
      hide Holds, Apart, Flatten, Valid;
      HeadFacts();
      ghost var o, t0, e0 := wire.oracle, wire.time, wire.errno;
      var k := 0;
      while k < n
        invariant 0 <= k <= n && Valid() && owned == old(owned) && wire.time >= t0
        invariant wire.errno == ErrnoAt(o, t0, e0, wire.time) && |Contents()| > Budget(o, wire.time, still)
      {
        HeadFacts();
        var first := head;
        var firstSp := first.sp;
        assert GoesOn(o, t0, e0, wire.time);
        assert wire.time >= still ==> Stuck(o(wire.time));
        var ret := FlushAvailable(wire);
        if ret != Pending || (head == first && firstSp == head.sp && wire.errno != Interrupted) {
          return true;
        }
        k := k + 1;
      }
      over := false;
    }

    /** `buffer_write`. */
    method Write(wire: Wire, p: seq<byte>) returns (ret: Status)
      requires Valid()
      modifies this, owned, wire
      ensures Valid() && wire.sent + Contents() == old(wire.sent + Contents()) + (if ret == Error then [] else p)
      ensures ret != Error ==> (ret == Empty <==> Contents() == [])
      ensures ret == Error <==> old(Contents()) == [] && wire.oracle(old(wire.time)) == Refuse(Broken)
      ensures old(Contents()) != [] ==> wire.time == old(wire.time) && wire.sent == old(wire.sent)
      ensures old(Contents()) == [] ==> wire.time == old(wire.time) + 1
      ensures old(Contents()) == [] ==>
        match wire.oracle(old(wire.time))
        case Accept(limit) => wire.sent == old(wire.sent) + Prefix(p, limit)
        case Refuse(_) => wire.sent == old(wire.sent)
      ensures wire.time >= old(wire.time)
      ensures fresh(owned - old(owned))
    {
      hide Holds, Apart, Flatten, Valid;
      var n := 0;
      var wasEmpty := IsEmpty();
      ghost var all := Contents();
      if head == null {
        n := wire.Write(p);
        if n < 0 {
          if wire.errno == Again || wire.errno == Interrupted {
            n := 0;
          } else {
            return Error;
          }
        }
      }
      WrittenFirst(old(wire.sent), all, p, n);
      if n < |p| {
        Put(p[n..]);
      }
      var empty := IsEmpty();
      ret := if head != null then Pending else Empty;
    }
  }

  /** What was written directly precedes what is queued, because nothing was queued before. */
  lemma WrittenFirst(sent: seq<byte>, all: seq<byte>, p: seq<byte>, n: nat)
    requires n <= |p| && (n > 0 ==> all == [])
    ensures (sent + p[..n]) + (all + p[n..]) == (sent + all) + p
    ensures n == |p| ==> (sent + p[..n]) + all == (sent + all) + p
    ensures n == 0 ==> sent + (all + p[n..]) == (sent + all) + p
  {
    assert p[..n] + p[n..] == p;
  }

  lemma Slice(q: seq<byte>, p: seq<byte>, n: nat, k: nat)
    requires n + k <= |p|
    ensures p[..n] + p[n..n + k] == p[..n + k] && |p[n..n + k]| == k
    ensures (q + p[..n]) + p[n..n + k] == q + p[..n + k]
  {
    assert p[..n] + p[n..n + k] == p[..n + k];
    assert (q + p[..n]) + p[n..n + k] == q + (p[..n] + p[n..n + k]);
  }

  lemma SentFirst(sent: seq<byte>, all: seq<byte>, iov: seq<byte>, n: nat)
    requires n <= |iov| <= |all| && all[..|iov|] == iov
    ensures (sent + iov[..n]) + all[n..] == sent + all
  {
    assert iov[..n] == all[..n];
    assert all[..n] + all[n..] == all;
  }

  lemma DropMore(all: seq<byte>, i: nat, k: nat)
    requires i + k <= |all|
    ensures all[i..][k..] == all[i + k..]
  {
  }

  lemma TakeFront(s: seq<seq<byte>>, n: nat)
    requires s != [] && n < |s[0]|
    ensures |s[0]| <= |Flatten(s)| && Flatten([s[0][n..]] + s[1..]) == Flatten(s)[n..]
  {
    FlattenFirst(s);
    var t := [s[0][n..]] + s[1..];
    FlattenFirst(t);
    assert t[1..] == s[1..];
  }

  lemma FlattenPrefix(s: seq<seq<byte>>, n: nat)
    requires n <= |s|
    ensures |Flatten(s[..n])| <= |Flatten(s)| && Flatten(s)[..|Flatten(s[..n])|] == Flatten(s[..n])
  {
    assert s == s[..n] + s[n..];
    FlattenSum(s[..n], s[n..]);
  }

  datatype Op = PutOp(data: seq<byte>) | WriteOp(data: seq<byte>) | FlushOp | FlushAllOp | ResetOp

  /** The stream that the calls make of `start`: every call that took its data over appends them,
      and a reset takes back the last `dropped` bytes. */
  function Stream(start: seq<byte>, ops: seq<Op>, taken: seq<bool>, dropped: seq<nat>): seq<byte>
    requires |ops| == |taken| == |dropped|
  {
    if ops == [] then start
    else
      var n := |ops| - 1;
      Streamed(Stream(start, ops[..n], taken[..n], dropped[..n]), ops[n], taken[n], dropped[n])
  }

  function Streamed(all: seq<byte>, op: Op, ok: bool, dropped: nat): seq<byte> {
    match op
    case PutOp(data) => all + data
    case WriteOp(data) => if ok then all + data else all
    case ResetOp => if dropped <= |all| then all[..|all| - dropped] else []
    case _ => all
  }

  /** One call; `dropped` counts what a reset finds pending. */
  method Perform(b: Buffer, wire: Wire, op: Op) returns (ok: bool, ghost dropped: nat)
    requires b.Valid() && (op.FlushAllOp? ==> CanEnd(wire.oracle, wire.time, wire.errno))
    modifies b, b.owned, wire
    ensures b.Valid() && fresh(b.owned - old(b.owned)) && wire.time >= old(wire.time)
    ensures !op.WriteOp? ==> ok
    ensures dropped == if op.ResetOp? then |old(b.Contents())| else 0
    ensures op.ResetOp? ==> b.Contents() == [] && wire.sent == old(wire.sent)
    ensures wire.sent + b.Contents() == Streamed(old(wire.sent + b.Contents()), op, ok, dropped)
  {
    hide Holds, Apart, Flatten, Buffer.Valid, CanEnd;
    ok, dropped := true, 0;
    ghost var before, sent := b.Contents(), wire.sent;
    match op {
      case PutOp(data) =>
        b.Put(data);
        assert sent + (before + data) == (sent + before) + data;
      case WriteOp(data) =>
        var ret := b.Write(wire, data);
        ok := ret != Error;
      case FlushOp =>
        var _ := b.FlushAvailable(wire);
      case FlushAllOp =>
        var _ := b.FlushAll(wire);
      case ResetOp =>
        dropped := |before|;
        b.Reset();
        assert (sent + before)[..|sent|] == sent;
    }
  }

  /** Over any run of puts, writes, flushes and resets nothing that is not reset is lost, repeated or
      reordered. */
  method Run(b: Buffer, wire: Wire, ops: seq<Op>) returns (taken: seq<bool>, ghost dropped: seq<nat>)
    requires b.Valid()
    requires FlushAllOp in ops ==> forall t, e {:trigger CanEnd(wire.oracle, t, e)} :: t >= wire.time ==>
      CanEnd(wire.oracle, t, e)
    modifies b, b.owned, wire
    ensures b.Valid() && |taken| == |dropped| == |ops|
    ensures forall i :: 0 <= i < |ops| ==> (!ops[i].WriteOp? ==> taken[i]) && (!ops[i].ResetOp? ==> dropped[i] == 0)
    ensures wire.sent + b.Contents() == Stream(old(wire.sent + b.Contents()), ops, taken, dropped)
  {
    hide Holds, Apart, Flatten, Buffer.Valid, CanEnd, Streamed, Stream;
    taken, dropped := [], [];
    ghost var start := wire.sent + b.Contents();
    StreamNone(start);
    for i := 0 to |ops|
      invariant b.Valid() && fresh(b.owned - old(b.owned)) && |taken| == |dropped| == i && wire.time >= old(wire.time)
      invariant forall k :: 0 <= k < i ==> (!ops[k].WriteOp? ==> taken[k]) && (!ops[k].ResetOp? ==> dropped[k] == 0)
      invariant wire.sent + b.Contents() == Stream(start, ops[..i], taken, dropped)
    {
      assert ops[i] in ops;
      var ok, n := Perform(b, wire, ops[i]);
      StreamMore(start, ops[..i], taken, dropped, ops[i], ok, n);
      assert ops[..i] + [ops[i]] == ops[..i + 1];
      taken, dropped := taken + [ok], dropped + [n];
    }
    assert ops[..|ops|] == ops;
  }

  lemma StreamNone(start: seq<byte>)
    ensures Stream(start, [], [], []) == start
  {
  }

  lemma StreamMore(start: seq<byte>, ops: seq<Op>, taken: seq<bool>, dropped: seq<nat>, op: Op, ok: bool, n: nat)
    requires |ops| == |taken| == |dropped|
    ensures Stream(start, ops + [op], taken + [ok], dropped + [n]) ==
      Streamed(Stream(start, ops, taken, dropped), op, ok, n)
  {
    assert (ops + [op])[..|ops|] == ops && (taken + [ok])[..|ops|] == taken && (dropped + [n])[..|ops|] == dropped;
  }
}
