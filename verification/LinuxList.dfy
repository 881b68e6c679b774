/** Circular lists whose links are kept in the entries themselves. */
module LinuxList {
  import opened Sequences

  /** The address of a list head or of an entry. */
  type Node = int

  const POISON1: Node := -1
  const POISON2: Node := -2

  /** The entry at position `i` of the list, or its head behind the last. */
  function EntryAt(h: Node, s: seq<Node>, i: nat): Node {
    if i < |s| then s[i] else h
  }

  /** The entry before position `i`, or the head before the first. */
  function Before(h: Node, s: seq<Node>, i: nat): Node {
    if 0 < i <= |s| then s[i - 1] else h
  }

  /** The link between two neighbours leads both ways. */
  ghost predicate LinkedAt(next: map<Node, Node>, prev: map<Node, Node>, h: Node, s: seq<Node>, i: nat) {
    var p, q := Before(h, s, i), EntryAt(h, s, i);
    p in next && q in prev && next[p] == q && prev[q] == p
  }

  /** Following the links from head `h` leads through the entries `s` and back to the head. */
  ghost predicate Ring(next: map<Node, Node>, prev: map<Node, Node>, h: Node, s: seq<Node>) {
    && Distinct(s) && h !in s && h >= 0 && (forall x {:trigger x in s} :: x in s ==> x >= 0)
    && (forall i {:trigger LinkedAt(next, prev, h, s, i)} :: 0 <= i <= |s| ==> LinkedAt(next, prev, h, s, i))
  }

  lemma RingStep(next: map<Node, Node>, prev: map<Node, Node>, h: Node, s: seq<Node>, i: nat)
    requires Ring(next, prev, h, s) && i < |s|
    ensures s[i] in next && next[s[i]] == EntryAt(h, s, i + 1) && s[i] in prev && prev[s[i]] == Before(h, s, i)
  {
    assert LinkedAt(next, prev, h, s, i) && LinkedAt(next, prev, h, s, i + 1);
  }

  lemma RingFirst(next: map<Node, Node>, prev: map<Node, Node>, h: Node, s: seq<Node>)
    requires Ring(next, prev, h, s)
    ensures h in next && h in prev && next[h] == EntryAt(h, s, 0) && prev[h] == Before(h, s, |s|)
  {
    assert LinkedAt(next, prev, h, s, 0) && LinkedAt(next, prev, h, s, |s|);
  }

  /** Links that other lists use are not touched. */
  lemma RingFrame(next: map<Node, Node>, prev: map<Node, Node>, next1: map<Node, Node>, prev1: map<Node, Node>,
                  h: Node, s: seq<Node>)
    requires Ring(next, prev, h, s)
    requires forall x {:trigger x in s} :: x in s || x == h ==> Same(x, next, prev, next1, prev1)
    ensures Ring(next1, prev1, h, s)
  {
    forall i | 0 <= i <= |s|
      ensures LinkedAt(next1, prev1, h, s, i)
    {
      assert LinkedAt(next, prev, h, s, i);
      var p, q := Before(h, s, i), EntryAt(h, s, i);
      assert (p in s || p == h) && (q in s || q == h);
    }
  }

  lemma AtHead(h: Node, s: seq<Node>, i: nat)
    requires h !in s && i <= |s| && EntryAt(h, s, i) == h
    ensures i == |s|
  {
  }

  lemma EmptyWhenOwnNext(next: map<Node, Node>, prev: map<Node, Node>, h: Node, s: seq<Node>)
    requires Ring(next, prev, h, s)
    ensures h in next && (next[h] == h <==> s == [])
  {
    RingFirst(next, prev, h, s);
    assert s == [] || s[0] in s;
  }

  class Links {
    var next: map<Node, Node>
    var prev: map<Node, Node>

    ghost predicate IsList(h: Node, s: seq<Node>)
      reads this
    {
      Ring(next, prev, h, s)
    }

    constructor ()
      ensures next == map[] && prev == map[]
    {
      next, prev := map[], map[];
    }

    /** `INIT_LLIST_HEAD`. */
    method InitHead(h: Node)
      requires h >= 0
      modifies this
      ensures IsList(h, []) && next == old(next)[h := h] && prev == old(prev)[h := h]
    {
      next := next[h := h];
      prev := prev[h := h];
    }

    /** `__llist_add`, between the entries at positions `i - 1` and `i` of a list. */
    method Insert(n: Node, p: Node, q: Node, ghost h: Node, ghost s: seq<Node>, ghost i: nat)
      requires IsList(h, s) && i <= |s| && n !in s && n != h && n >= 0
      requires p == Before(h, s, i) && q == EntryAt(h, s, i)
      modifies this
      ensures IsList(h, s[..i] + [n] + s[i..])
      ensures next == old(next)[n := q][p := n] && prev == old(prev)[q := n][n := p]
    {
      prev := prev[q := n];
      next := next[n := q];
      prev := prev[n := p];
      next := next[p := n];
      Inserted(old(next), old(prev), h, s, i, n);
    }

    /** `llist_add`. */
    method Add(n: Node, h: Node, ghost s: seq<Node>)
      requires IsList(h, s) && n !in s && n != h && n >= 0
      modifies this
      ensures IsList(h, [n] + s)
      ensures forall x :: x != n && x != h && x !in s ==> Same(x, old(next), old(prev), next, prev)
    {
      RingFirst(next, prev, h, s);
      Insert(n, h, next[h], h, s, 0);
      assert s[..0] + [n] + s[0..] == [n] + s;
      assert s != [] ==> s[0] in s;
    }

    /** `llist_add_tail`. */
    method AddTail(n: Node, h: Node, ghost s: seq<Node>)
      requires IsList(h, s) && n !in s && n != h && n >= 0
      modifies this
      ensures IsList(h, s + [n])
      ensures forall x :: x != n && x != h && x !in s ==> Same(x, old(next), old(prev), next, prev)
    {
      RingFirst(next, prev, h, s);
      Insert(n, prev[h], h, h, s, |s|);
      assert s[..|s|] + [n] + s[|s|..] == s + [n];
      assert s != [] ==> s[|s| - 1] in s;
    }

    /** `__llist_del`, around the entry at position `i` of a list. */
    method Unlink(p: Node, q: Node, ghost h: Node, ghost s: seq<Node>, ghost i: nat)
      requires IsList(h, s) && i < |s| && p == Before(h, s, i) && q == EntryAt(h, s, i + 1)
      modifies this
      ensures IsList(h, s[..i] + s[i + 1..])
      ensures next == old(next)[p := q] && prev == old(prev)[q := p]
    {
      prev := prev[q := p];
      next := next[p := q];
      Unlinked(old(next), old(prev), h, s, i);
    }

    /** `llist_del`. */
    method Del(n: Node, ghost h: Node, ghost s: seq<Node>)
      requires IsList(h, s) && n in s
      modifies this
      ensures IsList(h, Without(s, n)) && n in next && next[n] == POISON1 && n in prev && prev[n] == POISON2
      ensures forall x :: x != h && x !in s ==> Same(x, old(next), old(prev), next, prev)
    {
      ghost var i :| 0 <= i < |s| && s[i] == n;
      RingStep(next, prev, h, s, i);
      WithoutAt(s, i);
      assert i > 0 ==> s[i - 1] in s;
      assert i + 1 < |s| ==> s[i + 1] in s;
      Unlink(prev[n], next[n], h, s, i);
      ghost var next1, prev1 := next, prev;
      next := next[n := POISON1];
      prev := prev[n := POISON2];
      RingFrame(next1, prev1, next, prev, h, Without(s, n)) by {
        WithoutMember(s, n);
      }
    }

    /** Takes `n` off list `from`; the other list `h` stays as it is. */
    method TakeOff(n: Node, ghost from: Node, ghost s: seq<Node>, ghost h: Node, ghost t: seq<Node>)
      requires IsList(from, s) && IsList(h, t) && n in s && Disjoint(from, s, h, t)
      modifies this
      ensures IsList(from, Without(s, n)) && IsList(h, t)
    {
      ghost var i :| 0 <= i < |s| && s[i] == n;
      RingStep(next, prev, from, s, i);
      WithoutAt(s, i);
      ghost var next0, prev0 := next, prev;
      assert i > 0 ==> s[i - 1] in s;
      assert i + 1 < |s| ==> s[i + 1] in s;
      ghost var p, q := prev[n], next[n];
      assert p !in t && p != h && q !in t && q != h;
      Unlink(prev[n], next[n], from, s, i);
      hide Ring, Without, Disjoint;
      assert forall x {:trigger x in t} :: x in t || x == h ==> Same(x, next0, prev0, next, prev);
      RingFrame(next0, prev0, next, prev, h, t);
    }

    /** `llist_move`, from one list to the front of another. */
    method Move(n: Node, h: Node, ghost from: Node, ghost s: seq<Node>, ghost t: seq<Node>)
      requires IsList(from, s) && IsList(h, t) && n in s && Disjoint(from, s, h, t)
      modifies this
      ensures IsList(from, Without(s, n)) && IsList(h, [n] + t)
    {
      TakeOff(n, from, s, h, t);
      WithoutMember(s, n);
      hide Ring, Without;
      ghost var next1, prev1 := next, prev;
      Add(n, h, t);
      assert forall x :: x in Without(s, n) || x == from ==> Same(x, next1, prev1, next, prev);
      RingFrame(next1, prev1, next, prev, from, Without(s, n));
    }

    /** `llist_splice_init`: the entries of list `l` go to the front of list `h`. */
    method SpliceInit(l: Node, h: Node, ghost s: seq<Node>, ghost t: seq<Node>)
      requires IsList(l, s) && IsList(h, t) && Disjoint(l, s, h, t)
      modifies this
      ensures IsList(l, []) && IsList(h, s + t)
    {
      RingFirst(next, prev, l, s);
      RingFirst(next, prev, h, t);
      if next[l] == l {
        EmptyWhenOwnNext(next, prev, l, s);
        assert s + t == t;
        return;
      }
      ghost var next0, prev0 := next, prev;
      var first, last, at := next[l], prev[l], next[h];
      prev := prev[first := h];
      next := next[h := first];
      next := next[last := at];
      prev := prev[at := last];
      Spliced(next0, prev0, l, h, s, t, next, prev);
      ghost var next1, prev1 := next, prev;
      InitHead(l);
      RingFrame(next1, prev1, next, prev, h, s + t);
    }
  }

  ghost predicate Same(x: Node, next: map<Node, Node>, prev: map<Node, Node>,
                       next1: map<Node, Node>, prev1: map<Node, Node>) {
    && (x in next <==> x in next1) && (x in next ==> next1[x] == next[x])
    && (x in prev <==> x in prev1) && (x in prev ==> prev1[x] == prev[x])
  }

  /** Two lists without a common entry or head. */
  ghost predicate Disjoint(h: Node, s: seq<Node>, k: Node, t: seq<Node>) {
    h != k && h !in t && k !in s && forall x {:trigger x in s} {:trigger x in t} :: x in s ==> x !in t
  }

  lemma Inserted(next: map<Node, Node>, prev: map<Node, Node>, h: Node, s: seq<Node>, i: nat, n: Node)
    requires Ring(next, prev, h, s) && i <= |s| && n !in s && n != h && n >= 0
    ensures var p, q := Before(h, s, i), EntryAt(h, s, i);
      Ring(next[n := q][p := n], prev[q := n][n := p], h, s[..i] + [n] + s[i..])
  {
    var p, q := Before(h, s, i), EntryAt(h, s, i);
    var t := s[..i] + [n] + s[i..];
    var next1, prev1 := next[n := q][p := n], prev[q := n][n := p];
    forall k | 0 <= k <= |t|
      ensures LinkedAt(next1, prev1, h, t, k)
    {
      if k != i && k != i + 1 {
        var j := if k < i then k else k - 1;
        assert Before(h, t, k) == Before(h, s, j) && EntryAt(h, t, k) == EntryAt(h, s, j);
        assert LinkedAt(next, prev, h, s, j);
        AroundDistinct(h, s, i, j);
        BeforeEntry(h, s, j);
      }
    }
    InsertDistinct(s, i, n);
  }

  lemma BeforeEntry(h: Node, s: seq<Node>, i: nat)
    requires i <= |s|
    ensures Before(h, s, i) in s || Before(h, s, i) == h
    ensures EntryAt(h, s, i) in s || EntryAt(h, s, i) == h
  {
  }

  /** The links of a list are different. */
  lemma AroundDistinct(h: Node, s: seq<Node>, i: nat, j: nat)
    requires Distinct(s) && h !in s && i <= |s| && j <= |s| && i != j
    ensures Before(h, s, i) != Before(h, s, j) && EntryAt(h, s, i) != EntryAt(h, s, j)
  {
    BeforeEntry(h, s, i);
    BeforeEntry(h, s, j);
  }

  lemma InsertDistinct(s: seq<Node>, i: nat, n: Node)
    requires Distinct(s) && i <= |s| && n !in s
    ensures Distinct(s[..i] + [n] + s[i..])
    ensures forall x :: x in s[..i] + [n] + s[i..] <==> x in s || x == n
  {
    var t := s[..i] + [n] + s[i..];
    forall x | x in s || x == n
      ensures x in t
    {
      if x == n {
        assert t[i] == n;
      } else {
        var k :| 0 <= k < |s| && s[k] == x;
        assert t[if k < i then k else k + 1] == x;
      }
    }
  }

  lemma Unlinked(next: map<Node, Node>, prev: map<Node, Node>, h: Node, s: seq<Node>, i: nat)
    requires Ring(next, prev, h, s) && i < |s|
    ensures var p, q := Before(h, s, i), EntryAt(h, s, i + 1);
      Ring(next[p := q], prev[q := p], h, s[..i] + s[i + 1..])
  {
    var p, q := Before(h, s, i), EntryAt(h, s, i + 1);
    var t := s[..i] + s[i + 1..];
    var next1, prev1 := next[p := q], prev[q := p];
    forall k | 0 <= k <= |t|
      ensures LinkedAt(next1, prev1, h, t, k)
    {
      if k != i {
        var j := if k < i then k else k + 1;
        assert Before(h, t, k) == Before(h, s, j) && EntryAt(h, t, k) == EntryAt(h, s, j);
        assert LinkedAt(next, prev, h, s, j);
        AroundDistinct(h, s, i, j);
        AroundDistinct(h, s, i + 1, j);
      }
    }
    WithoutAt(s, i);
    WithoutMember(s, s[i]);
  }

  lemma Spliced(next: map<Node, Node>, prev: map<Node, Node>, l: Node, h: Node, s: seq<Node>, t: seq<Node>,
                next1: map<Node, Node>, prev1: map<Node, Node>)
    requires Ring(next, prev, l, s) && Ring(next, prev, h, t) && Disjoint(l, s, h, t) && s != []
    requires var first, last, at := s[0], s[|s| - 1], EntryAt(h, t, 0);
      next1 == next[h := first][last := at] && prev1 == prev[first := h][at := last]
    ensures Ring(next1, prev1, h, s + t)
  {
    var u, n := s + t, |s|;
    forall k | 0 <= k <= |u|
      ensures LinkedAt(next1, prev1, h, u, k)
    {
      SplicedAt(next, prev, l, h, s, t, next1, prev1, k);
    }
    JoinDistinct(s, t);
  }

  lemma SplicedAt(next: map<Node, Node>, prev: map<Node, Node>, l: Node, h: Node, s: seq<Node>, t: seq<Node>,
                  next1: map<Node, Node>, prev1: map<Node, Node>, k: nat)
    requires Ring(next, prev, l, s) && Ring(next, prev, h, t) && Disjoint(l, s, h, t) && s != [] && k <= |s + t|
    requires var first, last, at := s[0], s[|s| - 1], EntryAt(h, t, 0);
      next1 == next[h := first][last := at] && prev1 == prev[first := h][at := last]
    ensures LinkedAt(next1, prev1, h, s + t, k)
  {
    var u, n := s + t, |s|;
    assert s[0] in s && s[n - 1] in s;
    assert EntryAt(h, t, 0) !in s by { BeforeEntry(h, t, 0); }
    if 0 < k < n {
      assert Before(h, u, k) == Before(l, s, k) && EntryAt(h, u, k) == EntryAt(l, s, k);
      assert LinkedAt(next, prev, l, s, k);
      AroundDistinct(l, s, k, n);
      AroundDistinct(l, s, k, 0);
      BeforeEntry(l, s, k);
    } else if k > n {
      assert Before(h, u, k) == Before(h, t, k - n) && EntryAt(h, u, k) == EntryAt(h, t, k - n);
      assert LinkedAt(next, prev, h, t, k - n);
      AroundDistinct(h, t, k - n, 0);
      BeforeEntry(h, t, k - n);
    }
  }

  lemma JoinDistinct(s: seq<Node>, t: seq<Node>)
    requires Distinct(s) && Distinct(t) && forall x :: x in s ==> x !in t
    ensures Distinct(s + t) && forall x :: x in s + t <==> x in s || x in t
  {
    var u := s + t;
    forall i, j | 0 <= i < j < |u|
      ensures u[i] != u[j]
    {
      if i < |s| <= j {
        assert u[i] in s && u[j] == t[j - |s|] && u[j] in t;
      }
    }
  }
}
