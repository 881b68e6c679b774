/** Growable arrays of pointers, in which slots may be empty. */
module Vectors {
  /** A slot that holds the null pointer, or a value. */
  datatype Slot<T> = Free | Taken(value: T)

  /** The position of the first free slot. */
  function FirstFree<T(==)>(s: seq<Slot<T>>): (i: nat)
    ensures i <= |s| && (i < |s| ==> s[i] == Free) && forall j :: 0 <= j < i ==> s[j] != Free
  {
    if s == [] || s[0] == Free then 0 else 1 + FirstFree(s[1..])
  }

  function Padded<T>(s: seq<Slot<T>>, n: nat): (r: seq<Slot<T>>)
    ensures |r| >= |s| && |r| >= n && r[..|s|] == s && forall j :: |s| <= j < |r| ==> r[j] == Free
    ensures n <= |s| ==> r == s
  {
    if n <= |s| then s else s + seq(n - |s|, _ => Free)
  }

  /** `s` without the free slots at its end. */
  function Trimmed<T(==)>(s: seq<Slot<T>>): (r: seq<Slot<T>>)
    ensures r <= s && (r != [] ==> r[|r| - 1] != Free) && forall j :: |r| <= j < |s| ==> s[j] == Free
  {
    if s != [] && s[|s| - 1] == Free then Trimmed(s[..|s| - 1]) else s
  }

  lemma TrimmedStep<T>(s: seq<Slot<T>>)
    ensures s != [] && s[|s| - 1] == Free ==> Trimmed(s) == Trimmed(s[..|s| - 1])
    ensures s == [] || s[|s| - 1] != Free ==> Trimmed(s) == s
  {
  }

  class Vector<T(==, !new)> {
    var index: array<Slot<T>>
    var active: nat

    ghost predicate Valid()
      reads this, index
    {
      active <= index.Length && index.Length > 0
    }

    /** The slots in use. */
    ghost function Slots(): (s: seq<Slot<T>>)
      reads this, index
      requires Valid()
      ensures s == index[..active] && |s| == active
    {
      index[..active]
    }

    /** Slots that are allocated but not in use are free. */
    ghost predicate Clear()
      reads this, index
      requires Valid()
    {
      forall i {:trigger index[i]} :: active <= i < index.Length ==> index[i] == Free
    }

    /** `vector_init`. */
    constructor (size: nat)
      ensures Valid() && Clear() && Slots() == [] && fresh(index)
    {
      var alloced := if size == 0 then 1 else size;
      index := new Slot<T>[alloced](_ => Free);
      active := 0;
    }

    /** `vector_copy`. */
    constructor Copy(v: Vector<T>)
      requires v.Valid() && v.Clear()
      ensures Valid() && Clear() && Slots() == v.Slots() && fresh(index)
    {
      var a := new Slot<T>[v.index.Length](_ => Free);
      index := a;
      active := v.active;
      new;
      forall i | 0 <= i < v.index.Length {
        index[i] := v.index[i];
      }
      assert index[..active] == v.index[..active];
    }

    /** `vector_ensure`. */
    method Ensure(num: nat)
      requires Valid() && Clear()
      modifies this`index
      ensures Valid() && Clear() && Slots() == old(Slots()) && num < index.Length
      ensures index == old(index) || fresh(index)
      decreases if index.Length > num then 0 else num + 1 - index.Length
    {
      if index.Length > num { return; }
      var bigger := new Slot<T>[2 * index.Length](_ => Free);
      forall i | 0 <= i < index.Length {
        bigger[i] := index[i];
      }
      assert bigger[..active] == index[..active];
      index := bigger;
      if index.Length <= num {
        Ensure(num);
      }
    }

    /** `vector_empty_slot`. */
    method EmptySlot() returns (i: nat)
      requires Valid()
      ensures i == FirstFree(Slots())
    {
      i := 0;
      while i < active
        invariant i <= active && forall j :: 0 <= j < i ==> index[j] != Free
      {
        if index[i] == Free {
          assert index[..active][i] == Free;
          return;
        }
        i := i + 1;
      }
    }

    /** `vector_set`. */
    method Set(val: T) returns (i: nat)
      requires Valid() && Clear()
      modifies this, index
      ensures Valid() && Clear() && (index == old(index) || fresh(index))
      ensures i == FirstFree(old(Slots()))
      ensures Slots() == if i < |old(Slots())| then old(Slots())[i := Taken(val)] else old(Slots()) + [Taken(val)]
    {
      i := EmptySlot();
      Ensure(i);
      index[i] := Taken(val);
      if active <= i {
        active := i + 1;
      }
    }

    /** `vector_set_index`. */
    method SetIndex(i: nat, val: Slot<T>)
      requires Valid() && Clear()
      modifies this, index
      ensures Valid() && Clear() && (index == old(index) || fresh(index))
      ensures Slots() == Padded(old(Slots()), i + 1)[i := val]
    {
      Ensure(i);
      ghost var s := index[..active];
      index[i] := val;
      if active <= i {
        active := i + 1;
      }
      assert index[..active] == Padded(s, i + 1)[i := val];
    }

    /** `vector_lookup`. */
    method Lookup(i: nat) returns (r: Slot<T>)
      requires Valid()
      ensures r == if i < |Slots()| then Slots()[i] else Free
    {
      if i >= active { return Free; }
      r := index[i];
    }

    /** Drops the free slots at the end. */
    method Trim(ghost s: seq<Slot<T>>)
      requires Valid() && Clear() && index[..active] == s
      modifies this`active
      ensures Valid() && Clear() && Slots() == Trimmed(s)
    {
      hide Trimmed, FirstFree, Padded, TakenCount;
      var i := active;
      while i > 0
        invariant i == active <= index.Length && Clear() && active <= |s|
        invariant Trimmed(index[..active]) == Trimmed(s)
      {
        ghost var now := index[..active];
        i := i - 1;
        if index[i] != Free { break; }
        assert now[i] == Free;
        TrimmedStep(now);
        active := active - 1;
        assert now[..i] == index[..active];
      }
      TrimmedStep(index[..active]);
    }

    /** `vector_unset`. */
    method Unset(at: nat)
      requires Valid() && Clear()
      modifies this, index
      ensures Valid() && Clear() && index == old(index)
      ensures Slots() == if at + 1 == |old(Slots())| then Trimmed(old(Slots())[..at])
                         else if at < |old(Slots())| then old(Slots())[at := Free] else old(Slots())
    {
      hide Trimmed, FirstFree, Padded, TakenCount;
      if at >= index.Length { return; }
      ghost var s := index[..active];
      index[at] := Free;
      if at + 1 == active {
        active := active - 1;
        assert index[..active] == s[..at];
        Trim(s[..at]);
      } else {
        assert index[..active] == if at < active then s[at := Free] else s;
      }
    }

    /** `vector_count`. */
    method Count() returns (n: nat)
      requires Valid()
      ensures n == TakenCount(Slots())
    {
      n := 0;
      for i := 0 to active
        invariant n == TakenCount(index[..i])
      {
        assert index[..i + 1][..i] == index[..i];
        if index[i] != Free {
          n := n + 1;
        }
      }
    }
  }

  function TakenCount<T(==)>(s: seq<Slot<T>>): nat {
    if s == [] then 0 else TakenCount(s[..|s| - 1]) + if s[|s| - 1] != Free then 1 else 0
  }

  /** Filling a vector from empty only ever appends. */
  lemma NoneFree<T>(s: seq<Slot<T>>)
    requires forall i :: 0 <= i < |s| ==> s[i].Taken?
    ensures FirstFree(s) == |s|
  {
  }
}
