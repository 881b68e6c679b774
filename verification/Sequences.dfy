/** Small facts about duplicate-free sequences, shared by every linked list in the model. */
module Sequences {
  ghost predicate Distinct<T>(s: seq<T>) {
    forall i, j :: 0 <= i < j < |s| ==> s[i] != s[j]
  }

  /** `s` without the first occurrence of `x`. */
  function Without<T(==)>(s: seq<T>, x: T): seq<T> {
    if s == [] then [] else if s[0] == x then s[1..] else [s[0]] + Without(s[1..], x)
  }

  lemma {:induction false} WithoutAt<T>(s: seq<T>, i: nat)
    requires Distinct(s) && i < |s|
    ensures Without(s, s[i]) == s[..i] + s[i + 1..]
  {
    if i > 0 {
      WithoutAt(s[1..], i - 1);
      assert s[..i] == [s[0]] + s[1..][..i - 1];
    }
  }

  lemma WithoutMember<T>(s: seq<T>, x: T)
    requires Distinct(s) && x in s
    ensures Distinct(Without(s, x)) && |Without(s, x)| == |s| - 1
    ensures forall y :: y in Without(s, x) <==> y in s && y != x
  {
    var i :| 0 <= i < |s| && s[i] == x;
    WithoutAt(s, i);
    forall y | y in s && y != x
      ensures y in Without(s, x)
    {
      var j :| 0 <= j < |s| && s[j] == y;
      assert Without(s, x)[if j < i then j else j - 1] == y;
    }
  }

  lemma WithoutSubset<T>(s: seq<T>, x: T)
    ensures forall y :: y in Without(s, x) ==> y in s
  {
  }

  lemma HasMember<T>(s: seq<T>)
    requires s != []
    ensures exists x :: x in s
  {
    assert s[0] in s;
  }

  /** Sequences one behind the other. */
  function Flatten<T>(s: seq<seq<T>>): seq<T> {
    if s == [] then [] else s[0] + Flatten(s[1..])
  }

  lemma FlattenFirst<T>(s: seq<seq<T>>)
    requires s != []
    ensures Flatten(s) == s[0] + Flatten(s[1..]) && |Flatten(s)| == |s[0]| + |Flatten(s[1..])|
    ensures Flatten(s)[..|s[0]|] == s[0] && Flatten(s)[|s[0]|..] == Flatten(s[1..])
  {
  }

  lemma {:induction false} FlattenSum<T>(s: seq<seq<T>>, t: seq<seq<T>>)
    ensures Flatten(s + t) == Flatten(s) + Flatten(t)
  {
    if s == [] {
      assert s + t == t;
    } else {
      assert (s + t)[0] == s[0] && (s + t)[1..] == s[1..] + t;
      FlattenSum(s[1..], t);
    }
  }

  lemma FlattenOne<T>(s: seq<seq<T>>, c: seq<T>)
    ensures Flatten(s + [c]) == Flatten(s) + c
  {
    FlattenSum(s, [c]);
    assert [c][0] == c && [c][1..] == [] && c + Flatten([]) == c;
  }
}
