/** What one word of a line leaves of the commands, in terms of the keywords they have at its position. */
module CommandWords {
  import opened Vectors
  import opened CommandMatcher

  /** A token that stands for itself only: no range, address, option, variable or free text. */
  predicate IsKeyword(t: string) {
    t != "" && t[0] != '.' && t[0] != '<' && t[0] != '[' && !('A' <= t[0] <= 'Z')
  }

  ghost predicate Allows(c: Slot<Element>, k: nat, t: string) {
    c.Taken? && k < |c.value.strvec| && t in c.value.strvec[k]
  }

  /** Keyword `t` stands at position `k` of a candidate. */
  ghost predicate Keyword(v: Candidates, k: nat, t: string) {
    IsKeyword(t) && exists i :: 0 <= i < |v| && Allows(v[i], k, t)
  }

  /** Exactly the candidates are left that allow `t` at position `k`. */
  ghost predicate LeftWith(n: Narrowing, v: Candidates, k: nat, t: string) {
    && n.Ended? && n.k == k + 1 && !n.vararg && |n.left| == |v|
    && forall i :: 0 <= i < |v| ==> n.left[i] == if Allows(v[i], k, t) then v[i] else Free
  }

  /** A whole keyword leaves the candidates that have it, whatever else the word might mean there. */
  lemma WholeWord(x: Syntax, v: Candidates, k: nat, w: string, strict: bool)
    requires Keyword(v, k, w)
    ensures LeftWith(Step(x, v, k, w, strict), v, k, w)
  {
    var i :| 0 <= i < |v| && Allows(v[i], k, w);
    var j :| 0 <= j < |v[i].value.strvec[k]| && v[i].value.strvec[k][j] == w;
    SelfMatch(x, w, strict);
    ExactBest(x, v, k, w, strict, i, j);
    hide BestMatch, Filtered, Narrowed, TokenMatch, AnyPrevails, TokenAt;
    forall n | 0 <= n < |v|
      ensures Narrowed(x, Filtered(x, v, k, w, strict), k, w, EXACT_MATCH)[n] ==
        if Allows(v[n], k, w) then v[n] else Free
    {
      ExactLeft(x, v, k, w, strict, n);
    }
  }

  /** The keywords that a word begins are the tokens that match it partly. */
  lemma Begun(x: Syntax, v: Candidates, k: nat, w: string, u: string)
    requires Plain(w)
    ensures TokenAt(Filtered(x, v, k, w, false), k, u) && Prevails(x, u, w, PARTLY_MATCH) <==>
      Keyword(v, k, u) && w <= u
  {
    var f := Filtered(x, v, k, w, false);
    hide SlotMatch, TokenMatch;
    if TokenAt(f, k, u) && Prevails(x, u, w, PARTLY_MATCH) {
      FoundIn(x, v, k, w, u);
      var i, j :| 0 <= i < |v| && v[i].Taken? && k < |v[i].value.strvec| && 0 <= j < |v[i].value.strvec[k]| &&
        v[i].value.strvec[k][j] == u;
      assert u[0] == w[0] && Allows(v[i], k, u);
    }
    if Keyword(v, k, u) && w <= u {
      var i :| 0 <= i < |v| && Allows(v[i], k, u);
      var j :| 0 <= j < |v[i].value.strvec[k]| && v[i].value.strvec[k][j] == u;
      SlotMatches(x, v[i], k, w, false, j);
      BeginMatch(x, w, u);
      assert f[i] == v[i];
    }
  }

  lemma ExactToken(x: Syntax, u: string, w: string)
    requires w != "" && TokenMatch(x, u, w, false) >= EXACT_MATCH
    ensures u == w && IsKeyword(w)
  {
  }

  lemma ExactIs(x: Syntax, v: Candidates, k: nat, w: string)
    requires w != "" && BestMatch(x, v, k, w, false) >= EXACT_MATCH
    ensures Keyword(v, k, w)
  {
    BestMatchFound(x, v, k, w, false);
    var n :| 0 <= n < |v| && SlotMatch(x, v[n], k, w, false) == BestMatch(x, v, k, w, false);
    var tokens := v[n].value.strvec[k];
    BestTokenFound(x, tokens, w, false);
    hide BestMatch, BestToken, TokenMatch, IsKeyword;
    var b :| 0 <= b < |tokens| && TokenMatch(x, tokens[b], w, false) == BestMatch(x, v, k, w, false);
    ExactToken(x, tokens[b], w);
    assert Allows(v[n], k, w);
  }

  lemma PartlyBest(x: Syntax, v: Candidates, k: nat, w: string, t: string)
    requires Plain(w) && !Keyword(v, k, w) && Keyword(v, k, t) && w <= t
    ensures BestMatch(x, v, k, w, false) == PARTLY_MATCH
  {
    if BestMatch(x, v, k, w, false) >= EXACT_MATCH { ExactIs(x, v, k, w); }
    hide BestMatch, BestToken;
    var i :| 0 <= i < |v| && Allows(v[i], k, t);
    var j :| 0 <= j < |v[i].value.strvec[k]| && v[i].value.strvec[k][j] == t;
    SlotMatches(x, v[i], k, w, false, j);
    assert TokenMatch(x, t, w, false) >= PARTLY_MATCH;
    BestMatchBounds(x, v, k, w, false, i);
  }

  /** The abbreviating executor: a word that is no keyword itself and begins one leaves the candidates that
      have that one, and is ambiguous if it begins another one as well. */
  lemma BegunWord(x: Syntax, v: Candidates, k: nat, w: string, t: string)
    requires Plain(w) && !Keyword(v, k, w) && Keyword(v, k, t) && w <= t
    ensures if exists u :: u != t && Keyword(v, k, u) && w <= u then Step(x, v, k, w, false) == Stopped(true)
      else LeftWith(Step(x, v, k, w, false), v, k, t)
  {
    PartlyBest(x, v, k, w, t);
    var f := Filtered(x, v, k, w, false);
    forall u
      ensures TokenAt(f, k, u) && Prevails(x, u, w, PARTLY_MATCH) <==> Keyword(v, k, u) && w <= u
    {
      Begun(x, v, k, w, u);
    }
    hide BestMatch, Filtered, Narrowed, TokenMatch, AnyPrevails, TokenAt, Keyword, Prevails, Allows;
    if !exists u :: u != t && Keyword(v, k, u) && w <= u {
      OneBegun(x, v, k, w, t);
    }
  }

  lemma OneBegun(x: Syntax, v: Candidates, k: nat, w: string, t: string)
    requires Plain(w) && BestMatch(x, v, k, w, false) == PARTLY_MATCH && w <= t && IsKeyword(t)
    requires var f := Filtered(x, v, k, w, false);
      TokenAt(f, k, t) && forall u :: TokenAt(f, k, u) && Prevails(x, u, w, PARTLY_MATCH) ==> u == t
    ensures LeftWith(Step(x, v, k, w, false), v, k, t)
  {
    hide BestMatch, Filtered, Narrowed, TokenMatch, AnyPrevails, TokenAt, Prevails;
    var f := Filtered(x, v, k, w, false);
    forall n | 0 <= n < |v|
      ensures Narrowed(x, f, k, w, PARTLY_MATCH)[n] == if Allows(v[n], k, t) then v[n] else Free
    {
      PartlyLeft(x, v, k, w, t, n);
    }
  }

  /** The strict one does not take it for any: each candidate left has something else there. */
  lemma StrictWord(x: Syntax, v: Candidates, k: nat, w: string)
    requires !Keyword(v, k, w)
    ensures var n := Step(x, v, k, w, true);
      n.Ended? ==> |n.left| == |v| && forall i :: 0 <= i < |v| && n.left[i].Taken? ==>
        n.left[i] == v[i] && k < |v[i].value.strvec| && exists u :: u in v[i].value.strvec[k] && !IsKeyword(u)
  {
    hide BestMatch, Ambiguous, Unfinished, TokenMatch;
    var n := Step(x, v, k, w, true);
    if n.Ended? {
      forall i | 0 <= i < |v| && n.left[i].Taken?
        ensures n.left[i] == v[i] && k < |v[i].value.strvec|
        ensures exists u :: u in v[i].value.strvec[k] && !IsKeyword(u)
      {
        assert SlotMatch(x, v[i], k, w, true) != NO_MATCH;
        OtherToken(x, v, k, w, i);
      }
    }
  }

  lemma OtherToken(x: Syntax, v: Candidates, k: nat, w: string, i: nat)
    requires !Keyword(v, k, w) && i < |v| && SlotMatch(x, v[i], k, w, true) != NO_MATCH
    ensures v[i].Taken? && k < |v[i].value.strvec| && exists u :: u in v[i].value.strvec[k] && !IsKeyword(u)
  {
    BestTokenFound(x, v[i].value.strvec[k], w, true);
    var j :| 0 <= j < |v[i].value.strvec[k]| && TokenMatch(x, v[i].value.strvec[k][j], w, true) != NO_MATCH;
    var u := v[i].value.strvec[k][j];
    assert u in v[i].value.strvec[k];
    assert u == w ==> Allows(v[i], k, w);
  }
}
