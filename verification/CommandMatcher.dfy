/** Finding the command that a line of words means, by narrowing a set of candidates word by word. */
module CommandMatcher {
  import opened Vectors

  type MatchType = nat

  const NO_MATCH: MatchType := 0
  const EXTEND_MATCH: MatchType := 1
  const IPV4_PREFIX_MATCH: MatchType := 2
  const IPV4_MATCH: MatchType := 3
  const RANGE_MATCH: MatchType := 6
  const VARARG_MATCH: MatchType := 7
  const PARTLY_MATCH: MatchType := 8
  const EXACT_MATCH: MatchType := 9

  const CMD_ARGC_MAX := 25

  /** A command: for each position the tokens it allows there, and how many positions must be given. */
  datatype Element = Element(name: string, strvec: seq<seq<string>>, cmdsize: nat)

  type Candidates = seq<Slot<Element>>

  /** Whether a word is an address, the beginning of one, or neither. */
  datatype Address = NoAddress | PartOfAddress | FullAddress

  /** What counts as a number in a range and as an address. */
  datatype Syntax = Syntax(range: (string, string) -> bool, ipv4: string -> Address, prefix: string -> Address)

  predicate Starts(t: string, c: char) {
    t != "" && t[0] == c
  }

  predicate IsVararg(t: string) {
    Starts(t, '.')
  }

  predicate IsRange(t: string) {
    Starts(t, '<')
  }

  predicate IsIpv4(t: string) {
    t == "A.B.C.D"
  }

  predicate IsPrefix(t: string) {
    t == "A.B.C.D/M"
  }

  predicate IsOption(t: string) {
    Starts(t, '[')
  }

  predicate IsVariable(t: string) {
    t != "" && ('A' <= t[0] <= 'Z' || t[0] == '<')
  }

  predicate Begins(w: string, t: string) {
    w <= t
  }

  /** How token `t` matches word `w`. The strict form wants whole addresses and keywords. */
  function TokenMatch(x: Syntax, t: string, w: string, strict: bool): MatchType {
    if IsVararg(t) then VARARG_MATCH
    else if IsRange(t) then if x.range(t, w) then RANGE_MATCH else NO_MATCH
    else if IsIpv4(t) then
      if x.ipv4(w) == FullAddress || (!strict && x.ipv4(w) == PartOfAddress) then IPV4_MATCH else NO_MATCH
    else if IsPrefix(t) then
      if x.prefix(w) == FullAddress || (!strict && x.prefix(w) == PartOfAddress) then IPV4_PREFIX_MATCH else NO_MATCH
    else if IsOption(t) || IsVariable(t) then EXTEND_MATCH
    else if w == t then EXACT_MATCH
    else if !strict && Begins(w, t) then PARTLY_MATCH
    else NO_MATCH
  }

  function Max(a: nat, b: nat): nat {
    if a < b then b else a
  }

  /** The best match among some tokens. */
  function BestToken(x: Syntax, tokens: seq<string>, w: string, strict: bool): MatchType {
    if tokens == [] then NO_MATCH
    else Max(BestToken(x, tokens[..|tokens| - 1], w, strict), TokenMatch(x, tokens[|tokens| - 1], w, strict))
  }

  /** How candidate `e` matches word `w` at position `k`. */
  function ElementMatch(x: Syntax, e: Element, k: nat, w: string, strict: bool): MatchType {
    if k < |e.strvec| then BestToken(x, e.strvec[k], w, strict) else NO_MATCH
  }

  function SlotMatch(x: Syntax, c: Slot<Element>, k: nat, w: string, strict: bool): MatchType {
    if c.Taken? then ElementMatch(x, c.value, k, w, strict) else NO_MATCH
  }

  /** The best match among the candidates. */
  function BestMatch(x: Syntax, v: Candidates, k: nat, w: string, strict: bool): MatchType {
    if v == [] then NO_MATCH
    else Max(BestMatch(x, v[..|v| - 1], k, w, strict), SlotMatch(x, v[|v| - 1], k, w, strict))
  }

  /** The candidates that match `w`. */
  function Filtered(x: Syntax, v: Candidates, k: nat, w: string, strict: bool): (r: Candidates)
    ensures |r| == |v|
  {
    seq(|v|, i requires 0 <= i < |v| => if SlotMatch(x, v[i], k, w, strict) == NO_MATCH then Free else v[i])
  }

  /** Whether token `t` matches word `w` in the way that prevails. */
  predicate Prevails(x: Syntax, t: string, w: string, m: MatchType) {
    if m == EXACT_MATCH then !IsOption(t) && !IsVariable(t) && w == t
    else if m == PARTLY_MATCH then !IsOption(t) && !IsVariable(t) && Begins(w, t)
    else if m == RANGE_MATCH then x.range(t, w)
    else if m == IPV4_MATCH then IsIpv4(t)
    else if m == IPV4_PREFIX_MATCH then x.prefix(w) != NoAddress
    else m == EXTEND_MATCH && (IsOption(t) || IsVariable(t))
  }

  predicate AnyPrevails(x: Syntax, c: Slot<Element>, k: nat, w: string, m: MatchType) {
    c.Taken? && k < |c.value.strvec| && exists j ::
      0 <= j < |c.value.strvec[k]| && Prevails(x, c.value.strvec[k][j], w, m)
  }

  /** The candidates in which some token matches in the way that prevails. */
  function Narrowed(x: Syntax, v: Candidates, k: nat, w: string, m: MatchType): (r: Candidates)
    ensures |r| == |v|
  {
    seq(|v|, i requires 0 <= i < |v| => if AnyPrevails(x, v[i], k, w, m) then v[i] else Free)
  }

  /** Token `t` stands at position `k` of a candidate. */
  ghost predicate TokenAt(v: Candidates, k: nat, t: string) {
    exists i, j :: 0 <= i < |v| && v[i].Taken? && k < |v[i].value.strvec| && 0 <= j < |v[i].value.strvec[k]| &&
      v[i].value.strvec[k][j] == t
  }

  /** Two different tokens match, so that the word does not tell which is meant. */
  ghost predicate Ambiguous(x: Syntax, v: Candidates, k: nat, w: string, m: MatchType) {
    (m == PARTLY_MATCH || m == RANGE_MATCH)
    && exists t, u :: TokenAt(v, k, t) && TokenAt(v, k, u) && t != u && Prevails(x, t, w, m) && Prevails(x, u, w, m)
  }

  /** The word is only the beginning of an address with a prefix length. */
  ghost predicate Unfinished(x: Syntax, v: Candidates, k: nat, w: string, m: MatchType) {
    m == IPV4_PREFIX_MATCH && x.prefix(w) == PartOfAddress && exists t :: TokenAt(v, k, t)
  }

  lemma {:induction false} BestTokenBounds(x: Syntax, tokens: seq<string>, w: string, strict: bool, j: nat)
    requires j < |tokens|
    ensures TokenMatch(x, tokens[j], w, strict) <= BestToken(x, tokens, w, strict)
    decreases |tokens|
  {
    if j < |tokens| - 1 {
      BestTokenBounds(x, tokens[..|tokens| - 1], w, strict, j);
    }
  }

  lemma {:induction false} BestTokenFound(x: Syntax, tokens: seq<string>, w: string, strict: bool)
    requires BestToken(x, tokens, w, strict) != NO_MATCH
    ensures exists j :: 0 <= j < |tokens| && TokenMatch(x, tokens[j], w, strict) == BestToken(x, tokens, w, strict)
  {
    var init := tokens[..|tokens| - 1];
    if BestToken(x, init, w, strict) == BestToken(x, tokens, w, strict) {
      BestTokenFound(x, init, w, strict);
      var j :| 0 <= j < |init| && TokenMatch(x, init[j], w, strict) == BestToken(x, init, w, strict);
      assert tokens[j] == init[j];
    }
  }

  lemma {:induction false} BestMatchBounds(x: Syntax, v: Candidates, k: nat, w: string, strict: bool, i: nat)
    requires i < |v|
    ensures SlotMatch(x, v[i], k, w, strict) <= BestMatch(x, v, k, w, strict)
    decreases |v|
  {
    if i < |v| - 1 {
      BestMatchBounds(x, v[..|v| - 1], k, w, strict, i);
    }
  }

  lemma {:induction false} BestMatchFound(x: Syntax, v: Candidates, k: nat, w: string, strict: bool)
    requires BestMatch(x, v, k, w, strict) != NO_MATCH
    ensures exists i :: 0 <= i < |v| && SlotMatch(x, v[i], k, w, strict) == BestMatch(x, v, k, w, strict)
  {
    var init := v[..|v| - 1];
    if BestMatch(x, init, k, w, strict) == BestMatch(x, v, k, w, strict) {
      BestMatchFound(x, init, k, w, strict);
      var i :| 0 <= i < |init| && SlotMatch(x, init[i], k, w, strict) == BestMatch(x, init, k, w, strict);
      assert v[i] == init[i];
    }
  }

  /** `cmd_filter_by_completion`, or `cmd_filter_by_string` if `strict`. */
  method FilterBy(x: Syntax, command: string, v: Vector<Element>, index: nat, strict: bool)
    returns (matchType: MatchType)
    requires v.Valid() && v.Clear()
    modifies v.index
    ensures v.Valid() && v.Clear() && v.Slots() == Filtered(x, old(v.Slots()), index, command, strict)
    ensures matchType == BestMatch(x, old(v.Slots()), index, command, strict)
  {
    hide TokenMatch;
    ghost var all := v.index[..v.active];
    matchType := NO_MATCH;
    var i := 0;
    while i < v.active
      invariant i <= v.active == |all| && v.Valid() && v.Clear()
      invariant matchType == BestMatch(x, all[..i], index, command, strict)
      invariant forall n {:trigger v.index[n]} :: 0 <= n < |all| ==>
        v.index[n] == if n < i && SlotMatch(x, all[n], index, command, strict) == NO_MATCH then Free else all[n]
    {
      assert all[..i + 1][..i] == all[..i];
      if v.index[i] != Free {
        var element := v.index[i].value;
        if index >= |element.strvec| {
          v.index[i] := Free;
        } else {
          var m := FilterTokens(x, element.strvec[index], command, strict, matchType);
          if m == NO_MATCH {
            v.index[i] := Free;
          } else if matchType < m {
            matchType := m;
          }
        }
      }
      i := i + 1;
    }
    assert all[..i] == all;
    FilteredIs(x, all, index, command, strict, v.index[..v.active]);
  }

  lemma FilteredIs(x: Syntax, v: Candidates, k: nat, w: string, strict: bool, r: Candidates)
    requires |r| == |v| && forall n {:trigger r[n]} :: 0 <= n < |v| ==>
      r[n] == if SlotMatch(x, v[n], k, w, strict) == NO_MATCH then Free else v[n]
    ensures r == Filtered(x, v, k, w, strict)
  {
    hide SlotMatch;
    forall n | 0 <= n < |v|
      ensures r[n] == Filtered(x, v, k, w, strict)[n]
    {
    }
  }

  /** The loop over the tokens of one candidate; `m` is the best match among them. */
  method FilterTokens(x: Syntax, descvec: seq<string>, command: string, strict: bool, matchType: MatchType)
    returns (m: MatchType)
    ensures m == BestToken(x, descvec, command, strict)
  {
    m := NO_MATCH;
    for j := 0 to |descvec|
      invariant m == BestToken(x, descvec[..j], command, strict)
    {
      assert descvec[..j + 1][..j] == descvec[..j];
      var str := descvec[j];
      var here := NO_MATCH;
      if IsVararg(str) {
        here := VARARG_MATCH;
      } else if IsRange(str) {
        if x.range(str, command) { here := RANGE_MATCH; }
      } else if IsIpv4(str) {
        var a := x.ipv4(command);
        if a == FullAddress || (a == PartOfAddress && !strict) { here := IPV4_MATCH; }
      } else if IsPrefix(str) {
        var a := x.prefix(command);
        if a == FullAddress || (a == PartOfAddress && !strict) { here := IPV4_PREFIX_MATCH; }
      } else if IsOption(str) || IsVariable(str) {
        here := EXTEND_MATCH;
      } else if strict {
        if command == str { here := EXACT_MATCH; }
      } else if command <= str {
        here := if command == str then EXACT_MATCH else PARTLY_MATCH;
      }
      if m < here { m := here; }
    }
    assert descvec[..|descvec|] == descvec;
  }

  /** All tokens among the first `n` candidates that match in the prevailing way are `matched`. */
  ghost predicate OnlyToken(x: Syntax, v: Candidates, k: nat, w: string, m: MatchType, n: nat, matched: Slot<string>) {
    forall i, j {:trigger v[i].value.strvec[k][j]} ::
      0 <= i < n && i < |v| && v[i].Taken? && k < |v[i].value.strvec| && 0 <= j < |v[i].value.strvec[k]| ==>
        (Prevails(x, v[i].value.strvec[k][j], w, m) ==> matched == Taken(v[i].value.strvec[k][j]))
  }

  /** `is_cmd_ambiguous`, for candidates that all have a position `index`. */
  method IsCmdAmbiguous(x: Syntax, command: string, v: Vector<Element>, index: nat, m: MatchType) returns (code: nat)
    requires v.Valid() && v.Clear()
    requires forall i :: 0 <= i < |v.Slots()| && v.Slots()[i].Taken? ==> index < |v.Slots()[i].value.strvec|
    modifies v.index
    ensures v.Valid() && v.Clear() && code <= 2
    ensures code == 1 <==> Ambiguous(x, old(v.Slots()), index, command, m)
    ensures code == 2 <==> Unfinished(x, old(v.Slots()), index, command, m)
    ensures code == 0 ==> v.Slots() == Narrowed(x, old(v.Slots()), index, command, m)
  {
    hide Prevails;
    ghost var all := v.index[..v.active];
    assert forall n {:trigger all[n]} :: 0 <= n < |all| && all[n].Taken? ==> index < |all[n].value.strvec| by {
      assert all == v.Slots();
    }
    var matched := Free;
    var i := 0;
    while i < v.active
      invariant i <= v.active == |all| && v.Valid() && v.Clear()
      invariant matched.Taken? ==> TokenAt(all, index, matched.value) && Prevails(x, matched.value, command, m)
      invariant m == PARTLY_MATCH || m == RANGE_MATCH ==> OnlyToken(x, all, index, command, m, i, matched)
      invariant m == IPV4_PREFIX_MATCH && x.prefix(command) == PartOfAddress ==>
        forall n :: 0 <= n < i && all[n].Taken? ==> all[n].value.strvec[index] == []
      invariant forall n {:trigger v.index[n]} :: 0 <= n < |all| ==>
        v.index[n] == if n < i && !AnyPrevails(x, all[n], index, command, m) then Free else all[n]
    {
      if v.index[i] != Free {
        assert all[i] == v.index[i];
        var descvec := v.index[i].value.strvec[index];
        var match_, result;
        result, match_, matched := TokensAmbiguous(x, command, descvec, m, matched, all, i, index);
        if result != 0 {
          return result;
        }
        if !match_ {
          v.index[i] := Free;
        }
      }
      i := i + 1;
    }
    code := 0;
    NotAmbiguous(x, all, index, command, m, matched);
    NarrowedIs(x, all, index, command, m, v.index[..v.active]);
  }

  lemma NarrowedIs(x: Syntax, v: Candidates, k: nat, w: string, m: MatchType, r: Candidates)
    requires |r| == |v| && forall n {:trigger r[n]} :: 0 <= n < |v| ==>
      r[n] == if AnyPrevails(x, v[n], k, w, m) then v[n] else Free
    ensures r == Narrowed(x, v, k, w, m)
  {
    hide AnyPrevails;
    forall n | 0 <= n < |v|
      ensures r[n] == Narrowed(x, v, k, w, m)[n]
    {
    }
  }

  /** The loop over the tokens of candidate number `i`. */
  method TokensAmbiguous(x: Syntax, command: string, descvec: seq<string>, m: MatchType, matched0: Slot<string>,
                         ghost all: Candidates, ghost i: nat, ghost k: nat)
    returns (code: nat, any: bool, matched: Slot<string>)
    requires i < |all| && all[i].Taken? && k < |all[i].value.strvec| && descvec == all[i].value.strvec[k]
    requires matched0.Taken? ==> TokenAt(all, k, matched0.value) && Prevails(x, matched0.value, command, m)
    requires m == PARTLY_MATCH || m == RANGE_MATCH ==> OnlyToken(x, all, k, command, m, i, matched0)
    ensures code <= 2
    ensures code == 1 ==> Ambiguous(x, all, k, command, m)
    ensures code == 2 ==> Unfinished(x, all, k, command, m)
    ensures code == 0 ==>
      && (any <==> AnyPrevails(x, all[i], k, command, m))
      && (matched.Taken? ==> TokenAt(all, k, matched.value) && Prevails(x, matched.value, command, m))
      && (m == PARTLY_MATCH || m == RANGE_MATCH ==> OnlyToken(x, all, k, command, m, i + 1, matched))
      && (m == IPV4_PREFIX_MATCH && x.prefix(command) == PartOfAddress ==> descvec == [])
  {
    any, matched := false, matched0;
    var j := 0;
    while j < |descvec|
      invariant j <= |descvec|
      invariant any <==> exists n :: 0 <= n < j && Prevails(x, descvec[n], command, m)
      invariant matched.Taken? ==> TokenAt(all, k, matched.value) && Prevails(x, matched.value, command, m)
      invariant matched0.Taken? ==> matched == matched0
      invariant m == PARTLY_MATCH || m == RANGE_MATCH ==>
        forall n :: 0 <= n < j && Prevails(x, descvec[n], command, m) ==> matched == Taken(descvec[n])
      invariant m == IPV4_PREFIX_MATCH && x.prefix(command) == PartOfAddress ==> j == 0
    {
      var str := descvec[j];
      assert TokenAt(all, k, str);
      if m == EXACT_MATCH {
        if !(IsOption(str) || IsVariable(str)) && command == str { any := true; }
      } else if m == PARTLY_MATCH {
        if !(IsOption(str) || IsVariable(str)) && command <= str {
          if matched.Taken? && matched.value != str { return 1, any, matched; }
          matched := Taken(str);
          any := true;
        }
      } else if m == RANGE_MATCH {
        if x.range(str, command) {
          if matched.Taken? && matched.value != str { return 1, any, matched; }
          matched := Taken(str);
          any := true;
        }
      } else if m == IPV4_MATCH {
        if IsIpv4(str) { any := true; }
      } else if m == IPV4_PREFIX_MATCH {
        var ret := x.prefix(command);
        if ret != NoAddress {
          if ret == PartOfAddress { return 2, any, matched; }
          any := true;
        }
      } else if m == EXTEND_MATCH {
        if IsOption(str) || IsVariable(str) { any := true; }
      }
      j := j + 1;
    }
    code := 0;
  }

  lemma NotAmbiguous(x: Syntax, v: Candidates, k: nat, w: string, m: MatchType, matched: Slot<string>)
    requires m == PARTLY_MATCH || m == RANGE_MATCH ==> OnlyToken(x, v, k, w, m, |v|, matched)
    requires m == IPV4_PREFIX_MATCH && x.prefix(w) == PartOfAddress ==>
        forall n :: 0 <= n < |v| && v[n].Taken? && k < |v[n].value.strvec| ==> v[n].value.strvec[k] == []
    ensures !Ambiguous(x, v, k, w, m) && !Unfinished(x, v, k, w, m)
  {
  }

  /** What comes of a line: a command and its arguments, or an error. */
  datatype Outcome =
    | Execute(element: Element, args: seq<string>)
    | AmbiguousCommand
    | NoMatchingCommand
    | IncompleteCommand
    | TooManyArguments

  /** Where narrowing ends: with an error, or with the candidates that are left after `k` words;
      `vararg` says that the rest of the line is free. */
  datatype Narrowing = Stopped(ambiguous: bool) | Ended(left: Candidates, k: nat, vararg: bool)

  ghost function Step(x: Syntax, v: Candidates, k: nat, w: string, strict: bool): Narrowing {
    var m := BestMatch(x, v, k, w, strict);
    var f := Filtered(x, v, k, w, strict);
    if m == VARARG_MATCH then Ended(f, k, true)
    else if Ambiguous(x, f, k, w, m) then Stopped(true)
    else if Unfinished(x, f, k, w, m) then Stopped(false)
    else Ended(Narrowed(x, f, k, w, m), k + 1, false)
  }

  /** Narrowing `v` by the words `ws`, which begin at position `k`. */
  ghost function Narrow(x: Syntax, v: Candidates, k: nat, ws: seq<string>, strict: bool): Narrowing
    decreases |ws|
  {
    if ws == [] then Ended(v, k, false)
    else
      var n := Step(x, v, k, ws[0], strict);
      if n.Ended? && !n.vararg then Narrow(x, n.left, n.k, ws[1..], strict) else n
  }

  /** A candidate is matched if enough of it was given. */
  predicate Complete(c: Slot<Element>, k: nat, vararg: bool) {
    c.Taken? && (vararg || k >= c.value.cmdsize)
  }

  function CompleteOnes(v: Candidates, k: nat, vararg: bool): seq<Element> {
    if v == [] then []
    else CompleteOnes(v[..|v| - 1], k, vararg) + if Complete(v[|v| - 1], k, vararg) then [v[|v| - 1].value] else []
  }

  /** The words from position `i` on that are arguments of `e`. */
  function Arguments(e: Element, ws: seq<string>, i: nat, varflag: bool, argv: seq<string>): Outcome
    requires i <= |ws|
    decreases |ws| - i
  {
    if i == |ws| then Execute(e, argv)
    else
      var one := i < |e.strvec| && |e.strvec[i]| == 1;
      var vf := varflag || (one && IsVararg(e.strvec[i][0]));
      var isArg := vf || !one || IsVariable(e.strvec[i][0]) || IsOption(e.strvec[i][0]);
      var argv1 := if isArg then argv + [ws[i]] else argv;
      if |argv1| >= CMD_ARGC_MAX then TooManyArguments else Arguments(e, ws, i + 1, vf, argv1)
  }

  /** The word at position `i` is an argument of `e`: the position has no single token, or one that is
      a variable or an option, or it stands at or behind one that takes free text. */
  ghost predicate IsArgument(e: Element, i: nat) {
    || i >= |e.strvec| || |e.strvec[i]| != 1 || IsVariable(e.strvec[i][0]) || IsOption(e.strvec[i][0])
    || FreeText(e, i + 1)
  }

  /** One of the first `n` positions takes free text. */
  ghost predicate FreeText(e: Element, n: nat) {
    exists j :: 0 <= j < n && j < |e.strvec| && |e.strvec[j]| == 1 && IsVararg(e.strvec[j][0])
  }

  /** `ps` are the positions of the arguments among the first `n` words, in order. */
  ghost predicate Places(ps: seq<nat>, e: Element, n: nat) {
    && (forall a, b :: 0 <= a < b < |ps| ==> ps[a] < ps[b])
    && (forall a :: 0 <= a < |ps| ==> ps[a] < n && IsArgument(e, ps[a]))
    && (forall i :: 0 <= i < n && IsArgument(e, i) ==> i in ps)
  }

  /** These positions. */
  ghost function PlacesOf(e: Element, n: nat): (ps: seq<nat>)
    ensures forall a :: 0 <= a < |ps| ==> ps[a] < n
  {
    if n == 0 then []
    else PlacesOf(e, n - 1) + if IsArgument(e, n - 1) then [n - 1] else []
  }

  /** The words at the positions `ps`. */
  function Pick(ws: seq<string>, ps: seq<nat>): seq<string>
    requires forall a :: 0 <= a < |ps| ==> ps[a] < |ws|
  {
    seq(|ps|, a requires 0 <= a < |ps| => ws[ps[a]])
  }

  /** The command gets the words at its argument positions, unless there are too many. */
  ghost predicate GivenTo(e: Element, ws: seq<string>, out: Outcome) {
    var ps := PlacesOf(e, |ws|);
    out == if |ps| < CMD_ARGC_MAX then Execute(e, Pick(ws, ps)) else TooManyArguments
  }

  ghost function Resolve(x: Syntax, commands: Candidates, ws: seq<string>, strict: bool): Outcome {
    var n := Narrow(x, commands, 0, ws, strict);
    if n.Stopped? then if n.ambiguous then AmbiguousCommand else NoMatchingCommand
    else
      var es := CompleteOnes(n.left, n.k, n.vararg);
      if es == [] then
        if exists i :: 0 <= i < |n.left| && n.left[i].Taken? then IncompleteCommand else NoMatchingCommand
      else if |es| > 1 then AmbiguousCommand
      else Arguments(es[0], ws, 0, false, [])
  }

  lemma FreeTextMore(e: Element, n: nat)
    ensures FreeText(e, n + 1) <==> FreeText(e, n) || (n < |e.strvec| && |e.strvec[n]| == 1 && IsVararg(e.strvec[n][0]))
  {
  }

  lemma PlacesGrow(e: Element, m: nat, n: nat)
    requires m <= n
    ensures |PlacesOf(e, m)| <= |PlacesOf(e, n)|
  {
    hide IsArgument, Places;
    if m < n { PlacesGrow(e, m, n - 1); }
  }

  lemma {:induction false} PlacesAre(e: Element, n: nat)
    ensures Places(PlacesOf(e, n), e, n)
  {
    hide IsArgument;
    if n == 0 {
      assert PlacesOf(e, 0) == [];
    } else {
      hide Places;
      PlacesAre(e, n - 1);
      PlacesMore(PlacesOf(e, n - 1), e, n - 1);
    }
  }

  lemma PlacesMore(ps: seq<nat>, e: Element, n: nat)
    requires Places(ps, e, n)
    ensures Places(ps + if IsArgument(e, n) then [n] else [], e, n + 1)
  {
    hide IsArgument;
    var all := ps + if IsArgument(e, n) then [n] else [];
    forall i | 0 <= i < n + 1 && IsArgument(e, i)
      ensures i in all
    {
      if i == n {
        assert all[|ps|] == n;
      } else {
        var a :| 0 <= a < |ps| && ps[a] == i;
        assert all[a] == i;
      }
    }
  }

  lemma ArgumentsStep(e: Element, ws: seq<string>, i: nat, argv: seq<string>)
    requires i < |ws|
    ensures var more := argv + if IsArgument(e, i) then [ws[i]] else [];
      Arguments(e, ws, i, FreeText(e, i), argv) ==
      if |more| >= CMD_ARGC_MAX then TooManyArguments else Arguments(e, ws, i + 1, FreeText(e, i + 1), more)
  {
    FreeTextMore(e, i);
    hide IsVararg, IsVariable, IsOption, FreeText;
    assert argv + [] == argv;
  }

  lemma PickMore(e: Element, ws: seq<string>, i: nat)
    requires i < |ws|
    ensures Pick(ws, PlacesOf(e, i + 1)) == Pick(ws, PlacesOf(e, i)) + if IsArgument(e, i) then [ws[i]] else []
  {
    hide IsArgument;
  }

  /** The arguments from word `i` on, behind those among the first `i` words. */
  lemma {:induction false} ArgumentsFrom(e: Element, ws: seq<string>, i: nat, argv: seq<string>)
    requires i <= |ws| && |PlacesOf(e, i)| < CMD_ARGC_MAX && argv == Pick(ws, PlacesOf(e, i))
    ensures GivenTo(e, ws, Arguments(e, ws, i, FreeText(e, i), argv))
    decreases |ws| - i
  {
    if i < |ws| {
      ArgumentsStep(e, ws, i, argv);
      PickMore(e, ws, i);
      PlacesGrow(e, i + 1, |ws|);
      hide PlacesOf, FreeText, IsArgument, Arguments;
      var more := Pick(ws, PlacesOf(e, i + 1));
      if |more| < CMD_ARGC_MAX {
        ArgumentsFrom(e, ws, i + 1, more);
      }
    }
  }

  /** The arguments of a command are the words at its argument positions, in order. */
  lemma ArgumentsAre(e: Element, ws: seq<string>)
    ensures GivenTo(e, ws, Arguments(e, ws, 0, false, []))
  {
    assert Pick(ws, PlacesOf(e, 0)) == [] && !FreeText(e, 0);
    ArgumentsFrom(e, ws, 0, []);
  }

  lemma FilteredLong(x: Syntax, v: Candidates, k: nat, w: string, strict: bool)
    ensures forall i :: 0 <= i < |v| && Filtered(x, v, k, w, strict)[i].Taken? ==>
      k < |Filtered(x, v, k, w, strict)[i].value.strvec|
  {
    hide BestToken;
  }

  lemma CompleteStep(v: Candidates, i: nat, k: nat, vararg: bool)
    requires i < |v|
    ensures CompleteOnes(v[..i + 1], k, vararg) ==
      CompleteOnes(v[..i], k, vararg) + if Complete(v[i], k, vararg) then [v[i].value] else []
  {
    assert v[..i + 1][..i] == v[..i];
  }

  /** `cmd_execute_command_real`, or `cmd_execute_command_strict`, up to the call of the command's
      function. `node` holds the commands of the node. */
  method ExecuteCommand(x: Syntax, node: Vector<Element>, vline: seq<string>, strict: bool) returns (out: Outcome)
    requires node.Valid() && node.Clear()
    ensures out == Resolve(x, node.Slots(), vline, strict)
    ensures out.Execute? ==> Taken(out.element) in node.Slots() && GivenTo(out.element, vline, out)
  {
    hide Filtered, Narrowed, BestMatch, Ambiguous, Unfinished, CompleteOnes, Arguments, GivenTo;
    ExecutedAre(x, node.Slots(), vline, strict);
    var cmdVector := new Vector<Element>.Copy(node);
    ghost var commands := node.Slots();
    var index := 0;
    var vararg := false;
    assert vline[0..] == vline;
    while index < |vline|
      invariant index <= |vline| && fresh(cmdVector) && fresh(cmdVector.index) && cmdVector.Valid() && cmdVector.Clear()
      invariant !vararg && Narrow(x, commands, 0, vline, strict) ==
        Narrow(x, cmdVector.Slots(), index, vline[index..], strict)
    {
      var command := vline[index];
      ghost var v := cmdVector.Slots();
      assert vline[index..][0] == command && vline[index..][1..] == vline[index + 1..];
      var m := FilterBy(x, command, cmdVector, index, strict);
      FilteredLong(x, v, index, command, strict);
      if m == VARARG_MATCH {
        vararg := true;
        assert Narrow(x, commands, 0, vline, strict) == Ended(cmdVector.Slots(), index, true);
        break;
      }
      var ret := IsCmdAmbiguous(x, command, cmdVector, index, m);
      if ret == 1 { return AmbiguousCommand; }
      if ret == 2 { return NoMatchingCommand; }
      index := index + 1;
    }
    ghost var left := cmdVector.Slots();
    assert !vararg ==> vline[index..] == [];
    assert Narrow(x, commands, 0, vline, strict) == Ended(left, index, vararg);
    out := Conclude(cmdVector, index, vararg, vline);
  }

  /** The part after the narrowing: there must be one complete command. */
  method Conclude(v: Vector<Element>, index: nat, vararg: bool, vline: seq<string>) returns (out: Outcome)
    requires v.Valid()
    ensures var es := CompleteOnes(v.Slots(), index, vararg);
      out == if es == [] then
               if exists i :: 0 <= i < |v.Slots()| && v.Slots()[i].Taken? then IncompleteCommand else NoMatchingCommand
             else if |es| > 1 then AmbiguousCommand
             else Arguments(es[0], vline, 0, false, [])
  {
    ghost var left := v.Slots();
    var matchedElement: Slot<Element> := Free;
    var matchedCount, incompleteCount := 0, 0;
    for i := 0 to v.active
      invariant matchedCount == |CompleteOnes(left[..i], index, vararg)|
      invariant matchedCount > 0 ==> matchedElement == Taken(CompleteOnes(left[..i], index, vararg)[matchedCount - 1])
      invariant incompleteCount >= 0 && (matchedCount + incompleteCount > 0 <==>
        exists n :: 0 <= n < i && left[n].Taken?)
    {
      CompleteStep(left, i, index, vararg);
      if v.index[i] != Free {
        assert left[i].Taken?;
        if vararg || index >= v.index[i].value.cmdsize {
          matchedElement := v.index[i];
          matchedCount := matchedCount + 1;
        } else {
          incompleteCount := incompleteCount + 1;
        }
      }
    }
    assert left[..v.active] == left;
    if matchedCount == 0 {
      if incompleteCount > 0 { return IncompleteCommand; }
      return NoMatchingCommand;
    }
    if matchedCount > 1 { return AmbiguousCommand; }
    out := CollectArguments(matchedElement.value, vline);
  }

  /** The argument treatment at the end of both executors. */
  method CollectArguments(element: Element, vline: seq<string>) returns (out: Outcome)
    ensures out == Arguments(element, vline, 0, false, []) && GivenTo(element, vline, out)
  {
    ArgumentsAre(element, vline);
    var varflag, argv := false, [];
    var i := 0;
    while i < |vline|
      invariant i <= |vline| && Arguments(element, vline, i, varflag, argv) == Arguments(element, vline, 0, false, [])
    {
      if varflag {
        argv := argv + [vline[i]];
      } else if i < |element.strvec| && |element.strvec[i]| == 1 {
        var desc := element.strvec[i][0];
        if IsVararg(desc) {
          varflag := true;
        }
        if varflag || IsVariable(desc) || IsOption(desc) {
          argv := argv + [vline[i]];
        }
      } else {
        argv := argv + [vline[i]];
      }
      if |argv| >= CMD_ARGC_MAX { return TooManyArguments; }
      i := i + 1;
    }
    out := Execute(element, argv);
  }

  /** A word as it is typed, and not the name of free text. */
  predicate Plain(w: string) {
    w != "" && !Starts(w, '.')
  }

  /** The keyword that a partly matched word resolves to. */
  ghost function Keyword(x: Syntax, f: Candidates, k: nat, w: string): (t: string)
    ensures (exists u :: TokenAt(f, k, u) && Prevails(x, u, w, PARTLY_MATCH)) ==>
      TokenAt(f, k, t) && Prevails(x, t, w, PARTLY_MATCH)
  {
    if exists u :: TokenAt(f, k, u) && Prevails(x, u, w, PARTLY_MATCH) then
      var t :| TokenAt(f, k, t) && Prevails(x, t, w, PARTLY_MATCH);
      t
    else w
  }

  ghost function ExpandWord(x: Syntax, v: Candidates, k: nat, w: string): string {
    if BestMatch(x, v, k, w, false) == PARTLY_MATCH then Keyword(x, Filtered(x, v, k, w, false), k, w) else w
  }

  /** The line with every partly matched word written out. */
  ghost function Expand(x: Syntax, v: Candidates, k: nat, ws: seq<string>): (r: seq<string>)
    ensures |r| == |ws|
    decreases |ws|
  {
    if ws == [] then []
    else
      var n := Step(x, v, k, ws[0], false);
      [ExpandWord(x, v, k, ws[0])] + if n.Ended? && !n.vararg then Expand(x, n.left, n.k, ws[1..]) else ws[1..]
  }

  /** The candidates after each word. */
  ghost function Trace(x: Syntax, v: Candidates, k: nat, ws: seq<string>, strict: bool): seq<Candidates>
    decreases |ws|
  {
    if ws == [] then []
    else
      var n := Step(x, v, k, ws[0], strict);
      if n.Stopped? then []
      else [n.left] + if n.vararg then [] else Trace(x, n.left, n.k, ws[1..], strict)
  }

  lemma {:induction false} BestTokenAtMost(x: Syntax, tokens: seq<string>, w: string, strict: bool)
    ensures BestToken(x, tokens, w, strict) <= EXACT_MATCH
  {
    if tokens != [] {
      BestTokenAtMost(x, tokens[..|tokens| - 1], w, strict);
    }
  }

  lemma {:induction false} BestMatchAtMost(x: Syntax, v: Candidates, k: nat, w: string, strict: bool)
    ensures BestMatch(x, v, k, w, strict) <= EXACT_MATCH
  {
    if v != [] {
      BestMatchAtMost(x, v[..|v| - 1], k, w, strict);
      var c := v[|v| - 1];
      if c.Taken? && k < |c.value.strvec| {
        BestTokenAtMost(x, c.value.strvec[k], w, strict);
      }
    }
  }

  /** A slot with a token that matches `w` by itself. */
  lemma SlotMatches(x: Syntax, c: Slot<Element>, k: nat, w: string, strict: bool, j: nat)
    requires c.Taken? && k < |c.value.strvec| && j < |c.value.strvec[k]|
    ensures TokenMatch(x, c.value.strvec[k][j], w, strict) <= SlotMatch(x, c, k, w, strict)
  {
    BestTokenBounds(x, c.value.strvec[k], w, strict, j);
  }

  /** A keyword equal to the word makes the best match exact. */
  lemma ExactBest(x: Syntax, v: Candidates, k: nat, w: string, strict: bool, i: nat, j: nat)
    requires i < |v| && v[i].Taken? && k < |v[i].value.strvec| && j < |v[i].value.strvec[k]| &&
      v[i].value.strvec[k][j] == w
    requires TokenMatch(x, w, w, strict) == EXACT_MATCH
    ensures BestMatch(x, v, k, w, strict) == EXACT_MATCH
  {
    SlotMatches(x, v[i], k, w, strict, j);
    BestMatchBounds(x, v, k, w, strict, i);
    BestMatchAtMost(x, v, k, w, strict);
  }

  /** The candidates left when keyword `t` is given whole: those that allow it. */
  lemma ExactLeft(x: Syntax, v: Candidates, k: nat, t: string, strict: bool, i: nat)
    requires i < |v| && !IsOption(t) && !IsVariable(t)
    ensures Narrowed(x, Filtered(x, v, k, t, strict), k, t, EXACT_MATCH)[i] ==
      if v[i].Taken? && k < |v[i].value.strvec| && t in v[i].value.strvec[k] then v[i] else Free
  {
    hide SlotMatch, TokenMatch;
    if v[i].Taken? && k < |v[i].value.strvec| && t in v[i].value.strvec[k] {
      var j :| 0 <= j < |v[i].value.strvec[k]| && v[i].value.strvec[k][j] == t;
      SlotMatches(x, v[i], k, t, strict, j);
      SelfMatch(x, t, strict);
    }
  }

  lemma SelfMatch(x: Syntax, t: string, strict: bool)
    requires !IsOption(t) && !IsVariable(t)
    ensures TokenMatch(x, t, t, strict) == if IsVararg(t) then VARARG_MATCH else EXACT_MATCH
  {
  }

  /** The candidates left when `w` stands for keyword `t` only: the same. */
  lemma PartlyLeft(x: Syntax, v: Candidates, k: nat, w: string, t: string, i: nat)
    requires i < |v| && Plain(w) && Begins(w, t) && !IsOption(t) && !IsVariable(t)
    requires !Ambiguous(x, Filtered(x, v, k, w, false), k, w, PARTLY_MATCH) &&
      TokenAt(Filtered(x, v, k, w, false), k, t)
    ensures Narrowed(x, Filtered(x, v, k, w, false), k, w, PARTLY_MATCH)[i] ==
      if v[i].Taken? && k < |v[i].value.strvec| && t in v[i].value.strvec[k] then v[i] else Free
  {
    hide SlotMatch, TokenMatch;
    var f := Filtered(x, v, k, w, false);
    if v[i].Taken? && k < |v[i].value.strvec| && t in v[i].value.strvec[k] {
      var j :| 0 <= j < |v[i].value.strvec[k]| && v[i].value.strvec[k][j] == t;
      SlotMatches(x, v[i], k, w, false, j);
      BeginMatch(x, w, t);
    } else if AnyPrevails(x, f[i], k, w, PARTLY_MATCH) {
      var j :| 0 <= j < |f[i].value.strvec[k]| && Prevails(x, f[i].value.strvec[k][j], w, PARTLY_MATCH);
      OneToken(x, f, k, w, t, i, j);
      assert false;
    }
  }

  lemma OneToken(x: Syntax, f: Candidates, k: nat, w: string, t: string, i: nat, j: nat)
    requires !Ambiguous(x, f, k, w, PARTLY_MATCH) && TokenAt(f, k, t) && Prevails(x, t, w, PARTLY_MATCH)
    requires i < |f| && f[i].Taken? && k < |f[i].value.strvec| && j < |f[i].value.strvec[k]|
    requires Prevails(x, f[i].value.strvec[k][j], w, PARTLY_MATCH)
    ensures f[i].value.strvec[k][j] == t
  {
    assert TokenAt(f, k, f[i].value.strvec[k][j]);
  }

  lemma BeginMatch(x: Syntax, w: string, t: string)
    requires Plain(w) && Begins(w, t) && !IsOption(t) && !IsVariable(t)
    ensures TokenMatch(x, t, w, false) != NO_MATCH && TokenMatch(x, t, t, false) == EXACT_MATCH && Plain(t)
  {
  }

  lemma PartlyFound(x: Syntax, v: Candidates, k: nat, w: string)
    requires BestMatch(x, v, k, w, false) == PARTLY_MATCH
    ensures exists t :: TokenAt(Filtered(x, v, k, w, false), k, t) && Prevails(x, t, w, PARTLY_MATCH)
  {
    BestMatchFound(x, v, k, w, false);
    var i :| 0 <= i < |v| && SlotMatch(x, v[i], k, w, false) == PARTLY_MATCH;
    var tokens := v[i].value.strvec[k];
    BestTokenFound(x, tokens, w, false);
    var j :| 0 <= j < |tokens| && TokenMatch(x, tokens[j], w, false) == PARTLY_MATCH;
    assert Filtered(x, v, k, w, false)[i] == v[i];
    assert TokenAt(Filtered(x, v, k, w, false), k, tokens[j]);
  }

  /** Writing a word out changes nothing in a step that succeeds. */
  lemma StepExpanded(x: Syntax, v: Candidates, k: nat, w: string)
    requires Plain(w) && Step(x, v, k, w, false).Ended?
    ensures Step(x, v, k, ExpandWord(x, v, k, w), false) == Step(x, v, k, w, false)
  {
    hide BestMatch, Filtered, Narrowed, Ambiguous, Unfinished, TokenMatch, AnyPrevails, TokenAt;
    if BestMatch(x, v, k, w, false) == PARTLY_MATCH {
      PartlyFound(x, v, k, w);
      var t := ExpandWord(x, v, k, w);
      BeginMatch(x, w, t);
      var f, g := Filtered(x, v, k, w, false), Filtered(x, v, k, t, false);
      FoundIn(x, v, k, w, t);
      var i, j :| 0 <= i < |v| && v[i].Taken? && k < |v[i].value.strvec| && 0 <= j < |v[i].value.strvec[k]| &&
        v[i].value.strvec[k][j] == t;
      ExactBest(x, v, k, t, false, i, j);
      var a, b := Narrowed(x, g, k, t, EXACT_MATCH), Narrowed(x, f, k, w, PARTLY_MATCH);
      forall i | 0 <= i < |v|
        ensures a[i] == b[i]
      {
        ExactLeft(x, v, k, t, false, i);
        PartlyLeft(x, v, k, w, t, i);
      }
      assert a == b;
      ExactDecides(x, g, k, t);
    }
  }

  lemma FoundIn(x: Syntax, v: Candidates, k: nat, w: string, t: string)
    requires TokenAt(Filtered(x, v, k, w, false), k, t)
    ensures TokenAt(v, k, t)
    ensures exists i, j ::
      0 <= i < |v| && v[i].Taken? && k < |v[i].value.strvec| && 0 <= j < |v[i].value.strvec[k]|
      && v[i].value.strvec[k][j] == t
  {
    hide SlotMatch;
    var f := Filtered(x, v, k, w, false);
    var i, j :| 0 <= i < |f| && f[i].Taken? && k < |f[i].value.strvec| && 0 <= j < |f[i].value.strvec[k]| &&
      f[i].value.strvec[k][j] == t;
    assert v[i] == f[i];
  }

  lemma ExactDecides(x: Syntax, f: Candidates, k: nat, w: string)
    ensures !Ambiguous(x, f, k, w, EXACT_MATCH) && !Unfinished(x, f, k, w, EXACT_MATCH)
  {
  }

  lemma {:induction false} NarrowExpanded(x: Syntax, v: Candidates, k: nat, ws: seq<string>)
    requires (forall i :: 0 <= i < |ws| ==> Plain(ws[i])) && Narrow(x, v, k, ws, false).Ended?
    ensures Narrow(x, v, k, Expand(x, v, k, ws), false) == Narrow(x, v, k, ws, false)
    ensures Trace(x, v, k, Expand(x, v, k, ws), false) == Trace(x, v, k, ws, false)
    decreases |ws|
  {
    hide Step, ExpandWord;
    if ws != [] {
      StepExpanded(x, v, k, ws[0]);
      var n, e := Step(x, v, k, ws[0], false), Expand(x, v, k, ws);
      assert e[0] == ExpandWord(x, v, k, ws[0]);
      if n.Ended? && !n.vararg {
        assert e[1..] == Expand(x, n.left, n.k, ws[1..]);
        NarrowExpanded(x, n.left, n.k, ws[1..]);
      }
    }
  }

  /** The candidates that are left when word `i` is read, if it is. */
  ghost function Before(x: Syntax, v: Candidates, k: nat, ws: seq<string>, i: nat): Candidates {
    var trace := Trace(x, v, k, ws, false);
    if 0 < i <= |trace| then trace[i - 1] else v
  }

  /** Word `i` is read, and matches candidates only partly; `t` is the keyword it resolves to. */
  ghost predicate ReadPartly(x: Syntax, v: Candidates, k: nat, ws: seq<string>, i: nat, t: string)
    requires i < |ws|
  {
    var u := Before(x, v, k, ws, i);
    && i <= |Trace(x, v, k, ws, false)| && BestMatch(x, u, k + i, ws[i], false) == PARTLY_MATCH
    && Begins(ws[i], t) && TokenAt(u, k + i, t)
  }

  /** Writing out changes partly matched words only. */
  lemma {:induction false} ExpandedWord(x: Syntax, v: Candidates, k: nat, ws: seq<string>, i: nat)
    requires i < |ws| && Expand(x, v, k, ws)[i] != ws[i]
    ensures ReadPartly(x, v, k, ws, i, Expand(x, v, k, ws)[i])
    decreases |ws|
  {
    hide BestMatch, Begins, TokenAt, Step, ExpandWord;
    var n := Step(x, v, k, ws[0], false);
    if i == 0 {
      ExpandedFirst(x, v, k, ws[0]);
    } else {
      assert n.Ended? && !n.vararg;
      StepForward(x, v, k, ws[0]);
      ExpandedWord(x, n.left, n.k, ws[1..], i - 1);
      assert Before(x, v, k, ws, i) == Before(x, n.left, n.k, ws[1..], i - 1);
    }
  }

  lemma StepForward(x: Syntax, v: Candidates, k: nat, w: string)
    ensures var n := Step(x, v, k, w, false); n.Ended? && !n.vararg ==> n.k == k + 1
  {
    hide BestMatch, Filtered, Narrowed, Ambiguous, Unfinished;
  }

  lemma ExpandedFirst(x: Syntax, v: Candidates, k: nat, w: string)
    requires ExpandWord(x, v, k, w) != w
    ensures BestMatch(x, v, k, w, false) == PARTLY_MATCH
    ensures Begins(w, ExpandWord(x, v, k, w)) && TokenAt(v, k, ExpandWord(x, v, k, w))
  {
    hide BestMatch, Filtered, TokenAt;
    PartlyFound(x, v, k, w);
    FoundIn(x, v, k, w, ExpandWord(x, v, k, w));
  }

  /** If a line means a command, writing out its abbreviated words leaves the same candidates after
      every word, the same command, and the same argument positions; only partly matched words
      are changed, to the keywords that they begin. */
  lemma AbbreviationKeepsMeaning(x: Syntax, commands: Candidates, ws: seq<string>)
    requires (forall i :: 0 <= i < |ws| ==> Plain(ws[i])) && Resolve(x, commands, ws, false).Execute?
    ensures var full := Expand(x, commands, 0, ws);
      && Trace(x, commands, 0, full, false) == Trace(x, commands, 0, ws, false)
      && Resolve(x, commands, full, false).Execute?
      && Resolve(x, commands, full, false).element == Resolve(x, commands, ws, false).element
    ensures var e, full := Resolve(x, commands, ws, false).element, Expand(x, commands, 0, ws);
      var ps := PlacesOf(e, |ws|);
      && Resolve(x, commands, ws, false) == Execute(e, Pick(ws, ps))
      && Resolve(x, commands, full, false) == Execute(e, Pick(full, ps))
      && Places(ps, e, |ws|)
    ensures var full := Expand(x, commands, 0, ws);
      forall i :: 0 <= i < |ws| && full[i] != ws[i] ==> ReadPartly(x, commands, 0, ws, i, full[i])
  {
    hide Narrow, Arguments, CompleteOnes, Trace, ReadPartly, Places, PlacesOf;
    NarrowExpanded(x, commands, 0, ws);
    var n, full := Narrow(x, commands, 0, ws, false), Expand(x, commands, 0, ws);
    var es := CompleteOnes(n.left, n.k, n.vararg);
    ArgumentsAre(es[0], ws);
    ArgumentsAre(es[0], full);
    PlacesAre(es[0], |ws|);
    forall i | 0 <= i < |ws| && full[i] != ws[i]
      ensures ReadPartly(x, commands, 0, ws, i, full[i])
    {
      ExpandedWord(x, commands, 0, ws, i);
    }
  }

  /** Every word is a keyword of a candidate that is still left when it is read. */
  ghost predicate AllExact(x: Syntax, v: Candidates, k: nat, ws: seq<string>)
    decreases |ws|
  {
    ws == [] || (BestMatch(x, v, k, ws[0], false) == EXACT_MATCH
                 && AllExact(x, Narrowed(x, Filtered(x, v, k, ws[0], false), k, ws[0], EXACT_MATCH), k + 1, ws[1..]))
  }

  lemma ExactFound(x: Syntax, v: Candidates, k: nat, w: string)
    requires BestMatch(x, v, k, w, false) == EXACT_MATCH
    ensures !IsOption(w) && !IsVariable(w) && BestMatch(x, v, k, w, true) == EXACT_MATCH
  {
    BestMatchFound(x, v, k, w, false);
    var i :| 0 <= i < |v| && SlotMatch(x, v[i], k, w, false) == EXACT_MATCH;
    var tokens := v[i].value.strvec[k];
    BestTokenFound(x, tokens, w, false);
    var j :| 0 <= j < |tokens| && TokenMatch(x, tokens[j], w, false) == EXACT_MATCH;
    ExactBest(x, v, k, w, true, i, j);
  }

  lemma StepExact(x: Syntax, v: Candidates, k: nat, w: string)
    requires BestMatch(x, v, k, w, false) == EXACT_MATCH
    ensures var left := Narrowed(x, Filtered(x, v, k, w, false), k, w, EXACT_MATCH);
      Step(x, v, k, w, true) == Step(x, v, k, w, false) == Ended(left, k + 1, false)
  {
    hide BestMatch, Filtered, Narrowed, Ambiguous, Unfinished, TokenMatch, AnyPrevails, TokenAt;
    ExactFound(x, v, k, w);
    var f, g := Filtered(x, v, k, w, false), Filtered(x, v, k, w, true);
    var a, b := Narrowed(x, f, k, w, EXACT_MATCH), Narrowed(x, g, k, w, EXACT_MATCH);
    forall i | 0 <= i < |v|
      ensures a[i] == b[i]
    {
      ExactLeft(x, v, k, w, false, i);
      ExactLeft(x, v, k, w, true, i);
    }
    assert a == b;
    ExactDecides(x, f, k, w);
    ExactDecides(x, g, k, w);
  }

  lemma {:induction false} NarrowExact(x: Syntax, v: Candidates, k: nat, ws: seq<string>)
    requires AllExact(x, v, k, ws)
    ensures Narrow(x, v, k, ws, true) == Narrow(x, v, k, ws, false)
    decreases |ws|
  {
    hide Step, BestMatch, Narrowed, Filtered;
    if ws != [] {
      StepExact(x, v, k, ws[0]);
      NarrowExact(x, Step(x, v, k, ws[0], false).left, k + 1, ws[1..]);
    }
  }

  /** On lines of exact keywords the strict executor and the abbreviating one agree on the command,
      its arguments, and the error. */
  lemma StrictAgrees(x: Syntax, commands: Candidates, ws: seq<string>)
    requires AllExact(x, commands, 0, ws)
    ensures Resolve(x, commands, ws, true) == Resolve(x, commands, ws, false)
  {
    NarrowExact(x, commands, 0, ws);
  }

  /** Free text stands alone in its position. */
  ghost predicate Grammar(v: Candidates) {
    forall i, k, j {:trigger v[i].value.strvec[k][j]} ::
      0 <= i < |v| && v[i].Taken? && 0 <= k < |v[i].value.strvec| && 0 <= j < |v[i].value.strvec[k]| ==>
        (IsVararg(v[i].value.strvec[k][j]) ==> |v[i].value.strvec[k]| == 1)
  }

  /** `v` are some of the candidates `u`, all of which have at least `k` positions. */
  ghost predicate LeftOf(u: Candidates, v: Candidates, k: nat) {
    |v| == |u| && forall i {:trigger v[i]} :: 0 <= i < |v| && v[i].Taken? ==> v[i] == u[i] && k <= |v[i].value.strvec|
  }

  /** What narrowing leaves has all positions that were read; if it ended with free text, a
      candidate that is left allows that. */
  lemma {:induction false} NarrowLeaves(x: Syntax, u: Candidates, v: Candidates, k: nat, ws: seq<string>, strict: bool)
    requires LeftOf(u, v, k) && Narrow(x, v, k, ws, strict).Ended?
    ensures var n := Narrow(x, v, k, ws, strict);
      && k <= n.k <= k + |ws| && LeftOf(u, n.left, if n.vararg then n.k + 1 else n.k)
      && (!n.vararg ==> n.k == k + |ws|)
      && (n.vararg ==> exists i :: 0 <= i < |n.left| && n.left[i].Taken? && exists j ::
        0 <= j < |n.left[i].value.strvec[n.k]| && IsVararg(n.left[i].value.strvec[n.k][j]))
    decreases |ws|
  {
    hide BestMatch, Ambiguous, Unfinished, SlotMatch;
    if ws != [] {
      var m, f := BestMatch(x, v, k, ws[0], strict), Filtered(x, v, k, ws[0], strict);
      FilteredLong(x, v, k, ws[0], strict);
      if m == VARARG_MATCH {
        VarargLeft(x, v, k, ws[0], strict);
      } else {
        NarrowLeaves(x, u, Narrowed(x, f, k, ws[0], m), k + 1, ws[1..], strict);
      }
    }
  }

  /** What narrowing leaves matches every word that was read. */
  lemma {:induction false} NarrowMatches(x: Syntax, v: Candidates, k: nat, ws: seq<string>, strict: bool)
    requires Narrow(x, v, k, ws, strict).Ended?
    ensures var n := Narrow(x, v, k, ws, strict);
      && |n.left| == |v| && k <= n.k <= k + |ws| && (n.vararg ==> n.k < k + |ws|)
      && forall i :: 0 <= i < |v| && n.left[i].Taken? ==>
           n.left[i] == v[i] && AllMatch(x, v[i], k, ws[..(if n.vararg then n.k + 1 else n.k) - k], strict)
    decreases |ws|
  {
    hide BestMatch, Ambiguous, Unfinished, SlotMatch;
    if ws != [] {
      var m, f := BestMatch(x, v, k, ws[0], strict), Filtered(x, v, k, ws[0], strict);
      if m == VARARG_MATCH {
        assert ws[..1] == [ws[0]];
      } else {
        NarrowMatches(x, Narrowed(x, f, k, ws[0], m), k + 1, ws[1..], strict);
        var n := Narrow(x, v, k, ws, strict);
        var end := (if n.vararg then n.k + 1 else n.k) - k;
        assert ws[..end] == [ws[0]] + ws[1..][..end - 1];
        forall i | 0 <= i < |v| && n.left[i].Taken?
          ensures AllMatch(x, v[i], k, ws[..end], strict)
        {
          forall j | 0 <= j < end
            ensures SlotMatch(x, v[i], k + j, ws[..end][j], strict) != NO_MATCH
          {
            if j > 0 { assert SlotMatch(x, v[i], k + 1 + (j - 1), ws[1..][..end - 1][j - 1], strict) != NO_MATCH; }
          }
        }
      }
    }
  }

  /** Candidate `c` matches each of the words, the first at position `k`. */
  ghost predicate AllMatch(x: Syntax, c: Slot<Element>, k: nat, ws: seq<string>, strict: bool) {
    forall j {:trigger ws[j]} :: 0 <= j < |ws| ==> SlotMatch(x, c, k + j, ws[j], strict) != NO_MATCH
  }

  lemma VarargLeft(x: Syntax, v: Candidates, k: nat, w: string, strict: bool)
    requires BestMatch(x, v, k, w, strict) == VARARG_MATCH
    ensures var f := Filtered(x, v, k, w, strict);
      exists i :: 0 <= i < |f| && f[i].Taken? && k < |f[i].value.strvec| && exists j ::
        0 <= j < |f[i].value.strvec[k]| && IsVararg(f[i].value.strvec[k][j])
  {
    BestMatchFound(x, v, k, w, strict);
    var i :| 0 <= i < |v| && SlotMatch(x, v[i], k, w, strict) == VARARG_MATCH;
    var tokens := v[i].value.strvec[k];
    BestTokenFound(x, tokens, w, strict);
    var j :| 0 <= j < |tokens| && TokenMatch(x, tokens[j], w, strict) == VARARG_MATCH;
    assert Filtered(x, v, k, w, strict)[i] == v[i];
    assert IsVararg(v[i].value.strvec[k][j]);
  }

  lemma {:induction false} CompleteAre(v: Candidates, k: nat, vararg: bool)
    ensures forall e :: e in CompleteOnes(v, k, vararg) ==>
      exists i :: 0 <= i < |v| && v[i] == Taken(e) && Complete(v[i], k, vararg)
    ensures forall i :: 0 <= i < |v| && Complete(v[i], k, vararg) ==> v[i].value in CompleteOnes(v, k, vararg)
  {
    if v != [] {
      var init := v[..|v| - 1];
      CompleteAre(init, k, vararg);
      forall e | e in CompleteOnes(v, k, vararg)
        ensures exists i :: 0 <= i < |v| && v[i] == Taken(e) && Complete(v[i], k, vararg)
      {
        if e in CompleteOnes(init, k, vararg) {
          var i :| 0 <= i < |init| && init[i] == Taken(e) && Complete(init[i], k, vararg);
          assert v[i] == Taken(e);
        } else {
          assert v[|v| - 1] == Taken(e);
        }
      }
      forall i | 0 <= i < |v| && Complete(v[i], k, vararg)
        ensures v[i].value in CompleteOnes(v, k, vararg)
      {
        assert i < |v| - 1 ==> init[i] == v[i];
      }
    }
  }

  /** A line that is executed: the command is installed, the words match it position by position up to
      free text, enough of them are given, and the arguments are the words at its argument positions.
      Only a command with too many of those is refused for it. */
  lemma ExecutedAre(x: Syntax, commands: Candidates, ws: seq<string>, strict: bool)
    ensures var n, out := Narrow(x, commands, 0, ws, strict), Resolve(x, commands, ws, strict);
      out.Execute? ==>
        && n.Ended? && Taken(out.element) in commands && GivenTo(out.element, ws, out)
        && (if n.vararg then n.k < |ws| else out.element.cmdsize <= |ws|)
        && AllMatch(x, Taken(out.element), 0, ws[..if n.vararg then n.k + 1 else |ws|], strict)
    ensures Resolve(x, commands, ws, strict) == TooManyArguments ==>
      exists e :: Taken(e) in commands && |PlacesOf(e, |ws|)| >= CMD_ARGC_MAX
  {
    hide Narrow, Arguments, CompleteOnes, PlacesOf, AllMatch;
    var n := Narrow(x, commands, 0, ws, strict);
    if n.Ended? {
      NarrowMatches(x, commands, 0, ws, strict);
      NarrowEnds(x, commands, 0, ws, strict);
      CompleteAre(n.left, n.k, n.vararg);
      var es := CompleteOnes(n.left, n.k, n.vararg);
      if |es| == 1 {
        assert es[0] in es;
        ArgumentsAre(es[0], ws);
        var i :| 0 <= i < |n.left| && n.left[i] == Taken(es[0]) && Complete(n.left[i], n.k, n.vararg);
        assert commands[i] == Taken(es[0]);
      }
    }
  }

  /** Candidate `i` that is left after narrowing was given in full. */
  ghost predicate GivenInFull(n: Narrowing, i: nat) {
    n.Ended? && i < |n.left| && n.left[i].Taken? && (n.vararg || n.left[i].value.cmdsize <= n.k)
  }

  /** None, just one, or two of the candidates are given in full. */
  ghost predicate NoneInFull(n: Narrowing) {
    forall i {:trigger GivenInFull(n, i)} :: !GivenInFull(n, i)
  }

  ghost predicate OneInFull(n: Narrowing) {
    exists i :: GivenInFull(n, i) && forall j :: GivenInFull(n, j) ==> j == i
  }

  ghost predicate TwoInFull(n: Narrowing) {
    exists i, j :: i < j && GivenInFull(n, i) && GivenInFull(n, j)
  }

  /** Which of the outcomes a line has: nothing left is no match, something left but nothing given in full
      is incomplete, two given in full are ambiguous, and the only one is executed or has too many
      arguments. */
  lemma Decided(x: Syntax, commands: Candidates, ws: seq<string>, strict: bool)
    requires Narrow(x, commands, 0, ws, strict).Ended?
    ensures var n, out := Narrow(x, commands, 0, ws, strict), Resolve(x, commands, ws, strict);
      && (out.NoMatchingCommand? <==> forall i :: 0 <= i < |n.left| ==> n.left[i].Free?)
      && (out.IncompleteCommand? <==> (exists i :: 0 <= i < |n.left| && n.left[i].Taken?) && NoneInFull(n))
      && (out.AmbiguousCommand? <==> TwoInFull(n))
      && (out.Execute? || out.TooManyArguments? <==> OneInFull(n))
  {
    hide Narrow, Arguments, CompleteOnes, OneInFull, TwoInFull, NoneInFull, PlacesOf;
    var n := Narrow(x, commands, 0, ws, strict);
    var es := CompleteOnes(n.left, n.k, n.vararg);
    CompleteCount(n);
    if forall i :: 0 <= i < |n.left| ==> n.left[i].Free? {
      NothingInFull(n);
    }
    if es != [] {
      ArgumentsAre(es[0], ws);
    }
  }

  lemma NothingInFull(n: Narrowing)
    requires n.Ended? && forall i :: 0 <= i < |n.left| ==> n.left[i].Free?
    ensures NoneInFull(n)
  {
  }

  lemma CompleteCount(n: Narrowing)
    requires n.Ended?
    ensures var es := CompleteOnes(n.left, n.k, n.vararg);
      (|es| == 0 <==> NoneInFull(n)) && (|es| == 1 <==> OneInFull(n)) && (|es| > 1 <==> TwoInFull(n))
    decreases |n.left|
  {
    if n.left != [] {
      var last := |n.left| - 1;
      var m := n.(left := n.left[..last]);
      CompleteCount(m);
      var es, fewer := CompleteOnes(n.left, n.k, n.vararg), CompleteOnes(m.left, n.k, n.vararg);
      assert |es| == |fewer| + if Complete(n.left[last], n.k, n.vararg) then 1 else 0;
      hide CompleteOnes;
      InFullMore(n, m, last);
    }
  }

  lemma InFullMore(n: Narrowing, m: Narrowing, last: nat)
    requires n.Ended? && |n.left| == last + 1 && m == n.(left := n.left[..last])
    ensures var more := Complete(n.left[last], n.k, n.vararg);
      && (NoneInFull(n) <==> NoneInFull(m) && !more)
      && (OneInFull(n) <==> if more then NoneInFull(m) else OneInFull(m))
      && (TwoInFull(n) <==> if more then !NoneInFull(m) else TwoInFull(m))
  {
    var more := Complete(n.left[last], n.k, n.vararg);
    forall i: nat
      ensures More(n, m, last, more, i)
    {
      assert i < last ==> m.left[i] == n.left[i];
    }
    hide GivenInFull, NoneInFull, OneInFull, TwoInFull, More;
    NoneMore(n, m, last, more);
    OneMore(n, m, last, more);
    TwoMore(n, m, last, more);
  }

  /** Candidate `i` was given in full among the longer list when it was among the shorter one, or when it
      is the last and was. */
  ghost predicate More(n: Narrowing, m: Narrowing, last: nat, more: bool, i: nat) {
    (GivenInFull(n, i) <==> GivenInFull(m, i) || (i == last && more)) && (GivenInFull(m, i) ==> i < last)
  }

  lemma NoneMore(n: Narrowing, m: Narrowing, last: nat, more: bool)
    requires forall i: nat :: More(n, m, last, more, i)
    ensures NoneInFull(n) <==> NoneInFull(m) && !more
  {
    hide GivenInFull;
    assert More(n, m, last, more, last);
    forall i: nat
      ensures GivenInFull(n, i) <==> GivenInFull(m, i) || (i == last && more)
    {
      assert More(n, m, last, more, i);
    }
  }

  lemma OneMore(n: Narrowing, m: Narrowing, last: nat, more: bool)
    requires forall i: nat :: More(n, m, last, more, i)
    ensures OneInFull(n) <==> if more then NoneInFull(m) else OneInFull(m)
  {
    hide GivenInFull;
    assert More(n, m, last, more, last);
    forall i: nat
      ensures GivenInFull(n, i) <==> GivenInFull(m, i) || (i == last && more)
    {
      assert More(n, m, last, more, i);
    }
    if more && OneInFull(n) {
      forall i: nat
        ensures !GivenInFull(m, i)
      {
        assert More(n, m, last, more, i);
      }
    }
  }

  lemma TwoMore(n: Narrowing, m: Narrowing, last: nat, more: bool)
    requires forall i: nat :: More(n, m, last, more, i)
    ensures TwoInFull(n) <==> if more then !NoneInFull(m) else TwoInFull(m)
  {
    hide GivenInFull;
    assert More(n, m, last, more, last);
    if TwoInFull(n) {
      var i, j :| i < j && GivenInFull(n, i) && GivenInFull(n, j);
      assert More(n, m, last, more, i) && More(n, m, last, more, j);
    }
    if i: nat :| GivenInFull(m, i) && more {
      assert More(n, m, last, more, i) && GivenInFull(n, last);
    }
    if TwoInFull(m) {
      var i, j :| i < j && GivenInFull(m, i) && GivenInFull(m, j);
      assert More(n, m, last, more, i) && More(n, m, last, more, j);
    }
  }

  lemma {:induction false} NarrowEnds(x: Syntax, v: Candidates, k: nat, ws: seq<string>, strict: bool)
    requires Narrow(x, v, k, ws, strict).Ended?
    ensures var n := Narrow(x, v, k, ws, strict); !n.vararg ==> n.k == k + |ws|
    decreases |ws|
  {
    hide BestMatch, Ambiguous, Unfinished, Filtered, Narrowed;
    if ws != [] {
      var n := Step(x, v, k, ws[0], strict);
      if !n.vararg { NarrowEnds(x, n.left, n.k, ws[1..], strict); }
    }
  }

  /** Position `i` is one of the command's, or lies behind one that takes free text. */
  ghost predicate Covered(e: Element, i: nat) {
    i < |e.strvec| || exists j :: 0 <= j < i && j < |e.strvec| && |e.strvec[j]| == 1 && IsVararg(e.strvec[j][0])
  }

  /** The argument treatment only looks at positions that the command has: each word stands at one,
      or behind one that takes free text. */
  lemma ArgumentsInRange(x: Syntax, commands: Candidates, ws: seq<string>, strict: bool)
    requires Grammar(commands) && Narrow(x, commands, 0, ws, strict).Ended?
    ensures var n := Narrow(x, commands, 0, ws, strict);
      var es := CompleteOnes(n.left, n.k, n.vararg);
      |es| == 1 ==> forall i :: 0 <= i < |ws| ==> Covered(es[0], i)
  {
    hide Narrow;
    NarrowLeaves(x, commands, commands, 0, ws, strict);
    var n := Narrow(x, commands, 0, ws, strict);
    var es := CompleteOnes(n.left, n.k, n.vararg);
    CompleteAre(n.left, n.k, n.vararg);
    if |es| == 1 {
      var e := es[0];
      assert e in es;
      var i :| 0 <= i < |n.left| && n.left[i] == Taken(e);
      if n.vararg {
        var h :| 0 <= h < |n.left| && n.left[h].Taken? && exists j ::
          0 <= j < |n.left[h].value.strvec[n.k]| && IsVararg(n.left[h].value.strvec[n.k][j]);
        assert Complete(n.left[h], n.k, true) && n.left[h].value in es && n.left[h].value == e;
        var j :| 0 <= j < |e.strvec[n.k]| && IsVararg(e.strvec[n.k][j]);
        assert commands[h] == n.left[h] && IsVararg(commands[h].value.strvec[n.k][j]);
      }
    }
  }
}
