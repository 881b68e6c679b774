/** Breaking a command line into words, and joining words into a line. */
module CommandLine {
  import opened Vectors

  predicate IsSpace(c: char) {
    c == ' ' || c == '\t' || c == '\n' || c == '\r' || c == '\U{0b}' || c == '\U{0c}'
  }

  function SkipSpace(s: string, i: nat): (k: nat)
    requires i <= |s|
    ensures i <= k <= |s| && (k < |s| ==> !IsSpace(s[k])) && forall j :: i <= j < k ==> IsSpace(s[j])
    decreases |s| - i
  {
    if i < |s| && IsSpace(s[i]) then SkipSpace(s, i + 1) else i
  }

  function WordEnd(s: string, i: nat): (k: nat)
    requires i <= |s|
    ensures i <= k <= |s| && (k < |s| ==> IsSpace(s[k])) && forall j :: i <= j < k ==> !IsSpace(s[j])
    decreases |s| - i
  {
    if i < |s| && !IsSpace(s[i]) then WordEnd(s, i + 1) else i
  }

  /** The words of `s` from position `i` on, where no space is. */
  function WordsFrom(s: string, i: nat): seq<string>
    requires i < |s| && !IsSpace(s[i])
    decreases |s| - i
  {
    var j := WordEnd(s, i);
    var k := SkipSpace(s, j);
    [s[i..j]] + if k < |s| then WordsFrom(s, k) else []
  }

  /** The words of a line, or nothing if it is blank or a comment. */
  function Tokens(s: string): seq<string> {
    var i := SkipSpace(s, 0);
    if i == |s| || s[i] == '!' || s[i] == '#' then [] else WordsFrom(s, i)
  }

  /** `words`, each followed by a blank, without the last blank. */
  function Joined(words: seq<string>): string {
    if words == [] then "" else if |words| == 1 then words[0] else words[0] + " " + Joined(words[1..])
  }

  function Spaced(words: seq<string>): string {
    if words == [] then "" else Spaced(words[..|words| - 1]) + words[|words| - 1] + " "
  }

  lemma {:induction false} SpacedFirst(words: seq<string>)
    requires words != []
    ensures Spaced(words) == words[0] + " " + Spaced(words[1..])
  {
    if |words| > 1 {
      var init := words[..|words| - 1];
      SpacedFirst(init);
      assert init[0] == words[0] && init[1..] == words[1..][..|words| - 2];
      assert words[1..][|words| - 2] == words[|words| - 1];
    } else {
      assert words[..0] == [] && words[1..] == [];
    }
  }

  lemma {:induction false} SpacedJoined(words: seq<string>)
    requires words != []
    ensures |Spaced(words)| > 0 && Joined(words) == Spaced(words)[..|Spaced(words)| - 1]
  {
    SpacedFirst(words);
    if |words| > 1 {
      SpacedJoined(words[1..]);
    } else {
      assert words[1..] == [];
    }
  }

  /** `argv_concat`. */
  method ArgvConcat(argv: seq<string>, shift: nat) returns (r: Slot<string>)
    ensures r == if shift < |argv| then Taken(Joined(argv[shift..])) else Free
  {
    var len := 0;
    var i := shift;
    while i < |argv|
      invariant i >= shift && (i > shift ==> len > 0 && shift < |argv|) && (i == shift ==> len == 0)
    {
      len := len + |argv[i]| + 1;
      i := i + 1;
    }
    if len == 0 { return Free; }
    var str := "";
    i := shift;
    while i < |argv|
      invariant shift <= i <= |argv| && str == Spaced(argv[shift..i])
    {
      assert argv[shift..i + 1] == argv[shift..i] + [argv[i]];
      str := str + argv[i] + " ";
      i := i + 1;
    }
    assert argv[shift..i] == argv[shift..];
    SpacedJoined(argv[shift..]);
    r := Taken(str[..|str| - 1]);
  }

  /** `cmd_make_strvec`; the result is null for a blank line or a comment. */
  method MakeStrvec(s: string) returns (v: Vector?<string>)
    ensures v == null <==> Tokens(s) == []
    ensures v != null ==> fresh(v) && fresh(v.index) && v.Valid() && v.Clear() && v.Slots() == AllTaken(Tokens(s))
  {
    var cp := 0;
    while cp < |s| && IsSpace(s[cp])
      invariant cp <= |s| && SkipSpace(s, cp) == SkipSpace(s, 0)
    {
      cp := cp + 1;
    }
    if cp == |s| { return null; }
    if s[cp] == '!' || s[cp] == '#' { return null; }
    v := new Vector<string>(1);
    ghost var done: seq<string> := [];
    hide WordsFrom, FirstFree;
    while true
      invariant fresh(v) && fresh(v.index) && v.Valid() && v.Clear() && v.Slots() == AllTaken(done)
      invariant cp < |s| && !IsSpace(s[cp]) && done + WordsFrom(s, cp) == Tokens(s)
      decreases |s| - cp
    {
      var start := cp;
      while cp < |s| && !IsSpace(s[cp])
        invariant start <= cp <= |s| && WordEnd(s, cp) == WordEnd(s, start)
        invariant cp == start ==> !IsSpace(s[start])
      {
        cp := cp + 1;
      }
      NoneFree(AllTaken(done));
      AllTakenMore(done, s[start..cp]);
      var _ := v.Set(s[start..cp]);
      ghost var word := cp;
      while cp < |s| && IsSpace(s[cp])
        invariant word <= cp <= |s| && SkipSpace(s, cp) == SkipSpace(s, word)
      {
        cp := cp + 1;
      }
      WordsStep(s, start, word, cp);
      OneMoreWord(done, s[start..word], if cp < |s| then WordsFrom(s, cp) else []);
      done := done + [s[start..word]];
      if cp == |s| {
        assert done == Tokens(s);
        return;
      }
    }
  }

  function AllTaken(words: seq<string>): (r: seq<Slot<string>>)
    ensures |r| == |words| && forall i :: 0 <= i < |r| ==> r[i] == Taken(words[i])
  {
    seq(|words|, i requires 0 <= i < |words| => Taken(words[i]))
  }

  lemma AllTakenMore(words: seq<string>, w: string)
    ensures AllTaken(words + [w]) == AllTaken(words) + [Taken(w)]
  {
  }

  lemma OneMoreWord(done: seq<string>, w: string, rest: seq<string>)
    ensures (done + [w]) + rest == done + ([w] + rest)
    ensures rest == [] ==> done + [w] == done + ([w] + rest)
  {
  }

  predicate Word(w: string) {
    w != "" && forall i :: 0 <= i < |w| ==> !IsSpace(w[i])
  }

  lemma {:induction false} WordEndIs(s: string, i: nat, k: nat)
    requires i <= k <= |s| && (k < |s| ==> IsSpace(s[k])) && forall j :: i <= j < k ==> !IsSpace(s[j])
    ensures WordEnd(s, i) == k
    decreases k - i
  {
    if i < k {
      WordEndIs(s, i + 1, k);
    }
  }

  predicate AllWords(words: seq<string>) {
    forall i :: 0 <= i < |words| ==> Word(words[i])
  }

  predicate Comment(w: string) {
    w != "" && (w[0] == '!' || w[0] == '#')
  }

  lemma WordInside(pre: string, w: string, rest: string)
    requires Word(w) && (rest != "" ==> IsSpace(rest[0]))
    ensures var s := pre + w + rest;
      && |pre| < |s| && !IsSpace(s[|pre|]) && WordEnd(s, |pre|) == |pre| + |w|
      && s[|pre|..|pre| + |w|] == w && s[|pre|] == w[0]
  {
    var s := pre + w + rest;
    assert forall j :: |pre| <= j < |pre| + |w| ==> s[j] == w[j - |pre|];
    assert rest != "" ==> s[|pre| + |w|] == rest[0];
    WordEndIs(s, |pre|, |pre| + |w|);
  }

  lemma WordsStep(s: string, i: nat, j: nat, k: nat)
    requires i < |s| && !IsSpace(s[i]) && WordEnd(s, i) == j && SkipSpace(s, j) == k
    ensures WordsFrom(s, i) == [s[i..j]] + if k < |s| then WordsFrom(s, k) else []
  {
  }

  lemma BlankStep(s: string, j: nat)
    requires j < |s| && s[j] == ' ' && (j + 1 < |s| ==> !IsSpace(s[j + 1]))
    ensures SkipSpace(s, j) == j + 1
  {
  }

  lemma Associate(a: string, b: string, c: string, d: string)
    ensures (a + b + c) + d == a + b + (c + d) == a + (b + c + d)
  {
  }

  lemma BlankBehind(pre: string, w: string, rest: string)
    requires rest != "" && !IsSpace(rest[0])
    ensures var s := pre + w + (" " + rest);
      var j := |pre| + |w|;
      j + 1 < |s| && s[j] == ' ' && s[j + 1] == rest[0]
  {
  }

  lemma {:induction false} WordsOfJoined(pre: string, words: seq<string>)
    requires words != [] && AllWords(words)
    ensures |pre| < |pre + Joined(words)| && !IsSpace((pre + Joined(words))[|pre|]) &&
      (pre + Joined(words))[|pre|] == words[0][0]
    ensures WordsFrom(pre + Joined(words), |pre|) == words
    decreases |words|
  {
    var w := words[0];
    assert Word(w);
    if |words| > 1 {
      var more := words[1..];
      var pre1, rest := pre + w + " ", Joined(more);
      assert AllWords(more) && Word(more[0]);
      WordsOfJoined(pre1, more);
      assert rest != "" && rest[0] == more[0][0] by { JoinedStart(more); }
      assert !IsSpace(rest[0]) && IsSpace(' ');
      assert Joined(words) == w + " " + rest;
      hide *;
      var s := pre + w + (" " + rest);
      Associate(pre, w, " ", rest);
      WordInside(pre, w, " " + rest);
      BlankBehind(pre, w, rest);
      BlankStep(s, |pre| + |w|);
      WordsStep(s, |pre|, |pre| + |w|, |pre1|);
      assert words == [w] + more;
    } else {
      LastWord(pre, w);
      assert words == [w];
    }
  }

  lemma LastWord(pre: string, w: string)
    requires Word(w)
    ensures |pre| < |pre + Joined([w])| && !IsSpace((pre + Joined([w]))[|pre|]) && (pre + Joined([w]))[|pre|] == w[0]
    ensures WordsFrom(pre + Joined([w]), |pre|) == [w]
  {
    assert pre + Joined([w]) == pre + w + "";
    WordInside(pre, w, "");
  }

  lemma JoinedStart(words: seq<string>)
    requires words != [] && Word(words[0])
    ensures Joined(words) != "" && Joined(words)[0] == words[0][0]
  {
    if |words| > 1 {
      assert Joined(words) == words[0] + (" " + Joined(words[1..]));
    }
  }

  /** Joining words and breaking the line up again gives the words back. */
  lemma JoinThenSplit(words: seq<string>)
    requires words != [] && AllWords(words) && !Comment(words[0])
    ensures Tokens(Joined(words)) == words
  {
    WordsOfJoined("", words);
    assert "" + Joined(words) == Joined(words);
    assert Joined(words)[0] == words[0][0];
  }

  /** A first word that begins a comment is lost with the whole line. */
  lemma CommentLost(words: seq<string>)
    requires words != [] && AllWords(words) && Comment(words[0])
    ensures Tokens(Joined(words)) == []
  {
    WordsOfJoined("", words);
    assert "" + Joined(words) == Joined(words);
    assert Joined(words)[0] == words[0][0];
  }

  /** Every word a line is broken into is one, and breaking up what was joined changes nothing more. */
  lemma {:induction false} WordsAreWords(s: string, i: nat)
    requires i < |s| && !IsSpace(s[i])
    ensures WordsFrom(s, i) != [] && AllWords(WordsFrom(s, i))
    ensures WordsFrom(s, i)[0][0] == s[i]
    decreases |s| - i
  {
    var j := WordEnd(s, i);
    var k := SkipSpace(s, j);
    if k < |s| {
      WordsAreWords(s, k);
    }
  }

  lemma SplitThenJoin(s: string)
    requires Tokens(s) != []
    ensures Tokens(Joined(Tokens(s))) == Tokens(s)
  {
    var i := SkipSpace(s, 0);
    WordsAreWords(s, i);
    JoinThenSplit(Tokens(s));
  }
}
