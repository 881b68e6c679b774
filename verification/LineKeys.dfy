/** What the editing keys do, in terms of each other and of typed text. */
module LineKeys {
  import opened LineEditor

  /** Outside escape sequences. */
  predicate Plain(s: EditState) {
    Typable(s) && s.escape == Normal
  }

  /** A key that inserts itself. */
  predicate Inserts(c: char) {
    ' ' <= c <= '~' && Editing(c)
  }

  function Two(s: EditState, a: char, b: char): EditState
    requires Typable(s)
  {
    After(After(s, a), b)
  }

  /** A character that inserts itself goes to the cursor. */
  lemma Inserted(s: EditState, c: char)
    requires Plain(s) && Inserts(c)
    ensures After(s, c).line == s.line[..s.cp] + [c] + s.line[s.cp..]
  {
    hide WordStart, BlanksStart, SkipWord, SkipBlanks;
  }

  /** The keys that move the cursor change nothing else. */
  lemma Moved(s: EditState)
    requires Plain(s)
    ensures After(s, Control('A')) == s.(cp := 0) && After(s, Control('E')) == s.(cp := |s.line|)
    ensures After(s, Control('B')) == if s.cp > 0 then s.(cp := s.cp - 1) else s
    ensures After(s, Control('F')) == if s.cp < |s.line| then s.(cp := s.cp + 1) else s
  {
    hide WordStart, BlanksStart, SkipWord, SkipBlanks;
  }

  /** Where the next character goes after the keys that move the cursor. */
  lemma MovedInsert(s: EditState, c: char)
    requires Plain(s) && Inserts(c)
    ensures Two(s, Control('A'), c).line == [c] + s.line
    ensures Two(s, Control('E'), c).line == s.line + [c]
    ensures s.cp > 0 ==> Two(s, Control('B'), c).line == s.line[..s.cp - 1] + [c] + s.line[s.cp - 1..]
    ensures s.cp < |s.line| ==> Two(s, Control('F'), c).line == s.line[..s.cp + 1] + [c] + s.line[s.cp + 1..]
    ensures s.cp == 0 ==> After(s, Control('B')) == s
    ensures s.cp == |s.line| ==> After(s, Control('F')) == s
  {
    Moved(s);
    hide After, Inserts;
    Inserted(s.(cp := 0), c);
    Inserted(s.(cp := |s.line|), c);
    if s.cp > 0 { Inserted(s.(cp := s.cp - 1), c); }
    if s.cp < |s.line| { Inserted(s.(cp := s.cp + 1), c); }
    assert s.line[..0] + [c] + s.line[0..] == [c] + s.line;
    assert s.line[..|s.line|] + [c] + s.line[|s.line|..] == s.line + [c];
  }

  /** Backspace takes back what was typed, and the delete key what was typed and stepped over. */
  lemma TypedAndDeleted(s: EditState, c: char)
    requires Plain(s) && Inserts(c)
    ensures Two(s, c, Control('H')) == s && Two(s, c, DELETE) == s
    ensures After(Two(s, c, Control('B')), Control('D')) == s
    ensures s.cp == 0 ==> After(s, Control('H')) == s
  {
    var t := After(s, c);
    assert t.line[..t.cp - 1] + t.line[t.cp..] == s.line;
  }

  /** Steps to the right and to the left take each other back. */
  lemma ThereAndBack(s: EditState)
    requires Plain(s)
    ensures s.cp < |s.line| ==> Two(s, Control('F'), Control('B')) == s
    ensures s.cp > 0 ==> Two(s, Control('B'), Control('F')) == s
    ensures Two(s, Control('E'), Control('A')) == After(s, Control('A'))
  {
  }

  /** The keys that kill: to the end, and all. */
  lemma Killed(s: EditState)
    requires Plain(s)
    ensures After(s, Control('K')).line + s.line[s.cp..] == s.line && After(s, Control('K')).cp == s.cp
    ensures After(s, Control('U')).line == [] && Two(s, Control('A'), Control('K')).line == []
    ensures Two(s, Control('E'), Control('K')).line == s.line
  {
  }

  /** From `i` to `m` there is a word and from there to `j` only blanks; no word if there is none. */
  ghost predicate WordAndBlanks(line: seq<char>, i: nat, m: nat, j: nat) {
    && i <= m <= j <= |line| && (i == 0 || line[i - 1] == ' ') && (m == i ==> i == 0)
    && (forall k :: i <= k < m ==> line[k] != ' ') && forall k :: m <= k < j ==> line[k] == ' '
  }

  /** The word behind the cursor, with the blanks up to the cursor: a key kills it, another goes to its
      start. */
  lemma WordBehind(s: EditState)
    requires Plain(s)
    ensures var t, u := After(s, Control('W')), Two(s, ESC, 'b');
      && (exists m {:trigger WordAndBlanks(s.line, t.cp, m, s.cp)} :: WordAndBlanks(s.line, t.cp, m, s.cp))
      && t.cp <= s.cp && t.line == s.line[..t.cp] + s.line[s.cp..]
      && u.cp == t.cp && u.line == s.line
  {
    var m := BlanksStart(s.line, s.cp);
    var i := WordStart(s.line, m);
    assert After(s, Control('W')).cp == i && WordAndBlanks(s.line, i, m, s.cp);
    hide BlanksStart, WordStart;
  }

  /** The word ahead: a key goes behind it and the blanks that follow it, another kills the blanks ahead
      and the word behind them. */
  lemma WordAhead(s: EditState)
    requires Plain(s)
    ensures var t, u := Two(s, ESC, 'f'), Two(s, ESC, 'd');
      && t == s.(cp := t.cp) && s.cp <= t.cp && (t.cp < |s.line| ==> s.line[t.cp] != ' ')
      && (exists m {:trigger Ahead(s.line, s.cp, m, t.cp)} :: Ahead(s.line, s.cp, m, t.cp))
      && u == s.(line := u.line)
      && exists m: nat, j: nat {:trigger BlanksAhead(s.line, s.cp, m, j)} ::
           BlanksAhead(s.line, s.cp, m, j) && u.line == s.line[..s.cp] + s.line[j..]
  {
    EscapeOnly(s);
    var k := SkipWord(s.line, s.cp);
    assert Ahead(s.line, s.cp, k, SkipBlanks(s.line, k));
    var b := SkipBlanks(s.line, s.cp);
    assert BlanksAhead(s.line, s.cp, b, SkipWord(s.line, b));
    hide SkipWord, SkipBlanks;
    MetaWord(s);
  }

  lemma EscapeOnly(s: EditState)
    requires Plain(s)
    ensures After(s, ESC) == s.(escape := PreEscape)
  {
    hide WordStart, BlanksStart, SkipWord, SkipBlanks;
  }

  lemma MetaWord(s: EditState)
    requires Plain(s)
    ensures var t := s.(escape := PreEscape);
      && After(t, 'f') == s.(cp := SkipBlanks(s.line, SkipWord(s.line, s.cp)))
      && After(t, 'd') == s.(line := s.line[..s.cp] + s.line[SkipWord(s.line, SkipBlanks(s.line, s.cp))..])
  {
    hide WordStart, BlanksStart, SkipWord, SkipBlanks;
  }

  /** From `i` to `m` there is the rest of a word, and from there to `j` only blanks. */
  ghost predicate Ahead(line: seq<char>, i: nat, m: nat, j: nat) {
    && i <= m <= j <= |line| && (m < |line| ==> line[m] == ' ')
    && (forall k :: i <= k < m ==> line[k] != ' ') && forall k :: m <= k < j ==> line[k] == ' '
  }

  /** From `i` to `m` there are only blanks, and from there to `j` a word. */
  ghost predicate BlanksAhead(line: seq<char>, i: nat, m: nat, j: nat) {
    && i <= m <= j <= |line| && (m < |line| ==> line[m] != ' ') && (j < |line| ==> line[j] == ' ')
    && (forall k :: i <= k < m ==> line[k] == ' ') && forall k :: m <= k < j ==> line[k] != ' '
  }

  /** The key that exchanges the characters on both sides of the cursor, or the last two at the end of the
      line; then the cursor is behind them. */
  lemma Transposed(s: EditState)
    requires Plain(s)
    ensures |s.line| < 2 || s.cp == 0 ==> After(s, Control('T')) == s
    ensures |s.line| >= 2 && s.cp > 0 ==>
      var t, i := After(s, Control('T')), if s.cp == |s.line| then s.cp - 1 else s.cp;
      && |t.line| == |s.line| && t == s.(line := t.line, cp := i + 1)
      && t.line[i] == s.line[i - 1] && t.line[i - 1] == s.line[i]
      && forall k :: 0 <= k < |s.line| && k != i && k != i - 1 ==> t.line[k] == s.line[k]
  {
    hide WordStart, BlanksStart, SkipWord, SkipBlanks;
  }

  lemma Escape(s: EditState)
    requires Plain(s)
    ensures After(s, ESC) == s.(escape := PreEscape) && Two(s, ESC, '[') == s.(escape := Escaped)
  {
    hide WordStart, BlanksStart, SkipWord, SkipBlanks;
  }

  lemma ArrowKeys(s: EditState)
    requires Plain(s)
    ensures var t := s.(escape := Escaped);
      && After(t, 'A') == After(s, Control('P')) && After(t, 'B') == After(s, Control('N'))
      && After(t, 'C') == After(s, Control('F')) && After(t, 'D') == After(s, Control('B'))
  {
    hide WordStart, BlanksStart, SkipWord, SkipBlanks;
  }

  lemma MetaKill(s: EditState)
    requires Plain(s)
    ensures After(s.(escape := PreEscape), Control('H')) == After(s, Control('W'))
  {
    hide WordStart, BlanksStart, SkipWord, SkipBlanks;
  }

  /** The arrow keys, and the escape form of the key that kills the word behind, are the control keys. */
  lemma Arrows(s: EditState)
    requires Plain(s)
    ensures After(Two(s, ESC, '['), 'A') == After(s, Control('P'))
    ensures After(Two(s, ESC, '['), 'B') == After(s, Control('N'))
    ensures After(Two(s, ESC, '['), 'C') == After(s, Control('F'))
    ensures After(Two(s, ESC, '['), 'D') == After(s, Control('B'))
    ensures Two(s, ESC, Control('H')) == After(s, Control('W'))
  {
    Escape(s);
    ArrowKeys(s);
    MetaKill(s);
    hide After;
  }
}
