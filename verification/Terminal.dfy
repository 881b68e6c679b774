/** A terminal that shows what the line editor echoes. */
module Terminal {
  const BACK: char := '\U{08}'
  const BLANK: char := ' '

  /** One line of a screen, from the end of the prompt on, and the cursor. */
  datatype Screen = Screen(cells: seq<char>, pos: nat)

  /** A character overwrites what is under the cursor and advances it; a backspace steps back. */
  function Put(t: Screen, c: char): (r: Screen)
    ensures t.pos <= |t.cells| ==> r.pos <= |r.cells|
  {
    if c == BACK then t.(pos := if t.pos > 0 then t.pos - 1 else 0)
    else if t.pos < |t.cells| then Screen(t.cells[t.pos := c], t.pos + 1)
    else Screen(t.cells + [c], t.pos + 1)
  }

  /** The screen after the bytes `s` arrived on an empty line. */
  function Show(s: seq<char>): (r: Screen)
    ensures r.pos <= |r.cells|
  {
    if s == [] then Screen([], 0) else Put(Show(s[..|s| - 1]), s[|s| - 1])
  }

  lemma ShowOne(s: seq<char>, c: char)
    ensures Show(s + [c]) == Put(Show(s), c)
  {
    assert (s + [c])[..|s + [c]| - 1] == s;
  }

  predicate Clean(s: seq<char>) {
    BACK !in s
  }

  function Typed(t: Screen, u: seq<char>): Screen
    requires t.pos <= |t.cells|
  {
    Screen(t.cells[..t.pos] + u + (if t.pos + |u| < |t.cells| then t.cells[t.pos + |u|..] else []), t.pos + |u|)
  }

  lemma {:induction false} ShowTyped(s: seq<char>, u: seq<char>)
    requires Clean(u)
    ensures Show(s + u) == Typed(Show(s), u)
  {
    if u == [] {
      assert s + u == s;
      assert Show(s).cells[..Show(s).pos] + Show(s).cells[Show(s).pos..] == Show(s).cells;
    } else {
      var v := u[..|u| - 1];
      var c := u[|u| - 1];
      assert c in u && forall x :: x in v ==> x in u;
      ShowTyped(s, v);
      assert s + u == (s + v) + [c];
      ShowOne(s + v, c);
      TypedOne(Show(s), v, c);
      assert v + [c] == u;
    }
  }

  lemma TypedOne(t: Screen, v: seq<char>, c: char)
    requires t.pos <= |t.cells| && c != BACK
    ensures Put(Typed(t, v), c) == Typed(t, v + [c])
  {
  }

  function Backs(n: nat): (s: seq<char>)
    ensures |s| == n && forall i :: 0 <= i < n ==> s[i] == BACK
  {
    seq(n, _ => BACK)
  }

  function Blanks(n: nat): (s: seq<char>)
    ensures |s| == n && forall i :: 0 <= i < n ==> s[i] == BLANK
  {
    seq(n, _ => BLANK)
  }

  lemma {:induction false} ShowBacks(s: seq<char>, n: nat)
    requires n <= Show(s).pos
    ensures Show(s + Backs(n)) == Show(s).(pos := Show(s).pos - n)
  {
    if n == 0 {
      assert s + Backs(n) == s;
    } else {
      ShowBacks(s, n - 1);
      assert s + Backs(n) == (s + Backs(n - 1)) + [BACK];
      ShowOne(s + Backs(n - 1), BACK);
    }
  }

  /** The screen shows `line`, followed by blanks, with the cursor before character `cp`. */
  ghost predicate Agrees(t: Screen, line: seq<char>, cp: nat) {
    && |line| <= |t.cells| && t.cells[..|line|] == line
    && (forall i {:trigger t.cells[i]} :: |line| <= i < |t.cells| ==> t.cells[i] == BLANK)
    && t.pos == cp && cp <= |line|
  }

  /** Text written at the cursor, with the cursor stepped back afterwards. */
  lemma Overwritten(out: seq<char>, u: seq<char>, n: nat)
    requires Clean(u) && n <= Show(out).pos + |u|
    ensures Show(out + u + Backs(n)) == Typed(Show(out), u).(pos := Show(out).pos + |u| - n)
  {
    ShowTyped(out, u);
    ShowBacks(out + u, n);
  }

  lemma BlanksClean(n: nat)
    ensures Clean(Blanks(n))
  {
  }

  /** Echoing an inserted character. */
  lemma InsertAgrees(out: seq<char>, line: seq<char>, cp: nat, c: char)
    requires Agrees(Show(out), line, cp) && Clean(line) && c != BACK
    ensures var u := [c] + line[cp..];
      Agrees(Show(out + u + Backs(|line| - cp)), line[..cp] + u, cp + 1)
  {
    Overwritten(out, [c] + line[cp..], |line| - cp);
  }

  lemma OverwriteAgrees(out: seq<char>, line: seq<char>, cp: nat, c: char)
    requires Agrees(Show(out), line, cp) && Clean(line) && c != BACK
    ensures Agrees(Show(out + [c]), if cp < |line| then line[cp := c] else line + [c], cp + 1)
  {
    ShowOne(out, c);
  }

  lemma BackAgrees(out: seq<char>, line: seq<char>, cp: nat)
    requires Agrees(Show(out), line, cp) && cp > 0
    ensures Agrees(Show(out + [BACK]), line, cp - 1)
  {
    ShowOne(out, BACK);
  }

  /** Echoing a deletion: the rest of the line moves left and its last cell is blanked. */
  lemma DeletedTyped(t: Screen, line: seq<char>, cp: nat)
    requires Agrees(t, line, cp) && Clean(line) && cp < |line| && t.pos <= |t.cells|
    ensures var u := line[cp + 1..] + [BLANK];
      Clean(u) && Agrees(Typed(t, u).(pos := t.pos + |u| - (|line| - cp)), line[..cp] + line[cp + 1..], cp)
  {
  }

  lemma JoinFour(a: seq<char>, b: seq<char>, c: seq<char>, d: seq<char>)
    ensures a + b + c + d == a + (b + c) + d
  {
  }

  lemma DeleteAgrees(out: seq<char>, line: seq<char>, cp: nat)
    requires Agrees(Show(out), line, cp) && Clean(line) && cp < |line|
    ensures Agrees(Show(out + line[cp + 1..] + [BLANK] + Backs(|line| - cp)), line[..cp] + line[cp + 1..], cp)
  {
    var u := line[cp + 1..] + [BLANK];
    DeletedTyped(Show(out), line, cp);
    hide Agrees, Typed;
    Overwritten(out, u, |line| - cp);
    hide Show, Clean, Backs;
    JoinFour(out, line[cp + 1..], [BLANK], Backs(|line| - cp));
  }

  lemma KillAgrees(out: seq<char>, line: seq<char>, cp: nat)
    requires Agrees(Show(out), line, cp)
    ensures Agrees(Show(out + Blanks(|line| - cp) + Backs(|line| - cp)), line[..cp], cp)
  {
    BlanksClean(|line| - cp);
    Overwritten(out, Blanks(|line| - cp), |line| - cp);
  }

  /** Redrawing on a blank line. */
  lemma RedrawAgrees(out: seq<char>, line: seq<char>)
    requires Agrees(Show(out), [], 0) && Clean(line)
    ensures Agrees(Show(out + line), line, |line|)
  {
    ShowTyped(out, line);
  }
}
