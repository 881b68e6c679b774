/** The lines that the editor remembers, and how the keys recall them. */
module LineHistory {
  import opened LineEditor
  import opened Terminal

  /** The slot `d` places before slot `i` of the ring. */
  function Back(i: nat, d: nat): (k: nat)
    requires i < MAXHIST && d <= MAXHIST
    ensures k < MAXHIST
  {
    if d <= i then i - d else i + MAXHIST - d
  }

  /** The ring holds the last of the lines that were entered; slots that were never used are free. */
  ghost predicate HistoryIs(s: EditState, lines: seq<seq<char>>) {
    Typable(s) && forall d {:trigger Back(s.hindex, d)} :: 1 <= d <= MAXHIST ==>
      s.hist[Back(s.hindex, d)] == if d <= |lines| then Entry(lines[|lines| - d]) else Nothing
  }

  /** Empty lines are not remembered, and a line equal to the one before it is remembered once. */
  function Recorded(lines: seq<seq<char>>, line: seq<char>): seq<seq<char>> {
    if line == [] || (lines != [] && lines[|lines| - 1] == line) then lines else lines + [line]
  }

  function RecordAll(lines: seq<seq<char>>, more: seq<seq<char>>): seq<seq<char>> {
    if more == [] then lines
    else Recorded(RecordAll(lines, more[..|more| - 1]), more[|more| - 1])
  }

  lemma BackEarlier(i: nat, d: nat)
    requires i < MAXHIST && d < MAXHIST
    ensures Earlier(Back(i, d)) == Back(i, d + 1) && Later(Back(i, d + 1)) == Back(i, d)
    ensures Back(i, 0) == i == Back(i, MAXHIST) && (d > 0 ==> Back(i, d) != i)
    ensures Later(i) < MAXHIST && Back(Later(i), d + 1) == Back(i, d)
  {
  }

  /** Entering a line records it. */
  lemma RememberedIs(s: EditState, lines: seq<seq<char>>)
    requires HistoryIs(s, lines)
    ensures HistoryIs(Remembered(s), Recorded(lines, s.line))
    ensures s.line != [] ==> Remembered(s).hp == Remembered(s).hindex
  {
    var t, all := Remembered(s), Recorded(lines, s.line);
    BackEarlier(s.hindex, 0);
    assert s.hist[Back(s.hindex, 1)] == if lines != [] then Entry(lines[|lines| - 1]) else Nothing;
    if all != lines {
      forall d {:trigger Back(t.hindex, d)} | 1 <= d <= MAXHIST
        ensures t.hist[Back(t.hindex, d)] == if d <= |all| then Entry(all[|all| - d]) else Nothing
      {
        BackEarlier(s.hindex, d - 1);
        if d > 1 {
          assert t.hist[Back(s.hindex, d - 1)] == s.hist[Back(s.hindex, d - 1)];
        }
      }
    }
  }

  lemma {:induction false} AfterMore(s: EditState, a: seq<char>, b: seq<char>)
    requires Typable(s)
    ensures AfterAll(s, a + b) == AfterAll(AfterAll(s, a), b)
    decreases |b|
  {
    hide After;
    if b == [] {
      assert a + b == a;
    } else {
      var n := |b| - 1;
      AfterMore(s, a, b[..n]);
      assert (a + b)[..|a| + n] == a + b[..n] && (a + b)[|a| + n] == b[n];
    }
  }

  lemma AfterOne(s: EditState, c: char)
    requires Typable(s) && c != Control('D')
    ensures AfterAll(s, [c]) == After(s, c)
  {
    hide After;
    assert [c][..0] == [];
  }

  /** A line as it is typed. */
  predicate Text(line: seq<char>) {
    line != [] && forall i :: 0 <= i < |line| ==> ' ' <= line[i] <= '~' && line[i] != '?'
  }

  /** Lines typed one after the other. */
  function Typed(lines: seq<seq<char>>): seq<char> {
    if lines == [] then [] else Typed(lines[..|lines| - 1]) + (lines[|lines| - 1] + ['\n'])
  }

  /** Nothing is typed yet and nothing recalled. */
  predicate Fresh(s: EditState) {
    Typable(s) && s.line == [] && s.cp == 0 && s.hp == s.hindex && s.escape == Normal
  }

  lemma {:induction false} TypeText(s: EditState, text: seq<char>)
    requires Fresh(s) && forall i :: 0 <= i < |text| ==> ' ' <= text[i] <= '~' && text[i] != '?'
    ensures AfterAll(s, text) == s.(line := text, cp := |text|)
    decreases |text|
  {
    if text != [] {
      var n := |text| - 1;
      TypeText(s, text[..n]);
      var t := AfterAll(s, text[..n]);
      assert t == s.(line := text[..n], cp := n);
      TypeKey(t, text[n]);
      assert t.line + [text[n]] == text;
    }
  }

  lemma TypeKey(t: EditState, c: char)
    requires Typable(t) && t.escape == Normal && t.cp == |t.line| && ' ' <= c <= '~'
    ensures After(t, c) == t.(line := t.line + [c], cp := |t.line| + 1) && c != Control('D')
  {
    assert t.line[..t.cp] + [c] + t.line[t.cp..] == t.line + [c];
  }

  lemma EnterLine(s: EditState, lines: seq<seq<char>>, line: seq<char>)
    requires Fresh(s) && HistoryIs(s, lines) && Text(line)
    ensures Fresh(AfterAll(s, line + ['\n'])) && HistoryIs(AfterAll(s, line + ['\n']), Recorded(lines, line))
  {
    TypeText(s, line);
    var t := s.(line := line, cp := |line|);
    AfterMore(s, line, ['\n']);
    AfterOne(t, '\n');
    assert HistoryIs(t, lines);
    RememberedIs(t, lines);
    EnterKey(t);
  }

  lemma EnterKey(t: EditState)
    requires Typable(t) && t.escape == Normal
    ensures After(t, '\n') == Remembered(t).(line := [], cp := 0)
  {
  }

  /** After lines were typed the ring holds the last of those that were recorded. */
  lemma {:induction false} TypedLines(s: EditState, past: seq<seq<char>>, lines: seq<seq<char>>)
    requires Fresh(s) && HistoryIs(s, past) && forall i :: 0 <= i < |lines| ==> Text(lines[i])
    ensures Fresh(AfterAll(s, Typed(lines))) && HistoryIs(AfterAll(s, Typed(lines)), RecordAll(past, lines))
    decreases |lines|
  {
    hide Text, HistoryIs, After;
    if lines != [] {
      var n := |lines| - 1;
      TypedLines(s, past, lines[..n]);
      EnterLine(AfterAll(s, Typed(lines[..n])), RecordAll(past, lines[..n]), lines[n]);
      AfterMore(s, Typed(lines[..n]), lines[n] + ['\n']);
    }
  }

  /** The lines that the keys entered, in order. */
  ghost function Entered(s: EditState, keys: seq<char>): seq<seq<char>>
    requires Typable(s)
  {
    if keys == [] then []
    else
      var n := |keys| - 1;
      var t := AfterAll(s, keys[..n]);
      if Enters(t, keys[n]) then Entered(s, keys[..n]) + [t.line] else Entered(s, keys[..n])
  }

  predicate Enters(s: EditState, c: char) {
    s.escape == Normal && (c == '\n' || c == '\r')
  }

  /** No other key changes what is remembered. */
  lemma OtherKey(s: EditState, c: char)
    requires Typable(s) && !Enters(s, c)
    ensures After(s, c).hist == s.hist && After(s, c).hindex == s.hindex
  {
    hide SkipWord, SkipBlanks, WordStart, BlanksStart;
  }

  lemma EnterAny(t: EditState, c: char)
    requires Typable(t) && Enters(t, c)
    ensures After(t, c) == Remembered(t).(line := [], cp := 0) && c != Control('D')
  {
  }

  /** Over any keys the ring holds the last of the lines that were entered. */
  lemma {:induction false} KeysRecord(s: EditState, lines: seq<seq<char>>, keys: seq<char>)
    requires HistoryIs(s, lines)
    ensures HistoryIs(AfterAll(s, keys), RecordAll(lines, Entered(s, keys)))
    decreases |keys|
  {
    if keys != [] {
      var n := |keys| - 1;
      var t, c := AfterAll(s, keys[..n]), keys[n];
      var all := RecordAll(lines, Entered(s, keys[..n]));
      KeysRecord(s, lines, keys[..n]);
      hide After, HistoryIs, Remembered, RecordAll, Entered;
      if Enters(t, c) {
        EnterAny(t, c);
        RememberedIs(t, all);
        SameHistory(Remembered(t), After(t, c), Recorded(all, t.line));
        RecordOne(s, lines, keys, all);
      } else {
        OtherKey(t, c);
        SameHistory(t, AfterAll(s, keys), all);
        assert Entered(s, keys) == Entered(s, keys[..n]) by { NothingEntered(s, keys); }
      }
    }
  }

  lemma SameHistory(s: EditState, t: EditState, lines: seq<seq<char>>)
    requires HistoryIs(s, lines) && Typable(t) && t.hist == s.hist && t.hindex == s.hindex
    ensures HistoryIs(t, lines)
  {
  }

  lemma NothingEntered(s: EditState, keys: seq<char>)
    requires Typable(s) && keys != [] && !Enters(AfterAll(s, keys[..|keys| - 1]), keys[|keys| - 1])
    ensures Entered(s, keys) == Entered(s, keys[..|keys| - 1])
  {
    hide After, AfterAll, Enters;
  }

  lemma RecordOne(s: EditState, lines: seq<seq<char>>, keys: seq<char>, all: seq<seq<char>>)
    requires Typable(s) && keys != [] && Enters(AfterAll(s, keys[..|keys| - 1]), keys[|keys| - 1])
    requires all == RecordAll(lines, Entered(s, keys[..|keys| - 1]))
    ensures RecordAll(lines, Entered(s, keys)) == Recorded(all, AfterAll(s, keys[..|keys| - 1]).line)
  {
    hide After;
    var more := Entered(s, keys);
    assert more[..|more| - 1] == Entered(s, keys[..|keys| - 1]);
  }

  function Presses(c: char, k: nat): seq<char> {
    seq(k, _ => c)
  }

  /** Line `d` from the end is recalled, with the cursor behind it. */
  ghost predicate At(s: EditState, lines: seq<seq<char>>, d: nat) {
    && HistoryIs(s, lines) && s.escape == Normal && 1 <= d <= MAXHIST && d <= |lines|
    && s.hp == Back(s.hindex, d) && s.line == lines[|lines| - d] && s.cp == |s.line|
  }

  /** How far back `k` presses of the key for the previous line lead: to the oldest line if there are
      free slots, and else round and round. */
  function Depth(k: nat, n: nat): nat {
    if n < MAXHIST then if k < n then k else n else (k - 1) % MAXHIST + 1
  }

  /** How far back `j` presses of the key for the next line leave what was `d` back. */
  function Forth(d: nat, j: nat, n: nat): nat {
    if d == MAXHIST || j == 0 then d else if j < d then d - j else if n < MAXHIST then 1 else MAXHIST
  }

  lemma Previous(s: EditState, lines: seq<seq<char>>, d: nat)
    requires At(s, lines, d) || (d == 0 && Fresh(s) && HistoryIs(s, lines) && lines != [])
    ensures At(After(s, Control('P')), lines, if d == MAXHIST then 1 else if d == |lines| then d else d + 1)
  {
    BackEarlier(s.hindex, if d == MAXHIST then 0 else d);
    BackEarlier(s.hindex, 0);
    assert s.hp == Back(s.hindex, d);
    PreviousKey(s);
  }

  lemma PreviousKey(s: EditState)
    requires Typable(s) && s.escape == Normal
    ensures After(s, Control('P')) == Recalled(s, Earlier(s.hp))
  {
  }

  lemma NextKey(s: EditState)
    requires Typable(s) && s.escape == Normal
    ensures After(s, Control('N')) == if s.hp == s.hindex then s else Recalled(s, Later(s.hp))
  {
  }

  lemma Next(s: EditState, lines: seq<seq<char>>, d: nat)
    requires At(s, lines, d)
    ensures At(After(s, Control('N')), lines, Forth(d, 1, |lines|))
  {
    BackEarlier(s.hindex, d - 1);
    BackEarlier(s.hindex, 0);
    if d < MAXHIST { BackEarlier(s.hindex, d); }
    assert s.hist[Back(s.hindex, MAXHIST)] ==
      if MAXHIST <= |lines| then Entry(lines[|lines| - MAXHIST]) else Nothing;
    NextKey(s);
  }

  lemma OneMorePress(s: EditState, c: char, k: nat)
    requires Typable(s) && c != Control('D')
    ensures AfterAll(s, Presses(c, 0)) == s
    ensures AfterAll(s, Presses(c, k + 1)) == After(AfterAll(s, Presses(c, k)), c)
  {
    hide After;
    assert Presses(c, k + 1)[..k] == Presses(c, k);
  }

  lemma DepthMore(k: nat, n: nat)
    requires k > 0 && n > 0
    ensures Depth(1, n) == 1
    ensures var d := Depth(k, n); Depth(k + 1, n) == if d == MAXHIST then 1 else if d == n then d else d + 1
  {
  }

  /** Any number of presses of the key for the previous line. */
  lemma {:induction false} PreviousLines(s: EditState, lines: seq<seq<char>>, k: nat)
    requires Fresh(s) && HistoryIs(s, lines) && lines != [] && k > 0
    ensures At(AfterAll(s, Presses(Control('P'), k)), lines, Depth(k, |lines|))
  {
    hide After, HistoryIs, AfterAll, Presses, Depth, At;
    OneMorePress(s, Control('P'), k - 1);
    if k == 1 {
      DepthMore(1, |lines|);
      Previous(s, lines, 0);
    } else {
      DepthMore(k - 1, |lines|);
      PreviousLines(s, lines, k - 1);
      Previous(AfterAll(s, Presses(Control('P'), k - 1)), lines, Depth(k - 1, |lines|));
    }
  }

  lemma ForthMore(d: nat, j: nat, n: nat)
    requires 1 <= d <= MAXHIST && d <= n
    ensures Forth(d, 0, n) == d && 1 <= Forth(d, j, n) <= MAXHIST && Forth(d, j, n) <= n
    ensures j > 0 ==> Forth(d, j, n) == Forth(Forth(d, j - 1, n), 1, n)
  {
  }

  /** And then of the key for the next line. */
  lemma {:induction false} NextLines(s: EditState, lines: seq<seq<char>>, d: nat, j: nat)
    requires At(s, lines, d)
    ensures At(AfterAll(s, Presses(Control('N'), j)), lines, Forth(d, j, |lines|))
  {
    assert Typable(s) && 1 <= d <= MAXHIST && d <= |lines|;
    hide After, HistoryIs, AfterAll, Presses, At, Forth;
    ForthMore(d, j, |lines|);
    if j > 0 {
      OneMorePress(s, Control('N'), j - 1);
      NextLines(s, lines, d, j - 1);
      Next(AfterAll(s, Presses(Control('N'), j - 1)), lines, Forth(d, j - 1, |lines|));
    } else {
      OneMorePress(s, Control('N'), 0);
    }
  }

  /** Lines are typed and the key for the previous line is pressed: any number of times, after any past. */
  lemma RecallAfter(s: EditState, past: seq<seq<char>>, lines: seq<seq<char>>, k: nat)
    requires Fresh(s) && HistoryIs(s, past) && forall i :: 0 <= i < |lines| ==> Text(lines[i])
    requires k > 0 && RecordAll(past, lines) != []
    ensures var all := RecordAll(past, lines);
      At(AfterAll(s, Typed(lines) + Presses(Control('P'), k)), all, Depth(k, |all|))
  {
    hide After, HistoryIs, Text, At, RecordAll, Depth;
    TypedLines(s, past, lines);
    AfterMore(s, Typed(lines), Presses(Control('P'), k));
    PreviousLines(AfterAll(s, Typed(lines)), RecordAll(past, lines), k);
  }

  /** The key that stops the input drops the line; what is remembered stays, and the newest line is recalled
      next. */
  lemma Stopped(s: EditState, lines: seq<seq<char>>)
    requires HistoryIs(s, lines) && s.escape == Normal
    ensures var t := After(s, Control('C'));
      && Fresh(t) && HistoryIs(t, lines)
      && (lines != [] ==> At(After(t, Control('P')), lines, 1))
  {
    StopKey(s);
    var t := After(s, Control('C'));
    SameHistory(s, t, lines);
    hide After, HistoryIs;
    if lines != [] { Previous(t, lines, 0); }
  }

  lemma StopKey(s: EditState)
    requires Typable(s) && s.escape == Normal
    ensures After(s, Control('C')) == s.(line := [], cp := 0, hp := s.hindex)
  {
  }

  /** Lines l1 to ln are typed, neighbours different, and the key for the previous line is pressed `k`
      times, no more often than there are lines and slots: the editor shows line `k` from the end,
      with the cursor behind it. */
  lemma RecallTyped(s: EditState, lines: seq<seq<char>>, k: nat)
    requires Fresh(s) && HistoryIs(s, []) && forall i :: 0 <= i < |lines| ==> Text(lines[i])
    requires forall i :: 0 < i < |lines| ==> lines[i] != lines[i - 1]
    requires 1 <= k <= |lines| && k <= MAXHIST
    ensures var up := AfterAll(s, Typed(lines) + Presses(Control('P'), k));
      At(up, lines, k) && up.line == lines[|lines| - k] && up.cp == |up.line|
  {
    hide After, HistoryIs, Text, AfterAll, Typed, Presses, RecordAll;
    AllRecorded(lines);
    RecallAfter(s, [], lines, k);
  }

  /** Then `j` presses of the key for the next line, fewer than `k`, lead `j` lines on; but not when the
      whole ring was gone through, where the key does nothing. */
  lemma RecallForth(s: EditState, lines: seq<seq<char>>, k: nat, j: nat)
    requires Fresh(s) && HistoryIs(s, []) && forall i :: 0 <= i < |lines| ==> Text(lines[i])
    requires forall i :: 0 < i < |lines| ==> lines[i] != lines[i - 1]
    requires 1 <= k <= |lines| && k <= MAXHIST && j < k
    ensures var down := AfterAll(s, Typed(lines) + Presses(Control('P'), k) + Presses(Control('N'), j));
      && down.line == lines[if k < MAXHIST then |lines| - k + j else |lines| - k] && down.cp == |down.line|
  {
    hide After, HistoryIs, Text;
    RecallTyped(s, lines, k);
    var keys := Typed(lines) + Presses(Control('P'), k);
    AfterMore(s, keys, Presses(Control('N'), j));
    hide Typed, Presses, AfterAll;
    NextLines(AfterAll(s, keys), lines, k, j);
  }

  lemma {:induction false} TypedEdits(lines: seq<seq<char>>)
    requires forall i :: 0 <= i < |lines| ==> Text(lines[i])
    ensures forall i :: 0 <= i < |Typed(lines)| ==> Editing(Typed(lines)[i])
    decreases |lines|
  {
    if lines != [] {
      TypedEdits(lines[..|lines| - 1]);
      assert Text(lines[|lines| - 1]);
    }
  }

  lemma NewEditor(e: Editor)
    requires e.Valid() && e.Line() == [] && e.hp == e.hindex == 0 && e.escape == Normal
    requires forall i :: 0 <= i < e.hist.Length ==> e.hist[i] == Nothing
    ensures e.length <= e.buf.Length && Fresh(e.State()) && HistoryIs(e.State(), [])
  {
  }

  /** The same on an editor: the terminal shows the line that is recalled. */
  method TypeAndRecall(size: nat, lines: seq<seq<char>>, k: nat) returns (e: Editor)
    requires size > 0 && forall i :: 0 <= i < |lines| ==> Text(lines[i])
    requires forall i :: 0 < i < |lines| ==> lines[i] != lines[i - 1]
    requires 1 <= k <= |lines| && k <= MAXHIST
    ensures e.Valid() && e.Line() == lines[|lines| - k] && e.cp == |e.Line()| && Agrees(Show(e.out), e.Line(), e.cp)
  {
    e := new Editor(size);
    NewEditor(e);
    ghost var s := e.State();
    RecallTyped(s, lines, k);
    TypedEdits(lines);
    hide HistoryIs, AfterAll, Agrees, Show, Typed;
    e.Keys(Typed(lines) + Presses(Control('P'), k));
  }

  lemma {:induction false} AllRecorded(lines: seq<seq<char>>)
    requires forall i :: 0 <= i < |lines| ==> Text(lines[i])
    requires forall i :: 0 < i < |lines| ==> lines[i] != lines[i - 1]
    ensures RecordAll([], lines) == lines
    decreases |lines|
  {
    if lines != [] {
      var n := |lines| - 1;
      assert Text(lines[n]);
      AllRecorded(lines[..n]);
      assert lines[..n] + [lines[n]] == lines;
    }
  }
}
