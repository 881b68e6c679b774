/** The line editor of a terminal session, outside the password prompts. */
module LineEditor {
  import opened Terminal

  const MAXHIST := 20

  datatype Recall = Nothing | Entry(text: seq<char>)

  datatype Escape = Normal | PreEscape | Escaped

  ghost predicate HistoryFits(hist: seq<Recall>, max: nat) {
    forall i {:trigger hist[i]} :: 0 <= i < |hist| && hist[i].Entry? ==> Clean(hist[i].text) && |hist[i].text| < max
  }

  class Editor {
    var buf: array<char>
    var cp: nat
    var length: nat
    const hist: array<Recall>
    var hp: nat
    var hindex: nat
    var escape: Escape
    /** What was sent to the terminal since the prompt. */
    var out: seq<char>

    /** The line being edited. */
    ghost function Line(): (r: seq<char>)
      reads this, buf
      requires length <= buf.Length
      ensures r == buf[..length]
    {
      buf[..length]
    }

    ghost predicate HistoryOk()
      reads this, hist
    {
      hist.Length == MAXHIST && hp < MAXHIST && hindex < MAXHIST && HistoryFits(hist[..], buf.Length)
    }

    ghost predicate LineOk()
      reads this, buf
    {
      cp <= length < buf.Length && Clean(buf[..length])
    }

    /** The line fits the buffer and the terminal shows it. */
    ghost predicate Valid()
      reads this, buf, hist
    {
      LineOk() && HistoryOk() && Agrees(Show(out), buf[..length], cp)
    }

    constructor (size: nat)
      requires size > 0
      ensures Valid() && Line() == [] && hp == hindex == 0 && escape == Normal && fresh(buf) && fresh(hist)
      ensures forall i :: 0 <= i < hist.Length ==> hist[i] == Nothing
    {
      buf := new char[size];
      cp, length := 0, 0;
      hist := new Recall[MAXHIST](_ => Nothing);
      hp, hindex := 0, 0;
      escape := Normal;
      out := [];
    }

    lemma Bounds()
      requires Valid()
      ensures cp <= length < buf.Length
    {
    }

    lemma Parts()
      requires Valid()
      ensures cp <= length < buf.Length && Clean(buf[..length]) && Agrees(Show(out), buf[..length], cp)
      ensures hist.Length == MAXHIST && hp < MAXHIST && hindex < MAXHIST && HistoryFits(hist[..], buf.Length)
    {
    }

    lemma Whole()
      requires cp <= length < buf.Length && Clean(buf[..length]) && Agrees(Show(out), buf[..length], cp)
      requires hist.Length == MAXHIST && hp < MAXHIST && hindex < MAXHIST && HistoryFits(hist[..], buf.Length)
      ensures Valid()
    {
    }

    /** `vty_ensure`. */
    method Ensure(need: nat)
      requires Valid() && need <= buf.Length
      modifies this`buf
      ensures Valid() && need < buf.Length && Line() == old(Line()) && buf.Length >= old(buf.Length)
      ensures buf == old(buf) || fresh(buf)
    {
      if buf.Length <= need {
        var bigger := new char[2 * buf.Length];
        forall i | 0 <= i < buf.Length {
          bigger[i] := buf[i];
        }
        assert bigger[..length] == buf[..length];
        buf := bigger;
      }
    }

    method EchoBacks(n: nat)
      modifies this`out
      ensures out == old(out) + Backs(n)
    {
      for i := 0 to n
        invariant out == old(out) + Backs(i)
      {
        out := out + [BACK];
      }
    }

    method EchoBlanks(n: nat)
      modifies this`out
      ensures out == old(out) + Blanks(n)
    {
      for i := 0 to n
        invariant out == old(out) + Blanks(i)
      {
        out := out + [BLANK];
      }
    }

    /** `vty_self_insert`. */
    method SelfInsert(c: char)
      requires Valid() && c != BACK
      modifies this`buf, this`cp, this`length, this`out, buf
      ensures Valid() && (buf == old(buf) || fresh(buf))
      ensures cp == old(cp) + 1 && Line() == old(Line())[..old(cp)] + [c] + old(Line())[old(cp)..]
    {
      hide *;
      Bounds();
      Ensure(length + 1);
      Parts();
      ghost var line := buf[..length];
      InsertAgrees(out, line, cp, c);
      InsertClean(line, cp, c);
      var rest := length - cp;
      OpenGap(buf, cp, length, c);
      out := out + buf[cp..length + 1];
      EchoBacks(rest);
      cp := cp + 1;
      length := length + 1;
      Whole();
    }

    /** `vty_self_insert_overwrite`. */
    method SelfInsertOverwrite(c: char)
      requires Valid() && c != BACK
      modifies this`buf, this`cp, this`length, this`out, buf
      ensures Valid() && (buf == old(buf) || fresh(buf))
      ensures cp == old(cp) + 1
      ensures Line() == if old(cp) < old(length) then old(Line())[old(cp) := c] else old(Line()) + [c]
    {
      hide *;
      Bounds();
      Ensure(length + 1);
      Parts();
      OverwriteAgrees(out, buf[..length], cp, c);
      OverwriteClean(buf[..length], cp, c);
      Store(buf, cp, length, c);
      cp := cp + 1;
      if cp > length {
        length := length + 1;
      }
      out := out + [c];
      Whole();
    }

    /** `vty_forward_char`. */
    method ForwardChar()
      requires Valid()
      modifies this`cp, this`out
      ensures Valid() && cp == if old(cp) < length then old(cp) + 1 else old(cp)
    {
      if cp < length {
        OverwriteAgrees(out, buf[..length], cp, buf[cp]);
        assert buf[..length][cp := buf[cp]] == buf[..length];
        out := out + [buf[cp]];
        cp := cp + 1;
      }
    }

    /** `vty_backward_char`. */
    method BackwardChar()
      requires Valid()
      modifies this`cp, this`out
      ensures Valid() && cp == if old(cp) > 0 then old(cp) - 1 else 0
    {
      if cp > 0 {
        BackAgrees(out, buf[..length], cp);
        cp := cp - 1;
        out := out + [BACK];
      }
    }

    /** `vty_beginning_of_line`. */
    method BeginningOfLine()
      requires Valid()
      modifies this`cp, this`out
      ensures Valid() && cp == 0
    {
      while cp > 0
        invariant Valid()
        modifies this`cp, this`out
      {
        BackwardChar();
      }
    }

    /** `vty_end_of_line`. */
    method EndOfLine()
      requires Valid()
      modifies this`cp, this`out
      ensures Valid() && cp == length
    {
      while cp < length
        invariant Valid()
        modifies this`cp, this`out
      {
        ForwardChar();
      }
    }

    /** `vty_forward_word`. */
    method ForwardWord()
      requires Valid()
      modifies this`cp, this`out
      ensures Valid() && cp == SkipBlanks(Line(), SkipWord(Line(), old(cp)))
    {
      while cp != length && buf[cp] != ' '
        invariant Valid() && SkipWord(Line(), cp) == SkipWord(Line(), old(cp))
        modifies this`cp, this`out
        decreases length - cp
      {
        ForwardChar();
      }
      ghost var mid := cp;
      while cp != length && buf[cp] == ' '
        invariant Valid() && SkipBlanks(Line(), cp) == SkipBlanks(Line(), mid)
        modifies this`cp, this`out
        decreases length - cp
      {
        ForwardChar();
      }
    }

    /** `vty_backward_word`. */
    method BackwardWord()
      requires Valid()
      modifies this`cp, this`out
      ensures Valid() && cp == WordStart(Line(), BlanksStart(Line(), old(cp)))
    {
      while cp > 0 && buf[cp - 1] == ' '
        invariant Valid() && BlanksStart(Line(), cp) == BlanksStart(Line(), old(cp))
        modifies this`cp, this`out
      {
        BackwardChar();
      }
      ghost var mid := cp;
      while cp > 0 && buf[cp - 1] != ' '
        invariant Valid() && WordStart(Line(), cp) == WordStart(Line(), mid)
        modifies this`cp, this`out
      {
        BackwardChar();
      }
    }

    /** `vty_delete_char`, on a line that is not empty. */
    method DeleteChar()
      requires Valid() && length > 0
      modifies this`length, this`out, buf
      ensures Valid()
      ensures Line() == if cp < old(length) then old(Line())[..cp] + old(Line())[cp + 1..] else old(Line())
    {
      if cp == length { return; }
      hide Agrees, Show;
      ghost var line := buf[..length];
      DeleteAgrees(out, line, cp);
      DeleteClean(line, cp, cp + 1);
      var size := length - cp;
      length := length - 1;
      CloseGap(buf, cp, length);
      out := out + buf[cp..length];
      out := out + [BLANK];
      EchoBacks(size);
    }

    /** `vty_delete_backward_char`. */
    method DeleteBackwardChar()
      requires Valid()
      modifies this`cp, this`length, this`out, buf
      ensures Valid() && cp == if old(cp) > 0 then old(cp) - 1 else 0
      ensures Line() == if old(cp) > 0 then old(Line())[..old(cp) - 1] + old(Line())[old(cp)..] else old(Line())
    {
      if cp == 0 { return; }
      BackwardChar();
      DeleteChar();
    }

    /** `vty_kill_line`. */
    method KillLine()
      requires Valid()
      modifies this`length, this`out, buf
      ensures Valid() && Line() == old(Line())[..cp]
    {
      var size := length - cp;
      if size == 0 { return; }
      KillAgrees(out, buf[..length], cp);
      assert buf[..cp] == buf[..length][..cp];
      EchoBlanks(size);
      EchoBacks(size);
      forall i | cp <= i < length {
        buf[i] := '\0';
      }
      length := cp;
    }

    /** `vty_kill_line_from_beginning`. */
    method KillLineFromBeginning()
      requires Valid()
      modifies this`cp, this`length, this`out, buf
      ensures Valid() && cp == 0 && Line() == []
    {
      BeginningOfLine();
      KillLine();
    }

    /** Deletes one character ahead in a loop that has deleted those of `line` from `cp` to `k`. */
    method DeleteAhead(ghost line: seq<char>, ghost k: nat)
      requires Valid() && cp < length && Cut(buf[..length], line, cp, k)
      modifies this`length, this`out, buf
      ensures Valid() && cp <= length < buf.Length && Cut(buf[..length], line, cp, k + 1)
    {
      hide *;
      Bounds();
      CutOne(buf[..length], line, cp, k);
      DeleteChar();
      Bounds();
    }

    /** The first loop of `vty_forward_kill_word`. */
    method KillBlanksAhead()
      requires Valid()
      modifies this`length, this`out, buf
      ensures Valid() && Cut(Line(), old(Line()), cp, SkipBlanks(old(Line()), cp))
    {
      hide *;
      Bounds();
      ghost var line, k := buf[..length], cp;
      CutStart(line, cp);
      CutEnd(line, line, cp, k);
      while cp != length && buf[cp] == ' '
        invariant Valid() && cp <= length < buf.Length && k <= |line| && Cut(buf[..length], line, cp, k)
        invariant cp < length <==> k < |line|
        invariant cp < length ==> buf[cp] == line[k]
        invariant SkipBlanks(line, k) == SkipBlanks(line, cp)
        modifies this`length, this`out, buf
        decreases |line| - k
      {
        SkipAt(line, k);
        DeleteAhead(line, k);
        k := k + 1;
        CutEnd(buf[..length], line, cp, k);
      }
      SkipAt(line, k);
    }

    /** The second loop of `vty_forward_kill_word`. */
    method KillWordAhead()
      requires Valid()
      modifies this`length, this`out, buf
      ensures Valid() && Cut(Line(), old(Line()), cp, SkipWord(old(Line()), cp))
    {
      hide *;
      Bounds();
      ghost var line, k := buf[..length], cp;
      CutStart(line, cp);
      CutEnd(line, line, cp, k);
      while cp != length && buf[cp] != ' '
        invariant Valid() && cp <= length < buf.Length && k <= |line| && Cut(buf[..length], line, cp, k)
        invariant cp < length <==> k < |line|
        invariant cp < length ==> buf[cp] == line[k]
        invariant SkipWord(line, k) == SkipWord(line, cp)
        modifies this`length, this`out, buf
        decreases |line| - k
      {
        SkipAt(line, k);
        DeleteAhead(line, k);
        k := k + 1;
        CutEnd(buf[..length], line, cp, k);
      }
      SkipAt(line, k);
    }

    /** `vty_forward_kill_word`. */
    method ForwardKillWord()
      requires Valid()
      modifies this`length, this`out, buf
      ensures Valid()
      ensures Line() == old(Line())[..cp] + old(Line())[SkipWord(old(Line()), SkipBlanks(old(Line()), cp))..]
    {
      hide *;
      Bounds();
      ghost var line := buf[..length];
      KillBlanksAhead();
      Bounds();
      ghost var now := buf[..length];
      KillWordAhead();
      Bounds();
      KilledAhead(buf[..length], now, line, cp);
    }

    /** Deletes one character behind in a loop that has deleted those of `line` from `cp` to `end`. */
    method DeleteBehind(ghost line: seq<char>, ghost end: nat)
      requires Valid() && cp > 0 && Cut(buf[..length], line, cp, end)
      modifies this`cp, this`length, this`out, buf
      ensures Valid() && cp == old(cp) - 1 && cp <= length < buf.Length && Cut(buf[..length], line, cp, end)
    {
      hide *;
      Bounds();
      CutBack(buf[..length], line, cp, end);
      DeleteBackwardChar();
      Bounds();
    }

    /** The first loop of `vty_backward_kill_word`. */
    method KillBlanksBehind()
      requires Valid()
      modifies this`cp, this`length, this`out, buf
      ensures Valid() && cp == BlanksStart(old(Line()), old(cp)) && Cut(Line(), old(Line()), cp, old(cp))
    {
      hide *;
      Bounds();
      ghost var line, end := buf[..length], cp;
      CutStart(line, cp);
      CutPrefix(line, line, cp, end);
      while cp > 0 && buf[cp - 1] == ' '
        invariant Valid() && cp <= length < buf.Length && cp <= end && Cut(buf[..length], line, cp, end)
        invariant cp <= |line| && (cp > 0 ==> buf[cp - 1] == line[cp - 1])
        invariant BlanksStart(line, cp) == BlanksStart(line, end)
        modifies this`cp, this`length, this`out, buf
      {
        StartAt(line, cp);
        DeleteBehind(line, end);
        CutPrefix(buf[..length], line, cp, end);
      }
      StartAt(line, cp);
    }

    /** The second loop of `vty_backward_kill_word`. */
    method KillWordBehind()
      requires Valid()
      modifies this`cp, this`length, this`out, buf
      ensures Valid() && cp == WordStart(old(Line()), old(cp)) && Cut(Line(), old(Line()), cp, old(cp))
    {
      hide *;
      Bounds();
      ghost var line, end := buf[..length], cp;
      CutStart(line, cp);
      CutPrefix(line, line, cp, end);
      while cp > 0 && buf[cp - 1] != ' '
        invariant Valid() && cp <= length < buf.Length && cp <= end && Cut(buf[..length], line, cp, end)
        invariant cp <= |line| && (cp > 0 ==> buf[cp - 1] == line[cp - 1])
        invariant WordStart(line, cp) == WordStart(line, end)
        modifies this`cp, this`length, this`out, buf
      {
        StartAt(line, cp);
        DeleteBehind(line, end);
        CutPrefix(buf[..length], line, cp, end);
      }
      StartAt(line, cp);
    }

    /** `vty_backward_kill_word`. */
    method BackwardKillWord()
      requires Valid()
      modifies this`cp, this`length, this`out, buf
      ensures Valid() && cp == WordStart(old(Line()), BlanksStart(old(Line()), old(cp)))
      ensures Line() == old(Line())[..cp] + old(Line())[old(cp)..]
    {
      hide *;
      Bounds();
      ghost var line, end := buf[..length], cp;
      KillBlanksBehind();
      Bounds();
      ghost var now, mid := buf[..length], cp;
      KillWordBehind();
      Bounds();
      KilledBehind(buf[..length], now, line, cp, mid, end);
    }

    lemma TypedClean()
      requires Valid()
      ensures forall i :: 0 <= i < length < buf.Length ==> buf[i] != BACK
    {
      forall i | 0 <= i < length
        ensures buf[i] != BACK
      {
        assert buf[i] in buf[..length];
      }
    }

    /** `vty_transpose_chars`. */
    method TransposeChars()
      requires Valid()
      modifies this`buf, this`cp, this`length, this`out, buf
      ensures Valid() && (buf == old(buf) || fresh(buf))
      ensures if old(length) < 2 || old(cp) < 1 then Line() == old(Line()) && cp == old(cp)
        else var i := if old(cp) == old(length) then old(cp) - 1 else old(cp);
          Line() == old(Line())[i := old(Line())[i - 1]][i - 1 := old(Line())[i]] && cp == i + 1
    {
      hide *;
      Bounds();
      TypedClean();
      if length < 2 || cp < 1 { return; }
      ghost var line := buf[..length];
      if cp == length {
        var c1 := buf[cp - 1];
        var c2 := buf[cp - 2];
        assert c1 == line[cp - 1] && c2 == line[cp - 2];
        BackwardChar();
        Bounds();
        BackwardChar();
        Bounds();
        SelfInsertOverwrite(c1);
        Bounds();
        SelfInsertOverwrite(c2);
        Bounds();
      } else {
        var c1 := buf[cp];
        var c2 := buf[cp - 1];
        assert c1 == line[cp] && c2 == line[cp - 1];
        BackwardChar();
        Bounds();
        SelfInsertOverwrite(c1);
        Bounds();
        SelfInsertOverwrite(c2);
        Bounds();
      }
    }

    /** `vty_redraw_line`, on a terminal whose line is blank. */
    method RedrawLine()
      requires LineOk() && HistoryOk() && Agrees(Show(out), [], 0)
      modifies this`cp, this`out
      ensures Valid() && cp == length
    {
      RedrawAgrees(out, buf[..length]);
      out := out + buf[..length];
      cp := length;
    }

    /** `vty_history_print`. */
    method HistoryPrint()
      requires Valid() && hist[hp].Entry?
      modifies this`cp, this`length, this`out, buf
      ensures Valid() && Line() == hist[hp].text && cp == length
    {
      KillLineFromBeginning();
      assert buf[..length] == [];
      var text := hist[hp].text;
      forall i | 0 <= i < |text| {
        buf[i] := text[i];
      }
      length := |text|;
      cp := length;
      assert buf[..length] == text;
      RedrawLine();
    }

    /** `vty_next_line`. */
    method NextLine()
      requires Valid()
      modifies this`cp, this`length, this`out, this`hp, buf
      ensures Valid()
      ensures if old(hp) == hindex || old(hist[Later(hp)]) == Nothing
        then hp == old(hp) && Line() == old(Line()) && cp == old(cp)
        else hp == Later(old(hp)) && hist[hp].Entry? && Line() == hist[hp].text && cp == length
    {
      if hp == hindex { return; }
      var tryIndex := hp;
      if tryIndex == MAXHIST - 1 {
        tryIndex := 0;
      } else {
        tryIndex := tryIndex + 1;
      }
      if hist[tryIndex] == Nothing { return; }
      hp := tryIndex;
      HistoryPrint();
    }

    /** `vty_previous_line`. */
    method PreviousLine()
      requires Valid()
      modifies this`cp, this`length, this`out, this`hp, buf
      ensures Valid()
      ensures if old(hist[Earlier(hp)]) == Nothing
        then hp == old(hp) && Line() == old(Line()) && cp == old(cp)
        else hp == Earlier(old(hp)) && hist[hp].Entry? && Line() == hist[hp].text && cp == length
    {
      var tryIndex := hp;
      if tryIndex == 0 {
        tryIndex := MAXHIST - 1;
      } else {
        tryIndex := tryIndex - 1;
      }
      if hist[tryIndex] == Nothing { return; }
      hp := tryIndex;
      HistoryPrint();
    }

    /** `vty_hist_add`. */
    method HistAdd()
      requires Valid()
      modifies this`hp, this`hindex, hist
      ensures Valid()
      ensures length == 0 ==> hp == old(hp) && hindex == old(hindex) && hist[..] == old(hist[..])
      ensures length > 0 ==> hp == hindex && hist[Earlier(hindex)] == Entry(Line())
      ensures Typable(old(State())) && State() == Remembered(old(State()))
    {
      if length == 0 { return; }
      var index := if hindex > 0 then hindex - 1 else MAXHIST - 1;
      if hist[index].Entry? {
        if buf[..length] == hist[index].text {
          hp := hindex;
          return;
        }
      }
      hist[hindex] := Entry(buf[..length]);
      hindex := hindex + 1;
      if hindex == MAXHIST {
        hindex := 0;
      }
      hp := hindex;
    }

    /** The return key: the line goes to the interpreter and a new one is begun. */
    method Enter() returns (line: seq<char>)
      requires Valid()
      modifies this`cp, this`length, this`out, this`hp, this`hindex, hist
      ensures Valid() && line == old(Line()) && Line() == [] && cp == 0
      ensures line != [] ==> hp == hindex && hist[Earlier(hindex)] == Entry(line)
      ensures Typable(old(State())) && State() == Remembered(old(State())).(line := [], cp := 0)
    {
      line := buf[..length];
      HistAdd();
      cp, length := 0, 0;
      out := [];
      assert buf[..length] == [];
    }

    /** `vty_stop_input`. */
    method StopInput()
      requires Valid()
      modifies this`cp, this`length, this`out, this`hp
      ensures Valid() && Line() == [] && cp == 0 && hp == hindex
    {
      cp, length := 0, 0;
      out := [];
      hp := hindex;
      assert buf[..length] == [];
    }

    /** A line that was entered comes back with the key for the previous line. */
    method EnterAndRecall() returns (line: seq<char>)
      requires Valid() && length > 0
      modifies this`cp, this`length, this`out, this`hp, this`hindex, hist, buf
      ensures Valid() && line == old(Line()) && Line() == old(Line()) && cp == length
    {
      line := Enter();
      PreviousLine();
    }

    /** `vty_escape_map`. */
    method EscapeMap(c: char)
      requires Valid() && escape == Escaped
      modifies this`cp, this`length, this`out, this`hp, this`escape, buf
      ensures Valid() && Typable(old(State())) && State() == After(old(State()), c)
    {
      hide Agrees, Show, Clean;
      if c == 'A' {
        PreviousLine();
      } else if c == 'B' {
        NextLine();
      } else if c == 'C' {
        ForwardChar();
      } else if c == 'D' {
        BackwardChar();
      }
      escape := Normal;
    }

    /** A key after the escape key. */
    method MetaKey(c: char)
      requires Valid() && escape == PreEscape
      modifies this`cp, this`length, this`out, this`escape, buf
      ensures Valid() && Typable(old(State())) && State() == After(old(State()), c)
    {
      hide Agrees, Show, Clean, SkipWord, SkipBlanks, WordStart, BlanksStart;
      escape := Normal;
      if c == '[' {
        escape := Escaped;
      } else if c == 'b' {
        BackwardWord();
      } else if c == 'f' {
        ForwardWord();
      } else if c == 'd' {
        ForwardKillWord();
      } else if c == Control('H') || c == DELETE {
        BackwardKillWord();
      }
    }

    /** The keys that only move the cursor or recall lines. */
    method MoveKey(c: char)
      requires Valid() && escape == Normal && Moves(c)
      modifies this`cp, this`length, this`out, this`hp, buf
      ensures Valid() && Typable(old(State())) && State() == After(old(State()), c)
    {
      hide Agrees, Show, Clean;
      if c == Control('A') {
        BeginningOfLine();
      } else if c == Control('B') {
        BackwardChar();
      } else if c == Control('E') {
        EndOfLine();
      } else if c == Control('F') {
        ForwardChar();
      } else if c == Control('N') {
        NextLine();
      } else if c == Control('P') {
        PreviousLine();
      }
    }

    /** The keys that take something off the line. */
    method DeletionKey(c: char)
      requires Valid() && escape == Normal && Deletes(c) && (c == Control('D') ==> length > 0)
      modifies this`cp, this`length, this`out, buf
      ensures Valid() && Typable(old(State())) && State() == After(old(State()), c)
    {
      hide Agrees, Show, Clean, WordStart, BlanksStart;
      if c == Control('D') {
        DeleteChar();
      } else if c == Control('H') || c == DELETE {
        DeleteBackwardChar();
      } else if c == Control('K') {
        KillLine();
      } else if c == Control('U') {
        KillLineFromBeginning();
      } else if c == Control('W') {
        BackwardKillWord();
      }
    }

    /** The other keys. */
    method PlainKey(c: char)
      requires Valid() && escape == Normal && Editing(c) && !Moves(c) && !Deletes(c)
      modifies this, buf, hist
      ensures Valid() && (buf == old(buf) || fresh(buf))
      ensures Typable(old(State())) && State() == After(old(State()), c)
    {
      hide Agrees, Show, Clean;
      if c == Control('C') {
        StopInput();
      } else if c == Control('T') {
        TransposeChars();
      } else if c == '\n' || c == '\r' {
        var _ := Enter();
      } else if c == ESC {
        escape := PreEscape;
      } else if c as int > 31 && (c as int) < 127 {
        SelfInsert(c);
      }
    }

    /** One byte in the editing part of `vty_read`. */
    method Key(c: char)
      requires Valid() && (escape == Normal ==> Editing(c) && (c == Control('D') ==> length > 0))
      modifies this, buf, hist
      ensures Valid() && (buf == old(buf) || fresh(buf))
      ensures Typable(old(State())) && State() == After(old(State()), c)
    {
      hide Agrees, Show, Clean, SkipWord, SkipBlanks, WordStart, BlanksStart;
      if escape == Escaped {
        EscapeMap(c);
      } else if escape == PreEscape {
        MetaKey(c);
      } else if Moves(c) {
        MoveKey(c);
      } else if Deletes(c) {
        DeletionKey(c);
      } else {
        PlainKey(c);
      }
    }

    /** Any sequence of keys keeps the terminal in agreement with the line, which is what the keys
        spell. The key that deletes is not pressed on an empty line. */
    method Keys(keys: seq<char>)
      requires Valid() && EditsOnly(State(), keys)
      modifies this, buf, hist
      ensures Valid() && (buf == old(buf) || fresh(buf))
      ensures cp <= length < buf.Length && Agrees(Show(out), Line(), cp)
      ensures Typable(old(State())) && State() == AfterAll(old(State()), keys)
    {
      hide Agrees, Show, Clean, After;
      for i := 0 to |keys|
        invariant Valid() && (buf == old(buf) || fresh(buf))
        invariant Typable(old(State())) && State() == AfterAll(old(State()), keys[..i])
      {
        assert keys[..i + 1][..i] == keys[..i];
        if !(keys[i] == Control('D') && escape == Normal && length == 0) {
          Key(keys[i]);
        }
      }
      assert keys[..|keys|] == keys;
    }

    ghost function State(): (s: EditState)
      reads this, buf, hist
      requires length <= buf.Length
    {
      EditState(buf[..length], cp, hist[..], hp, hindex, escape)
    }
  }

  /** What the user of the editor sees. */
  datatype EditState = EditState(line: seq<char>, cp: nat, hist: seq<Recall>, hp: nat, hindex: nat, escape: Escape)

  predicate Typable(s: EditState) {
    s.cp <= |s.line| && |s.hist| == MAXHIST && s.hp < MAXHIST && s.hindex < MAXHIST
  }

  function Recalled(s: EditState, i: nat): EditState
    requires Typable(s) && i < MAXHIST
  {
    if s.hist[i] == Nothing then s else s.(hp := i, line := s.hist[i].text, cp := |s.hist[i].text|)
  }

  function Remembered(s: EditState): EditState
    requires Typable(s)
  {
    if s.line == [] then s
    else if s.hist[Earlier(s.hindex)] == Entry(s.line) then s.(hp := s.hindex)
    else s.(hist := s.hist[s.hindex := Entry(s.line)], hindex := Later(s.hindex), hp := Later(s.hindex))
  }

  /** What each key means. */
  function After(s: EditState, c: char): (r: EditState)
    requires Typable(s)
    ensures Typable(r)
  {
    var n, cp := |s.line|, s.cp;
    if s.escape == Escaped then
      var t := s.(escape := Normal);
      if c == 'A' then Recalled(t, Earlier(t.hp))
      else if c == 'B' then if t.hp == t.hindex then t else Recalled(t, Later(t.hp))
      else if c == 'C' then t.(cp := if cp < n then cp + 1 else cp)
      else if c == 'D' then t.(cp := if cp > 0 then cp - 1 else 0)
      else t
    else if s.escape == PreEscape then
      var t := s.(escape := Normal);
      if c == '[' then s.(escape := Escaped)
      else if c == 'b' then t.(cp := WordStart(s.line, BlanksStart(s.line, cp)))
      else if c == 'f' then t.(cp := SkipBlanks(s.line, SkipWord(s.line, cp)))
      else if c == 'd' then t.(line := s.line[..cp] + s.line[SkipWord(s.line, SkipBlanks(s.line, cp))..])
      else if c == Control('H') || c == DELETE then KilledWord(t)
      else t
    else if c == Control('A') then s.(cp := 0)
    else if c == Control('B') then s.(cp := if cp > 0 then cp - 1 else 0)
    else if c == Control('C') then s.(line := [], cp := 0, hp := s.hindex)
    else if c == Control('D') then if cp < n then s.(line := s.line[..cp] + s.line[cp + 1..]) else s
    else if c == Control('E') then s.(cp := n)
    else if c == Control('F') then s.(cp := if cp < n then cp + 1 else cp)
    else if c == Control('H') || c == DELETE then
      if cp > 0 then s.(line := s.line[..cp - 1] + s.line[cp..], cp := cp - 1) else s
    else if c == Control('K') then s.(line := s.line[..cp])
    else if c == Control('N') then if s.hp == s.hindex then s else Recalled(s, Later(s.hp))
    else if c == Control('P') then Recalled(s, Earlier(s.hp))
    else if c == Control('T') then
      if n < 2 || cp < 1 then s
      else
        var i := if cp == n then cp - 1 else cp;
        s.(line := s.line[i := s.line[i - 1]][i - 1 := s.line[i]], cp := i + 1)
    else if c == Control('U') then s.(line := [], cp := 0)
    else if c == Control('W') then KilledWord(s)
    else if c == '\n' || c == '\r' then Remembered(s).(line := [], cp := 0)
    else if c == ESC then s.(escape := PreEscape)
    else if ' ' <= c <= '~' then s.(line := s.line[..cp] + [c] + s.line[cp..], cp := cp + 1)
    else s
  }

  function KilledWord(s: EditState): (r: EditState)
    requires Typable(s)
    ensures Typable(r)
  {
    var i := WordStart(s.line, BlanksStart(s.line, s.cp));
    s.(line := s.line[..i] + s.line[s.cp..], cp := i)
  }

  function AfterAll(s: EditState, keys: seq<char>): (r: EditState)
    requires Typable(s)
    ensures Typable(r)
  {
    if keys == [] then s
    else
      var t, c := AfterAll(s, keys[..|keys| - 1]), keys[|keys| - 1];
      if c == Control('D') && t.escape == Normal && t.line == [] then t else After(t, c)
  }

  /** Outside escape sequences all keys are for editing. */
  predicate EditsOnly(s: EditState, keys: seq<char>) {
    Typable(s) && forall i :: 0 <= i < |keys| && AfterAll(s, keys[..i]).escape == Normal ==> Editing(keys[i])
  }

  /** Makes room for `c` at position `cp` of the first `n` characters. */
  method OpenGap(a: array<char>, cp: nat, n: nat, c: char)
    requires cp <= n < a.Length
    modifies a
    ensures a[..n + 1] == old(a[..n])[..cp] + ([c] + old(a[..n])[cp..])
    ensures a[cp..n + 1] == [c] + old(a[..n])[cp..]
  {
    forall i | cp < i <= n {
      a[i] := a[i - 1];
    }
    a[cp] := c;
  }

  /** Puts `c` at position `cp` of the first `n` characters, or behind them. */
  method Store(a: array<char>, cp: nat, n: nat, c: char)
    requires cp <= n < a.Length
    modifies a
    ensures cp < n ==> a[..n] == old(a[..n])[cp := c]
    ensures cp == n ==> a[..n + 1] == old(a[..n]) + [c]
  {
    a[cp] := c;
  }

  /** Removes position `cp` of the first `n + 1` characters. */
  method CloseGap(a: array<char>, cp: nat, n: nat)
    requires cp <= n < a.Length
    modifies a
    ensures a[..n] == old(a[..n + 1])[..cp] + old(a[..n + 1])[cp + 1..]
    ensures a[cp..n] == old(a[..n + 1])[cp + 1..]
  {
    forall i | cp <= i < n {
      a[i] := a[i + 1];
    }
    a[n] := '\0';
  }

  lemma InsertClean(line: seq<char>, cp: nat, c: char)
    requires Clean(line) && cp <= |line| && c != BACK
    ensures Clean(line[..cp] + ([c] + line[cp..])) && line[..cp] + ([c] + line[cp..]) == line[..cp] + [c] + line[cp..]
  {
  }

  lemma OverwriteClean(line: seq<char>, cp: nat, c: char)
    requires Clean(line) && cp <= |line| && c != BACK
    ensures Clean(line + [c]) && (cp < |line| ==> Clean(line[cp := c]))
  {
  }

  lemma DeleteClean(line: seq<char>, i: nat, j: nat)
    requires Clean(line) && i <= j <= |line|
    ensures Clean(line[..i] + line[j..])
  {
  }

  /** `now` is `line` without the characters from `i` to `j`. */
  ghost predicate Cut(now: seq<char>, line: seq<char>, i: nat, j: nat) {
    i <= j <= |line| && now == line[..i] + line[j..]
  }

  lemma CutStart(line: seq<char>, i: nat)
    requires i <= |line|
    ensures Cut(line, line, i, i)
  {
  }

  lemma CutTwice(now: seq<char>, line: seq<char>, i: nat, j: nat, h: nat)
    requires Cut(now, line, i, j) && h <= i
    ensures now[..h] + now[i..] == line[..h] + line[j..]
  {
  }

  lemma CutAgain(now: seq<char>, line: seq<char>, i: nat, j: nat, k: nat)
    requires Cut(now, line, i, j) && i <= k <= |now|
    ensures j + (k - i) <= |line| && now[..i] + now[k..] == line[..i] + line[j + (k - i)..]
  {
  }

  lemma CutOne(now: seq<char>, line: seq<char>, i: nat, j: nat)
    requires Cut(now, line, i, j) && i < |now|
    ensures j < |line| && now[i] == line[j] && Cut(now[..i] + now[i + 1..], line, i, j + 1)
  {
    assert now[..i] + now[i + 1..] == line[..i] + line[j + 1..];
  }

  lemma CutEnd(now: seq<char>, line: seq<char>, i: nat, j: nat)
    requires Cut(now, line, i, j)
    ensures i <= |now| && now == line[..i] + line[j..]
    ensures i == |now| <==> j == |line|
    ensures i < |now| ==> now[i] == line[j]
  {
  }

  lemma CutPrefix(now: seq<char>, line: seq<char>, i: nat, j: nat)
    requires Cut(now, line, i, j)
    ensures i <= |now| && i <= |line| && (i > 0 ==> now[i - 1] == line[i - 1])
  {
  }

  lemma CutBack(now: seq<char>, line: seq<char>, i: nat, j: nat)
    requires Cut(now, line, i, j) && i > 0
    ensures now[i - 1] == line[i - 1] && Cut(now[..i - 1] + now[i..], line, i - 1, j)
  {
    assert now[..i - 1] + now[i..] == line[..i - 1] + line[j..];
  }

  const DELETE: char := '\U{7f}'
  const ESC: char := '\U{1b}'

  function Control(c: char): char
    requires '@' <= c <= '_'
  {
    (c as int - 64) as char
  }

  /** The keys that edit: all but completion, help and the key that leaves configuration mode. */
  predicate Editing(c: char) {
    c != '\t' && c != '?' && c != Control('Z')
  }

  predicate Moves(c: char) {
    c == Control('A') || c == Control('B') || c == Control('E') || c == Control('F') || c == Control('N') ||
      c == Control('P')
  }

  predicate Deletes(c: char) {
    c == Control('D') || c == Control('H') || c == DELETE || c == Control('K') || c == Control('U') || c == Control('W')
  }

  function Later(i: nat): nat {
    if i >= MAXHIST - 1 then 0 else i + 1
  }

  function Earlier(i: nat): nat {
    if i == 0 || i > MAXHIST then MAXHIST - 1 else i - 1
  }

  /** The first position from `i` on that is not inside a word. */
  function SkipWord(s: seq<char>, i: nat): (k: nat)
    requires i <= |s|
    ensures i <= k <= |s| && (k < |s| ==> s[k] == ' ') && forall j :: i <= j < k ==> s[j] != ' '
    decreases |s| - i
  {
    if i < |s| && s[i] != ' ' then SkipWord(s, i + 1) else i
  }

  function SkipBlanks(s: seq<char>, i: nat): (k: nat)
    requires i <= |s|
    ensures i <= k <= |s| && (k < |s| ==> s[k] != ' ') && forall j :: i <= j < k ==> s[j] == ' '
    decreases |s| - i
  {
    if i < |s| && s[i] == ' ' then SkipBlanks(s, i + 1) else i
  }

  /** The start of the word that ends before `i`. */
  function WordStart(s: seq<char>, i: nat): (k: nat)
    requires i <= |s|
    ensures k <= i && (k > 0 ==> s[k - 1] == ' ') && forall j :: k <= j < i ==> s[j] != ' '
  {
    if i > 0 && s[i - 1] != ' ' then WordStart(s, i - 1) else i
  }

  function BlanksStart(s: seq<char>, i: nat): (k: nat)
    requires i <= |s|
    ensures k <= i && (k > 0 ==> s[k - 1] != ' ') && forall j :: k <= j < i ==> s[j] == ' '
  {
    if i > 0 && s[i - 1] == ' ' then BlanksStart(s, i - 1) else i
  }

  lemma SkipAt(s: seq<char>, i: nat)
    requires i <= |s|
    ensures SkipWord(s, i) == if i < |s| && s[i] != ' ' then SkipWord(s, i + 1) else i
    ensures SkipBlanks(s, i) == if i < |s| && s[i] == ' ' then SkipBlanks(s, i + 1) else i
  {
  }

  lemma StartAt(s: seq<char>, i: nat)
    requires i <= |s|
    ensures WordStart(s, i) == if i > 0 && s[i - 1] != ' ' then WordStart(s, i - 1) else i
    ensures BlanksStart(s, i) == if i > 0 && s[i - 1] == ' ' then BlanksStart(s, i - 1) else i
  {
  }

  /** Word ends found in what is left of a line after a cut. */
  lemma {:induction false} SkipWordShift(line: seq<char>, i: nat, j: nat, k: nat)
    requires i <= k && i <= j <= |line| && k - i <= |line| - j
    ensures SkipWord(line[..i] + line[j..], k) - k == SkipWord(line, j + (k - i)) - (j + (k - i))
    decreases |line| - j - (k - i)
  {
    var now := line[..i] + line[j..];
    if k < |now| && now[k] != ' ' {
      SkipWordShift(line, i, j, k + 1);
    }
  }

  lemma {:induction false} WordStartPrefix(line: seq<char>, now: seq<char>, i: nat)
    requires i <= |line| && i <= |now| && now[..i] == line[..i]
    ensures WordStart(line, i) == WordStart(now, i)
  {
    if i > 0 {
      assert line[i - 1] == line[..i][i - 1] == now[..i][i - 1];
      assert now[..i - 1] == now[..i][..i - 1] == line[..i][..i - 1] == line[..i - 1];
      WordStartPrefix(line, now, i - 1);
    }
  }

  lemma KilledAhead(end: seq<char>, now: seq<char>, line: seq<char>, i: nat)
    requires i <= |line| && Cut(now, line, i, SkipBlanks(line, i)) && i <= |now| && Cut(end, now, i, SkipWord(now, i))
    ensures end == line[..i] + line[SkipWord(line, SkipBlanks(line, i))..]
  {
    hide SkipBlanks, SkipWord;
    var k := SkipBlanks(line, i);
    assert now == line[..i] + line[k..] && end == now[..i] + now[SkipWord(now, i)..];
    SkipWordShift(line, i, k, i);
    CutAgain(now, line, i, k, SkipWord(now, i));
  }

  lemma KilledBehind(last: seq<char>, now: seq<char>, line: seq<char>, i: nat, mid: nat, end: nat)
    requires end <= |line| && mid == BlanksStart(line, end) && Cut(now, line, mid, end)
    requires mid <= |now| && i == WordStart(now, mid) && Cut(last, now, i, mid)
    ensures i == WordStart(line, mid) && last == line[..i] + line[end..]
  {
    WordStartPrefix(line, now, mid);
    CutTwice(now, line, mid, end, i);
  }
}
