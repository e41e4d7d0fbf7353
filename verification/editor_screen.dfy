/** What the user sees: the terminal row against the edit buffer. */
module EditorScreen {
  import opened TerminalRow
  import opened LineEditor

  /** Terminal `t`, sent the characters `out`, shows `text` with its cursor in column `col`. */
  predicate Screen(out: seq<Byte>, t: Terminal, text: seq<Byte>, col: nat)
  {
    Shows(ShowAll(t, out), text, col)
  }

  /** The row reads prompt and line, and its column is that of the edit cursor. */
  predicate Faithful(e: Editing, t: Terminal)
  {
    && e.Valid()
    && AllPrintable(e.prompt) && AllPrintable(e.line)
    && Screen(e.output, t, e.prompt + e.line, |e.prompt| + e.cursor)
  }

  lemma PutBlanks(out: seq<Byte>, t: Terminal, text: seq<Byte>, col: nat, n: nat)
    requires Screen(out, t, text, col) && col <= |text| <= col + n
    ensures Screen(out + Repeat(SPACE, n), t, text[..col], col + n)
  {
    BlankShows(ShowAll(t, out), text, col, n);
    ShowAppend(t, out, Repeat(SPACE, n));
  }

  lemma PutBackspaces(out: seq<Byte>, t: Terminal, text: seq<Byte>, col: nat, n: nat)
    requires Screen(out, t, text, col) && n <= col
    ensures Screen(out + Repeat(BS, n), t, text, col - n)
  {
    BackShows(ShowAll(t, out), text, col, n);
    ShowAppend(t, out, Repeat(BS, n));
  }

  lemma PutText(out: seq<Byte>, t: Terminal, text: seq<Byte>, col: nat, s: seq<Byte>)
    requires Screen(out, t, text, col) && col <= |text| && AllPrintable(s)
    ensures Screen(out + s, t, Overwrite(text, col, s), col + |s|)
  {
    WriteShows(ShowAll(t, out), text, col, s);
    ShowAppend(t, out, s);
  }

  lemma PutSame(out: seq<Byte>, t: Terminal, text: seq<Byte>, col: nat, s: seq<Byte>)
    requires Screen(out, t, text, col) && AllPrintable(s)
    requires col + |s| <= |text| && text[col..col + |s|] == s
    ensures Screen(out + s, t, text, col + |s|)
  {
    PutText(out, t, text, col, s);
    OverwriteSame(text, col, s);
  }

  lemma PutReturn(out: seq<Byte>, t: Terminal, text: seq<Byte>, col: nat)
    requires Screen(out, t, text, col)
    ensures Screen(out + [CR], t, text, 0)
  {
    ShowSnoc(t, out, CR);
  }

  lemma PutNewRow(out: seq<Byte>, t: Terminal)
    ensures Screen(out + [CR, LF], t, [], 0)
  {
    hide ShowAll, Show, Shows;
    ShowSnoc(t, out, CR);
    ShowSnoc(t, out + [CR], LF);
    assert out + [CR, LF] == (out + [CR]) + [LF];
    NewRowShows(ShowAll(t, out));
  }

  lemma PutBell(out: seq<Byte>, t: Terminal, text: seq<Byte>, col: nat)
    requires Screen(out, t, text, col)
    ensures Screen(out + [BELL], t, text, col)
  {
    ShowSnoc(t, out, BELL);
  }

  /** Prompt and line written from the left margin. */
  lemma PutPromptAndLine(out: seq<Byte>, t: Terminal, text: seq<Byte>, prompt: seq<Byte>, line: seq<Byte>)
    requires Screen(out, t, text, 0) && AllPrintable(prompt) && AllPrintable(line)
    ensures Screen(out + prompt + line, t, Overwrite(text, 0, prompt + line), |prompt| + |line|)
  {
    PutText(out, t, text, 0, prompt + line);
    assert out + (prompt + line) == out + prompt + line;
  }

  lemma RedrawScreen(e: Editing, t: Terminal, text: seq<Byte>, col: nat)
    requires Screen(e.output, t, text, col) && e.Valid() && !e.password
    requires AllPrintable(e.prompt) && AllPrintable(e.line)
    ensures Screen(e.RedrawLine(false).output, t, Overwrite(text, 0, e.prompt + e.line), |e.prompt| + |e.line|)
  {
    hide Screen, Overwrite;
    PutReturn(e.output, t, text, col);
    PutPromptAndLine(e.output + [CR], t, text, e.prompt, e.line);
  }

  lemma RedrawBelow(e: Editing, t: Terminal)
    requires e.Valid() && !e.password && AllPrintable(e.prompt) && AllPrintable(e.line)
    ensures Faithful(e.RedrawLine(true), t)
  {
    hide Screen;
    PutNewRow(e.output, t);
    PutPromptAndLine(e.output + [CR, LF], t, [], e.prompt, e.line);
    assert Overwrite([], 0, e.prompt + e.line) == e.prompt + e.line;
    assert e.RedrawLine(true).output == e.output + [CR, LF] + e.prompt + e.line;
  }

  lemma OverwriteAll(text: seq<Byte>, s: seq<Byte>)
    ensures Overwrite(text, 0, s)[..|s|] == s
    ensures |text| <= |s| ==> Overwrite(text, 0, s) == s
    ensures |Overwrite(text, 0, s)| == if |text| <= |s| then |s| else |text|
  {
  }

  lemma ClearLineScreen(e: Editing, t: Terminal)
    requires Faithful(e, t) && !e.password
    ensures Faithful(e.ClearLine(), t)
  {
    hide Screen, Overwrite;
    var p, n := |e.prompt|, |e.line|;
    var text := e.prompt + e.line;
    var e0 := e.(line := [], cursor := 0);
    assert e.prompt + [] == e.prompt;
    RedrawScreen(e0, t, text, p + e.cursor);
    OverwriteAll(text, e.prompt);
    var e1 := e0.RedrawLine(false);
    PutBlanks(e1.output, t, Overwrite(text, 0, e.prompt), p, n);
    var e2 := e1.Put(Repeat(SPACE, n));
    RedrawScreen(e2, t, e.prompt, p + n);
    OverwriteAll(e.prompt, e.prompt);
  }

  /** A deletion leaves the row showing the shortened line, with the terminal's cursor
      where the deletion took place. */
  lemma DeletionScreen(e: Editing, t: Terminal, word: bool)
    requires Faithful(e, t) && !e.password && e.cursor > 0
    ensures var d := e.DeleteBackwards(word);
      && AllPrintable(d.line)
      && d.line == e.Shortened(word) + e.line[e.cursor..]
      && Screen(d.output, t, d.prompt + d.line, |d.prompt| + |e.Shortened(word)|)
  {
    hide Screen, Overwrite;
    var front, p, text := e.Shortened(word), |e.prompt|, e.prompt + e.line;
    ShortenedIsPrefix(e, word);
    var e0 := e.(line := front + e.line[e.cursor..], cursor := |front|);
    var n := |e.line| - |e0.line|;
    RedrawScreen(e0, t, text, p + e.cursor);
    var shown := e.prompt + e0.line;
    OverwriteAll(text, shown);
    var e1 := e0.RedrawLine(false);
    PutBlanks(e1.output, t, Overwrite(text, 0, shown), |shown|, n);
    var e2 := e1.Put(Repeat(SPACE, n));
    PutBackspaces(e2.output, t, shown, |shown| + n, n);
    var e3 := e2.Put(Repeat(BS, n));
    PutBackspaces(e3.output, t, shown, |shown|, |e.line| - e.cursor);
  }

  lemma ShortenedIsPrefix(e: Editing, word: bool)
    requires e.Valid() && e.cursor > 0
    ensures |e.Shortened(word)| < e.cursor && e.Shortened(word) == e.line[..|e.Shortened(word)|]
  {
    if word {
      TrimIsShorter(e.line[..e.cursor]);
    }
  }

  lemma TrimIsShorter(s: seq<Byte>)
    requires s != []
    ensures var r := TrimWord(TrimBlanks(s)); |r| < |s| && r == s[..|r|]
  {
    var b := TrimBlanks(s);
    var r := TrimWord(b);
    assert r == b[..|r|] == s[..|r|];
  }

  lemma InsertionScreen(e: Editing, t: Terminal, c: Byte)
    requires Faithful(e, t) && !e.password && e.cursor < |e.line| && Printable(c)
    ensures Faithful(e.Insert(c).Put([c]), t)
  {
    hide Screen, Overwrite;
    var p, text := |e.prompt|, e.prompt + e.line;
    var e0 := e.(line := e.line[..e.cursor] + [c] + e.line[e.cursor..]);
    RedrawScreen(e0, t, text, p + e.cursor);
    var shown := e.prompt + e0.line;
    OverwriteAll(text, shown);
    var e1 := e0.RedrawLine(false);
    PutBackspaces(e1.output, t, shown, |shown|, |e.line| - e.cursor + 1);
    var e2 := e1.Put(Repeat(BS, |e.line| - e.cursor + 1));
    assert shown[p + e.cursor..p + e.cursor + 1] == [c];
    PutSame(e2.output, t, shown, p + e.cursor, [c]);
  }

  lemma AppendScreen(e: Editing, t: Terminal, c: Byte)
    requires Faithful(e, t) && e.cursor == |e.line| && Printable(c)
    ensures Faithful(e.Append(c).Put([c]), t)
  {
    hide Screen;
    var text := e.prompt + e.line;
    PutText(e.output, t, text, |text|, [c]);
    assert Overwrite(text, |text|, [c]) == e.prompt + (e.line + [c]);
  }

  lemma ClearToEolScreen(e: Editing, t: Terminal)
    requires Faithful(e, t) && !e.password
    ensures Faithful(e.ClearToEol(), t)
  {
    hide Screen;
    var text, col, n := e.prompt + e.line, |e.prompt| + e.cursor, |e.line| - e.cursor;
    PutBlanks(e.output, t, text, col, n);
    PutBackspaces(e.output + Repeat(SPACE, n), t, text[..col], col + n, n);
    assert text[..col] == e.prompt + e.line[..e.cursor];
  }

  lemma {:induction false} MovesScreen(e: Editing, t: Terminal)
    requires Faithful(e, t) && !e.password
    ensures Faithful(e.CursorLeft(), t) && Faithful(e.CursorRight(), t)
    ensures Faithful(e.JumpStart(), t) && Faithful(e.JumpEnd(), t)
  {
    hide Screen;
    var p, text := |e.prompt|, e.prompt + e.line;
    if e.cursor > 0 {
      assert Repeat(BS, 1) == [BS];
      PutBackspaces(e.output, t, text, p + e.cursor, 1);
      PutReturn(e.output, t, text, p + e.cursor);
      assert text[..p] == e.prompt;
      PutSame(e.output + [CR], t, text, 0, e.prompt);
    }
    if e.cursor < |e.line| {
      var c := e.line[e.cursor];
      assert text[p + e.cursor..p + e.cursor + 1] == [c];
      PutSame(e.output, t, text, p + e.cursor, [c]);
      assert text[p + e.cursor..|text|] == e.line[e.cursor..];
      PutSame(e.output, t, text, p + e.cursor, e.line[e.cursor..]);
    }
  }

  /** A deletion with text behind the cursor. */
  predicate DeletesInside(e: Editing, key: Key)
  {
    (key == DeleteChar || key == DeleteWord) && 0 < e.cursor < |e.line|
  }

  predicate Typeable(key: Key)
  {
    key.Char? ==> Printable(key.c)
  }

  /** One key keeps the screen faithful exactly when it does not delete inside the line. */
  lemma KeyKeepsScreen(e: Editing, t: Terminal, key: Key)
    requires Faithful(e, t) && !e.password && Typeable(key) && !e.Finishes(key)
    ensures Faithful(e.Press(key), t) <==> !DeletesInside(e, key)
  {
    hide Screen, Editing.ClearLine, Editing.ClearToEol, Editing.RedrawLine, Editing.DeleteBackwards, Editing.Insert,
      Editing.JumpStart, Editing.JumpEnd, Editing.CursorLeft, Editing.CursorRight;
    match key {
      case Alert => PutBell(e.output, t, e.prompt + e.line, |e.prompt| + e.cursor);
      case DeleteChar => DeletionKeepsScreen(e, t, false);
      case DeleteWord => DeletionKeepsScreen(e, t, true);
      case Redraw => RedrawBelow(e, t);
      case ClearLine => ClearLineScreen(e, t);
      case ClearToEol => ClearToEolScreen(e, t);
      case Char(c) =>
        if e.cursor == |e.line| { AppendScreen(e, t, c); } else { InsertionScreen(e, t, c); }
      case _ => MovesScreen(e, t);
    }
  }

  lemma DeletionKeepsScreen(e: Editing, t: Terminal, word: bool)
    requires Faithful(e, t) && !e.password
    ensures Faithful(e.DeleteBackwards(word), t) <==> (e.cursor == 0 || e.cursor == |e.line|)
  {
    if e.cursor == 0 {
      PutBell(e.output, t, e.prompt + e.line, |e.prompt| + e.cursor);
    } else {
      DeletionScreen(e, t, word);
    }
  }

  lemma PressKeepsMode(e: Editing, key: Key)
    requires e.Valid()
    ensures e.Press(key).prompt == e.prompt && e.Press(key).password == e.password
  {
  }

  /** Every time the editor waits for a key, the screen is faithful. */
  predicate FaithfulThroughout(e: Editing, t: Terminal, input: seq<Byte>)
    requires e.Valid()
    decreases |input|
  {
    && Faithful(e, t)
    && (input != [] ==>
          var (key, n) := ReadKey(input);
          !e.Finishes(key) ==> FaithfulThroughout(e.Press(key), t, input[n..]))
  }

  /** Every deletion takes place at the end of the line, or at its start. */
  predicate DeletesAtEnds(e: Editing, input: seq<Byte>)
    requires e.Valid()
    decreases |input|
  {
    input != [] ==>
      var (key, n) := ReadKey(input);
      !e.Finishes(key) ==> !DeletesInside(e, key) && DeletesAtEnds(e.Press(key), input[n..])
  }

  /** No unprintable character is typed into the line. */
  predicate TypesText(e: Editing, input: seq<Byte>)
    requires e.Valid()
    decreases |input|
  {
    input != [] ==>
      var (key, n) := ReadKey(input);
      !e.Finishes(key) ==> Typeable(key) && TypesText(e.Press(key), input[n..])
  }

  /** Whatever is typed, the screen stays faithful exactly as long as nothing is deleted
      inside the line. */
  lemma {:induction false} TypingKeepsScreen(e: Editing, t: Terminal, input: seq<Byte>)
    requires Faithful(e, t) && !e.password && TypesText(e, input)
    ensures FaithfulThroughout(e, t, input) <==> DeletesAtEnds(e, input)
    decreases |input|
  {
    hide Faithful, Editing.Press;
    assert e.Valid() by { FaithfulIsValid(e, t); }
    if input != [] {
      var (key, n) := ReadKey(input);
      if !e.Finishes(key) {
        KeyKeepsScreen(e, t, key);
        PressKeepsMode(e, key);
        if !DeletesInside(e, key) {
          TypingKeepsScreen(e.Press(key), t, input[n..]);
        }
      }
    }
  }

  lemma FaithfulIsValid(e: Editing, t: Terminal)
    requires Faithful(e, t)
    ensures e.Valid()
  {
  }

  /** A line is presented faithfully when what the row shows is no longer than it. */
  lemma PromptIsFaithful(e: Editing, t: Terminal, text: seq<Byte>, shown: seq<Byte>, col: nat)
    requires AllPrintable(e.prompt) && AllPrintable(text)
    requires Screen(e.output, t, shown, col) && |shown| <= |e.prompt| + |text|
    ensures Faithful(e.(line := text, cursor := |text|).Put([CR]).PromptUser(), t)
  {
    hide Screen, Overwrite;
    PutReturn(e.output, t, shown, col);
    PutPromptAndLine(e.output + [CR], t, shown, e.prompt, text);
    OverwriteAll(shown, e.prompt + text);
    PutBackspaces(e.output + [CR] + e.prompt + text, t, e.prompt + text, |e.prompt| + |text|, 0);
  }

  /** Finishing the line echoes what is behind the cursor once more, on the row below. */
  lemma EnterEchoesRest(e: Editing, t: Terminal, code: Byte)
    requires Faithful(e, t) && !e.password
    ensures Screen(e.Press(Enter(code)).JumpEnd().output, t, e.line[e.cursor..], |e.line| - e.cursor)
  {
    hide Screen;
    PutNewRow(e.output, t);
    if e.cursor < |e.line| {
      PutText(e.output + [CR, LF], t, [], 0, e.line[e.cursor..]);
      assert Overwrite([], 0, e.line[e.cursor..]) == e.line[e.cursor..];
    }
  }

  /** A text with a gap in it, where editing takes place. */
  datatype Gap = Gap(before: seq<Byte>, after: seq<Byte>)

  function Split(e: Editing): Gap
    requires e.Valid()
  {
    Gap(e.line[..e.cursor], e.line[e.cursor..])
  }

  /** What a key means to the text and the position in it. Deleting keys do not work on
      a password. */
  function Meaning(g: Gap, key: Key, password: bool): Gap
  {
    var b, a := g.before, g.after;
    match key
    case Left => if b == [] then g else Gap(b[..|b| - 1], [b[|b| - 1]] + a)
    case Right => if a == [] then g else Gap(b + [a[0]], a[1..])
    case DeleteChar => if b == [] || password then g else Gap(b[..|b| - 1], a)
    case DeleteWord => if b == [] || password then g else Gap(TrimWord(TrimBlanks(b)), a)
    case Redraw => if password then g else Gap(b + a, [])
    case ClearLine => Gap([], [])
    case ClearToEol => Gap(b, [])
    case Home => Gap([], b + a)
    case End => Gap(b + a, [])
    case Char(c) => Gap(b + [c], a)
    case _ => g
  }

  predicate Ends(g: Gap, key: Key)
  {
    match key
    case History(_) => true
    case Enter(_) => true
    case Logout => g.before + g.after == []
    case Complete => true
    case Char(c) => g.after == [] && c == QUESTION
    case _ => false
  }

  function MeaningOfAll(g: Gap, input: seq<Byte>, password: bool): Gap
    decreases |input|
  {
    if input == [] then g
    else
      var (key, n) := ReadKey(input);
      if Ends(g, key) then Meaning(g, key, password)
      else MeaningOfAll(Meaning(g, key, password), input[n..], password)
  }

  lemma DeletionEdits(e: Editing, word: bool)
    requires e.Valid() && e.cursor > 0 && !e.password
    ensures var d := e.DeleteBackwards(word);
      && d.line == e.Shortened(word) + e.line[e.cursor..]
      && d.cursor == |d.line|
  {
  }

  lemma StepsEdit(e: Editing)
    requires e.Valid()
    ensures var b, a := e.line[..e.cursor], e.line[e.cursor..];
      && Split(e.CursorLeft()) == (if b == [] then Gap(b, a) else Gap(b[..|b| - 1], [b[|b| - 1]] + a))
      && Split(e.CursorRight()) == (if a == [] then Gap(b, a) else Gap(b + [a[0]], a[1..]))
  {
  }

  lemma JumpsEdit(e: Editing)
    requires e.Valid()
    ensures Split(e.JumpStart()) == Gap([], e.line) && Split(e.JumpEnd()) == Gap(e.line, [])
  {
  }

  lemma TypeEdits(e: Editing, c: Byte)
    requires e.Valid()
    ensures Split(e.Type(c)) == Gap(e.line[..e.cursor] + [c], e.line[e.cursor..])
  {
    var b, a := e.line[..e.cursor], e.line[e.cursor..];
    assert e.line == b + a;
    assert (b + [c] + a)[..|b| + 1] == b + [c];
    assert (b + [c] + a)[|b| + 1..] == a;
    assert e.Type(c).line == b + [c] + a;
    assert e.Type(c).cursor == |b| + 1;
  }

  lemma {:induction false} PlainKeyEdits(e: Editing, key: Key)
    requires e.Valid() && key != DeleteChar && key != DeleteWord
    ensures Split(e.Press(key)) == Meaning(Split(e), key, e.password)
  {
    hide Editing.CursorLeft, Editing.CursorRight, Editing.JumpStart, Editing.JumpEnd, Editing.Type,
      Editing.DeleteBackwards;
    assert e.line == e.line[..e.cursor] + e.line[e.cursor..];
    match key {
      case Char(c) => TypeEdits(e, c);
      case Left => StepsEdit(e);
      case Right => StepsEdit(e);
      case Home => JumpsEdit(e);
      case End => JumpsEdit(e);
      case _ =>
    }
  }

  /** Every key edits the text as it should; a deletion inside a line alone leaves the
      edit cursor in the wrong place, at the end of the line. */
  lemma {:induction false} KeyEdits(e: Editing, key: Key)
    requires e.Valid()
    ensures var g, m := Split(e.Press(key)), Meaning(Split(e), key, e.password);
      && g.before + g.after == m.before + m.after
      && (g == m <==> e.password || !DeletesInside(e, key))
      && (g != m ==> g.after == [])
  {
    if key == DeleteChar || key == DeleteWord {
      if 0 < e.cursor && !e.password {
        var word := key == DeleteWord;
        hide Editing.DeleteBackwards, TrimWord, TrimBlanks;
        DeletionEdits(e, word);
        var b, a := e.line[..e.cursor], e.line[e.cursor..];
        assert b[..|b| - 1] == e.line[..e.cursor - 1];
        assert Meaning(Split(e), key, false) == Gap(e.Shortened(word), a);
      }
    } else {
      PlainKeyEdits(e, key);
    }
  }

  lemma FinishesAsMeant(e: Editing, key: Key)
    requires e.Valid()
    ensures e.Finishes(key) <==> Ends(Split(e), key)
  {
    assert e.line == e.line[..e.cursor] + e.line[e.cursor..];
  }

  /** The line that is read is the one the keys mean. */
  lemma {:induction false} EditFollowsMeaning(e: Editing, input: seq<Byte>)
    requires e.Valid() && (e.password || DeletesAtEnds(e, input))
    ensures Split(e.Edit(input)) == MeaningOfAll(Split(e), input, e.password)
    decreases |input|
  {
    hide Editing.Press, Editing.Finishes, Meaning, Ends, Split;
    if input != [] {
      var (key, n) := ReadKey(input);
      FinishesAsMeant(e, key);
      KeyEdits(e, key);
      PressKeepsMode(e, key);
      if e.Finishes(key) {
        FinishingDeletesNothing(e, key);
      } else {
        EditFollowsMeaning(e.Press(key), input[n..]);
      }
    }
  }

  lemma FinishingDeletesNothing(e: Editing, key: Key)
    requires e.Finishes(key)
    ensures !DeletesInside(e, key)
  {
  }

  /** What is typed after a deletion inside the line goes to the end of the line, but
      over the rest of the line on the screen. */
  lemma TypingAfterDeletionInside(e: Editing, t: Terminal, word: bool, c: Byte)
    requires Faithful(e, t) && !e.password && 0 < e.cursor < |e.line|
    requires Printable(c) && c != QUESTION
    ensures var front, rest := e.Shortened(word), e.line[e.cursor..];
      var d := e.DeleteBackwards(word).Type(c);
      && d.line == front + rest + [c]
      && Screen(d.output, t, e.prompt + front + [c] + rest[1..], |e.prompt| + |front| + 1)
  {
    hide Screen, Overwrite;
    var front, rest := e.Shortened(word), e.line[e.cursor..];
    DeletionScreen(e, t, word);
    DeletionEdits(e, word);
    var d := e.DeleteBackwards(word);
    hide Editing.DeleteBackwards, Editing.Shortened;
    PressKeepsMode(e, if word then DeleteWord else DeleteChar);
    var shown := e.prompt + (front + rest);
    PutText(d.output, t, shown, |e.prompt| + |front|, [c]);
    OverwriteOne(e.prompt + front, rest, c);
    assert shown == e.prompt + front + rest;
  }

  lemma OverwriteOne(a: seq<Byte>, b: seq<Byte>, c: Byte)
    requires b != []
    ensures Overwrite(a + b, |a|, [c]) == a + [c] + b[1..]
  {
  }

  /** Deleting a word removes the blanks in front of the cursor and the word before them,
      and nothing else. */
  lemma {:induction false} WordDeletion(s: seq<Byte>)
    ensures var b := TrimBlanks(s); var r := TrimWord(b);
      && r == s[..|r|] && b == s[..|b|] && |r| <= |b| <= |s|
      && (forall i :: |b| <= i < |s| ==> s[i] == SPACE)
      && (forall i :: |r| <= i < |b| ==> s[i] != SPACE)
      && (r != [] ==> s[|r| - 1] == SPACE)
      && (s != [] && b != [] ==> |r| < |b|)
  {
    BlanksTrimmed(s);
    var b := TrimBlanks(s);
    WordTrimmed(b);
    assert TrimWord(b) == b[..|TrimWord(b)|] == s[..|TrimWord(b)|];
  }

  lemma {:induction false} BlanksTrimmed(s: seq<Byte>)
    ensures var b := TrimBlanks(s);
      && (forall i :: |b| <= i < |s| ==> s[i] == SPACE)
      && (b != [] ==> b[|b| - 1] != SPACE)
  {
    if s != [] && s[|s| - 1] == SPACE {
      BlanksTrimmed(s[..|s| - 1]);
    }
  }

  lemma {:induction false} WordTrimmed(s: seq<Byte>)
    ensures var r := TrimWord(s);
      && (forall i :: |r| <= i < |s| ==> s[i] != SPACE)
      && (r != [] ==> r[|r| - 1] == SPACE)
  {
    if s != [] && s[|s| - 1] != SPACE {
      WordTrimmed(s[..|s| - 1]);
    }
  }
}
