/** The line editor byte by byte: which line comes of the bytes that a connection delivers,
    and which byte ends it. */
module EditorBytes {
  import opened TerminalRow
  import opened LineEditor
  import opened EditorScreen

  /** What a byte, or an escape sequence, does: it ends the line, or leaves text before and
      behind the edit cursor. */
  datatype Turn = Stops(line: seq<Byte>, code: Byte) | Goes(before: seq<Byte>, after: seq<Byte>, taken: nat)

  function ByteOr0(input: seq<Byte>, i: nat): Byte
  {
    if i < |input| then input[i] else 0
  }

  function UpTo(input: seq<Byte>, n: nat): nat
  {
    if |input| < n then |input| else n
  }

  function Turned(b: seq<Byte>, a: seq<Byte>, password: bool, input: seq<Byte>): (r: Turn)
    requires input != []
    ensures r.Goes? ==> 1 <= r.taken <= |input|
  {
    var c := input[0];
    var three := UpTo(input, 3);
    if c == 255 then Goes(b, a, if 251 <= ByteOr0(input, 1) <= 254 then three else UpTo(input, 2))
    else if c == 27 then
      var arrow := ByteOr0(input, 2);
      if arrow == 65 then Stops(b + a, 16)
      else if arrow == 66 then Stops(b + a, 14)
      else if arrow == 67 && a != [] then Goes(b + [a[0]], a[1..], three)
      else if arrow == 68 && b != [] then Goes(b[..|b| - 1], [b[|b| - 1]] + a, three)
      else Goes(b, a, three)
    else if c == 10 || c == 13 || c == 9 || (c == 4 && b + a == []) then Stops(b + a, c)
    else if c == 1 then Goes([], b + a, 1)
    else if c == 5 then Goes(b + a, [], 1)
    else if c == 11 then Goes(b, [], 1)
    else if c == 21 then Goes([], [], 1)
    else if c == 12 then if password then Goes(b, a, 1) else Goes(b + a, [], 1)
    else if c == 8 || c == 127 then
      if b == [] || password then Goes(b, a, 1) else Goes(b[..|b| - 1] + a, [], 1)
    else if c == 23 then
      if b == [] || password then Goes(b, a, 1) else Goes(TrimWord(TrimBlanks(b)) + a, [], 1)
    else if c == 0 || c == 3 || c == 4 || c == 26 then Goes(b, a, 1)
    else if c == 63 && a == [] then Stops(b + [63], 63)
    else Goes(b + [c], a, 1)
  }

  /** The line, and the code of what ended it, 0 when the connection failed. */
  function ReadBytes(b: seq<Byte>, a: seq<Byte>, password: bool, input: seq<Byte>): (seq<Byte>, Byte)
    decreases |input|
  {
    if input == [] then (b + a, 0)
    else
      match Turned(b, a, password, input)
      case Stops(line, code) => (line, code)
      case Goes(before, after, taken) => ReadBytes(before, after, password, input[taken..])
  }

  /** What the bytes do is what their key means, unless it deletes. */
  lemma BytesMean(g: Gap, password: bool, input: seq<Byte>)
    requires input != [] && !ReadKey(input).0.DeleteChar? && !ReadKey(input).0.DeleteWord?
    ensures var (key, n) := ReadKey(input);
      var m := Meaning(g, key, password);
      match Turned(g.before, g.after, password, input)
      case Stops(line, code) => Ends(g, key) && m.before + m.after == line && StopCode(key, input[0]) == code
      case Goes(before, after, taken) => !Ends(g, key) && n == taken && m == Gap(before, after)
  {
  }

  lemma DeletionTurns(e: Editing, input: seq<Byte>)
    requires e.Valid() && input != [] && (ReadKey(input).0.DeleteChar? || ReadKey(input).0.DeleteWord?)
    ensures var (key, n) := ReadKey(input);
      var d := e.Press(key);
      && !e.Finishes(key)
      && Turned(e.line[..e.cursor], e.line[e.cursor..], e.password, input) == Goes(d.line[..d.cursor], d.line[d.cursor..], n)
  {
    hide Editing.DeleteBackwards, Editing.Shortened, TrimWord, TrimBlanks, ReadKey, Turned;
    var word := ReadKey(input).0.DeleteWord?;
    DeletionBytes(input);
    var b, a := e.line[..e.cursor], e.line[e.cursor..];
    DeletingByte(b, a, e.password, input, word);
    if e.cursor > 0 && !e.password {
      DeletionEdits(e, word);
      ShortenedIs(e, word);
    } else {
      NoDeletion(e, word);
    }
  }

  lemma DeletionBytes(input: seq<Byte>)
    requires input != []
    ensures ReadKey(input).0.DeleteChar? ==> (input[0] == 8 || input[0] == 127) && ReadKey(input).1 == 1
    ensures ReadKey(input).0.DeleteWord? ==> input[0] == 23 && ReadKey(input).1 == 1
  {
  }

  lemma DeletingByte(b: seq<Byte>, a: seq<Byte>, password: bool, input: seq<Byte>, word: bool)
    requires input != [] && (if word then input[0] == 23 else input[0] == 8 || input[0] == 127)
    ensures b == [] || password ==> Turned(b, a, password, input) == Goes(b, a, 1)
    ensures b != [] && !password && word ==> Turned(b, a, password, input) == Goes(TrimWord(TrimBlanks(b)) + a, [], 1)
    ensures b != [] && !password && !word ==> Turned(b, a, password, input) == Goes(b[..|b| - 1] + a, [], 1)
  {
    hide Turned, TrimWord, TrimBlanks;
    if word {
      WordByte(b, a, password, input);
    } else {
      CharByte(b, a, password, input);
    }
  }

  lemma WordByte(b: seq<Byte>, a: seq<Byte>, password: bool, input: seq<Byte>)
    requires input != [] && input[0] == 23
    ensures Turned(b, a, password, input) ==
      if b == [] || password then Goes(b, a, 1) else Goes(TrimWord(TrimBlanks(b)) + a, [], 1)
  {
    hide TrimWord, TrimBlanks;
  }

  lemma CharByte(b: seq<Byte>, a: seq<Byte>, password: bool, input: seq<Byte>)
    requires input != [] && (input[0] == 8 || input[0] == 127)
    ensures Turned(b, a, password, input) ==
      if b == [] || password then Goes(b, a, 1) else Goes(b[..|b| - 1] + a, [], 1)
  {
  }

  lemma ShortenedIs(e: Editing, word: bool)
    requires e.Valid() && e.cursor > 0
    ensures e.Shortened(word) ==
      if word then TrimWord(TrimBlanks(e.line[..e.cursor])) else e.line[..e.cursor][..e.cursor - 1]
  {
  }

  lemma NoDeletion(e: Editing, word: bool)
    requires e.Valid() && (e.cursor == 0 || e.password)
    ensures var d := e.DeleteBackwards(word); d.line == e.line && d.cursor == e.cursor
  {
  }

  /** One key of the editor does what the bytes do. */
  lemma KeyTurns(e: Editing, input: seq<Byte>)
    requires e.Valid() && input != []
    ensures var (key, n) := ReadKey(input);
      var d := e.Press(key);
      match Turned(e.line[..e.cursor], e.line[e.cursor..], e.password, input)
      case Stops(line, code) => e.Finishes(key) && d.line == line && StopCode(key, input[0]) == code
      case Goes(before, after, taken) =>
        && !e.Finishes(key) && n == taken && d.line[..d.cursor] == before && d.line[d.cursor..] == after
  {
    hide Turned, Editing.Press, Editing.Finishes, ReadKey, StopCode, Meaning, Ends;
    var (key, n) := ReadKey(input);
    if key.DeleteChar? || key.DeleteWord? {
      DeletionTurns(e, input);
    } else {
      BytesMean(Split(e), e.password, input);
      PlainKeyEdits(e, key);
      FinishesAsMeant(e, key);
      var d := e.Press(key);
      assert d.line == d.line[..d.cursor] + d.line[d.cursor..];
    }
  }

  /** The editor reads the line that the bytes make. */
  lemma {:induction false} BytesMakeTheLine(e: Editing, input: seq<Byte>)
    requires e.Valid()
    ensures (e.Edit(input).line, e.Stop(input)) == ReadBytes(e.line[..e.cursor], e.line[e.cursor..], e.password, input)
    decreases |input|
  {
    hide Turned, Editing.Press, Editing.Finishes, ReadKey, StopCode;
    if input == [] {
      assert e.line == e.line[..e.cursor] + e.line[e.cursor..];
    } else {
      var (key, n) := ReadKey(input);
      KeyTurns(e, input);
      PressKeepsMode(e, key);
      if !e.Finishes(key) {
        BytesMakeTheLine(e.Press(key), input[n..]);
      }
    }
  }

  /** One call to read a line returns the line that the bytes make, and the code that ended it. */
  lemma GetLineReads(e: Editing, text: seq<Byte>, input: seq<Byte>)
    ensures e.GetLine(text, input).line == ReadBytes(text, [], e.password, input).0
    ensures e.(line := text, cursor := |text|).Put([CR]).PromptUser().Stop(input) == ReadBytes(text, [], e.password, input).1
  {
    var start := e.(line := text, cursor := |text|).Put([CR]).PromptUser();
    assert start.line[..start.cursor] == text && start.line[start.cursor..] == [];
    BytesMakeTheLine(start, input);
  }

  // ---------------------------------------------------------------------
  // What each control byte does, between two texts that are typed

  /** Printable characters other than the question mark, which asks for help. */
  predicate Plain(t: seq<Byte>)
  {
    AllPrintable(t) && 63 !in t
  }

  lemma {:induction false} TypedGoesOn(b: seq<Byte>, a: seq<Byte>, password: bool, t: seq<Byte>, rest: seq<Byte>)
    requires Plain(t)
    ensures ReadBytes(b, a, password, t + rest) == ReadBytes(b + t, a, password, rest)
    decreases |t|
  {
    if t == [] {
      assert t + rest == rest && b + t == b;
    } else {
      assert t[0] in t && Printable(t[0]);
      assert (t + rest)[1..] == t[1..] + rest;
      assert b + [t[0]] + t[1..] == b + t;
      TypedGoesOn(b + [t[0]], a, password, t[1..], rest);
    }
  }

  /** A control byte or sequence between what is typed first and what is typed next. */
  lemma Between(e: Editing, a: seq<Byte>, keys: seq<Byte>, b: seq<Byte>, before: seq<Byte>, after: seq<Byte>)
    requires Plain(a) && Plain(b)
    requires ReadBytes(a, [], e.password, keys + (b + [13])) == ReadBytes(before, after, e.password, b + [13])
    ensures e.GetLine([], a + keys + b + [13]).line == before + b + after
  {
    hide ReadBytes;
    GetLineReads(e, [], a + keys + b + [13]);
    assert a + keys + b + [13] == a + (keys + (b + [13])) && [] + a == a;
    TypedGoesOn([], [], e.password, a, keys + (b + [13]));
    TypedGoesOn(before, after, e.password, b, [13]);
    EnterEnds(before + b, after, e.password, 13);
  }

  lemma EnterEnds(b: seq<Byte>, a: seq<Byte>, password: bool, c: Byte)
    requires c == 13 || c == 10
    ensures ReadBytes(b, a, password, [c]) == (b + a, c)
  {
  }

  /** Typed text, ended by Enter, is the line. */
  lemma TypedIsRead(e: Editing, a: seq<Byte>)
    requires Plain(a)
    ensures e.GetLine([], a + [13]).line == a
  {
    Between(e, a, [], [], a, []);
    assert a + [] + [] + [13] == a + [13] && a + [] + [] == a;
  }

  /** Control-A goes to the start of the line, and Control-E to its end. */
  lemma StartAndEnd(e: Editing, a: seq<Byte>, b: seq<Byte>)
    requires Plain(a) && Plain(b)
    ensures e.GetLine([], a + [1] + b + [13]).line == b + a
    ensures e.GetLine([], a + [1, 5] + b + [13]).line == a + b
  {
    assert a + [] == a && [] + a == a && [] + b + a == b + a && a + b + [] == a + b;
    AfterByte(e, a, 1, b, [], a);
    AfterTwo(e, a, 1, [], a, 5, b, a, []);
  }

  /** After one byte that leaves the cursor between two texts. */
  lemma AfterByte(e: Editing, a: seq<Byte>, c: Byte, b: seq<Byte>, before: seq<Byte>, after: seq<Byte>)
    requires Plain(a) && Plain(b) && c != 255 && c != 27
    requires Turned(a, [], e.password, [c] + (b + [13])) == Goes(before, after, 1)
    ensures e.GetLine([], a + [c] + b + [13]).line == before + b + after
  {
    hide Turned;
    OneByte(a, [], e.password, c, b + [13]);
    Between(e, a, [c], b, before, after);
  }

  lemma AfterTwo(e: Editing, a: seq<Byte>, c: Byte, x: seq<Byte>, y: seq<Byte>, d: Byte, b: seq<Byte>, before: seq<Byte>, after: seq<Byte>)
    requires Plain(a) && Plain(b) && c != 255 && c != 27 && d != 255 && d != 27
    requires Turned(a, [], e.password, [c] + ([d] + (b + [13]))) == Goes(x, y, 1)
    requires Turned(x, y, e.password, [d] + (b + [13])) == Goes(before, after, 1)
    ensures e.GetLine([], a + [c, d] + b + [13]).line == before + b + after
  {
    hide Turned;
    OneByte(a, [], e.password, c, [d] + (b + [13]));
    OneByte(x, y, e.password, d, b + [13]);
    assert [c, d] + (b + [13]) == [c] + ([d] + (b + [13]));
    Between(e, a, [c, d], b, before, after);
  }

  /** One byte that does not end the line. */
  lemma OneByte(b: seq<Byte>, a: seq<Byte>, password: bool, c: Byte, rest: seq<Byte>)
    requires c != 255 && c != 27
    ensures var t := Turned(b, a, password, [c] + rest);
      t.Goes? ==> t.taken == 1 && ReadBytes(b, a, password, [c] + rest) == ReadBytes(t.before, t.after, password, rest)
  {
    assert ([c] + rest)[1..] == rest;
  }

  lemma Arrow(b: seq<Byte>, a: seq<Byte>, password: bool, c: Byte, rest: seq<Byte>)
    ensures var input := [27, 91, c] + rest;
      var t := Turned(b, a, password, input);
      t.Goes? ==> t.taken == 3 && ReadBytes(b, a, password, input) == ReadBytes(t.before, t.after, password, rest)
  {
    assert ([27, 91, c] + rest)[3..] == rest;
  }

  /** The arrow keys move one place to the left and one to the right. */
  lemma Arrows(e: Editing, a: seq<Byte>, b: seq<Byte>)
    requires Plain(a) && Plain(b) && a != []
    ensures e.GetLine([], a + [27, 91, 68] + b + [13]).line == a[..|a| - 1] + b + [a[|a| - 1]]
    ensures e.GetLine([], a + [27, 91, 68, 27, 91, 67] + b + [13]).line == a + b
  {
    var rest, front, last := b + [13], a[..|a| - 1], [a[|a| - 1]];
    assert front + last == a && last + [] == last;
    Arrow(a, [], e.password, 68, rest);
    Between(e, a, [27, 91, 68], b, front, last);
    assert [27, 91, 68, 27, 91, 67] + rest == [27, 91, 68] + ([27, 91, 67] + rest);
    Arrow(a, [], e.password, 68, [27, 91, 67] + rest);
    Arrow(front, last, e.password, 67, rest);
    assert front + [last[0]] == a && last[1..] == [];
    assert a + b + [] == a + b;
    Between(e, a, [27, 91, 68, 27, 91, 67], b, a, []);
  }

  /** Backspace and delete remove the last character, but not from a password. */
  lemma Backspace(e: Editing, a: seq<Byte>, b: seq<Byte>, c: Byte)
    requires Plain(a) && Plain(b) && (c == 8 || c == 127)
    ensures e.GetLine([], a + [c] + b + [13]).line == (if a == [] || e.password then a else a[..|a| - 1]) + b
  {
    var front := if a == [] || e.password then a else a[..|a| - 1];
    assert front + [] == front && front + b + [] == front + b;
    AfterByte(e, a, c, b, front, []);
  }

  /** Control-K cuts off what is behind the cursor, and Control-U empties the line. */
  lemma Cutting(e: Editing, a: seq<Byte>, b: seq<Byte>)
    requires Plain(a) && Plain(b)
    ensures e.GetLine([], a + [1, 11] + b + [13]).line == b
    ensures e.GetLine([], a + [11] + b + [13]).line == a + b
    ensures e.GetLine([], a + [21] + b + [13]).line == b
  {
    assert a + [] == a && [] + a == a && [] + b + [] == b && a + b + [] == a + b;
    AfterByte(e, a, 11, b, a, []);
    AfterByte(e, a, 21, b, [], []);
    AfterTwo(e, a, 1, [], a, 11, b, [], []);
  }

  /** Control-W removes the blanks at the end and the word in front of them, but not from a
      password. */
  lemma WordRemoved(e: Editing, a: seq<Byte>, word: seq<Byte>, blanks: nat, b: seq<Byte>)
    requires Plain(a) && Plain(word) && Plain(b) && 32 !in word && word != [] && (a == [] || a[|a| - 1] == 32)
    ensures e.GetLine([], a + word + Repeat(32, blanks) + [23] + b + [13]).line ==
            if e.password then a + word + Repeat(32, blanks) + b else a + b
  {
    var typed := a + word + Repeat(32, blanks);
    BlanksArePlain(blanks);
    assert Plain(typed);
    var kept := if e.password then typed else a;
    WordIsCut(a, word, blanks);
    assert kept + [] == kept && kept + b + [] == kept + b;
    AfterByte(e, typed, 23, b, kept, []);
  }

  lemma {:induction false} BlanksArePlain(n: nat)
    ensures Plain(Repeat(32, n))
  {
  }

  lemma {:induction false} WordIsCut(a: seq<Byte>, word: seq<Byte>, blanks: nat)
    requires 32 !in word && word != [] && (a == [] || a[|a| - 1] == 32)
    ensures TrimWord(TrimBlanks(a + word + Repeat(32, blanks))) == a
    decreases blanks + |word|
  {
    var s := a + word + Repeat(32, blanks);
    if blanks > 0 {
      assert s[..|s| - 1] == a + word + Repeat(32, blanks - 1);
      WordIsCut(a, word, blanks - 1);
    } else {
      assert s == a + word;
      assert word[|word| - 1] in word;
      WholeWordCut(a, word);
    }
  }

  lemma {:induction false} WholeWordCut(a: seq<Byte>, word: seq<Byte>)
    requires 32 !in word && (a == [] || a[|a| - 1] == 32)
    ensures TrimWord(a + word) == a
    decreases |word|
  {
    if word == [] {
      assert a + word == a;
    } else {
      var front := word[..|word| - 1];
      assert word[|word| - 1] in word && (a + word)[..|a + word| - 1] == a + front;
      WholeWordCut(a, front);
    }
  }

  /** Control-C, Control-L, Control-Z and timeouts leave the line alone, and so does Control-D
      unless the line is empty. */
  lemma LeftAlone(e: Editing, a: seq<Byte>, c: Byte, b: seq<Byte>)
    requires Plain(a) && Plain(b) && (c in {0, 3, 12, 26} || (c == 4 && a != []))
    ensures e.GetLine([], a + [c] + b + [13]).line == a + b
  {
    assert a + [] == a && a + b + [] == a + b;
    AfterByte(e, a, c, b, a, []);
  }

  /** Enter and Tab end the line, which is as it stands, whatever follows. */
  lemma LineEnds(e: Editing, a: seq<Byte>, rest: seq<Byte>)
    requires Plain(a)
    ensures e.GetLine([], a + [13] + rest).line == a && e.GetLine([], a + [10] + rest).line == a
    ensures e.GetLine([], a + [9] + rest).line == a
  {
    assert a + [] == a;
    Ended(e, a, [13], rest, a, 13);
    Ended(e, a, [10], rest, a, 10);
    Ended(e, a, [9], rest, a, 9);
  }

  /** So do the arrows up and down, a question mark at its end, and Control-D when it is empty. */
  lemma OtherEnds(e: Editing, a: seq<Byte>, rest: seq<Byte>)
    requires Plain(a)
    ensures e.GetLine([], a + [27, 91, 65] + rest).line == a && e.GetLine([], a + [27, 91, 66] + rest).line == a
    ensures e.GetLine([], a + [63] + rest).line == a + [63]
    ensures e.GetLine([], [4] + rest).line == []
  {
    assert a + [] == a && [] + [4] + rest == [4] + rest;
    Ended(e, a, [27, 91, 65], rest, a, 16);
    Ended(e, a, [27, 91, 66], rest, a, 14);
    Ended(e, a, [63], rest, a + [63], 63);
    Ended(e, [], [4], rest, [], 4);
  }

  lemma Ended(e: Editing, a: seq<Byte>, keys: seq<Byte>, rest: seq<Byte>, line: seq<Byte>, code: Byte)
    requires Plain(a) && keys != [] && Turned(a, [], e.password, keys + rest) == Stops(line, code)
    ensures e.GetLine([], a + keys + rest).line == line
  {
    hide Turned;
    GetLineReads(e, [], a + keys + rest);
    assert a + keys + rest == a + (keys + rest) && [] + a == a;
    TypedGoesOn([], [], e.password, a, keys + rest);
  }
}
