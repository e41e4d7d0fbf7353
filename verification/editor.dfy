/** The line editor of the command line interface: what each key does to the edit
    buffer, and which characters it sends to the terminal. */
module LineEditor {
  import opened TerminalRow

  const QUESTION: Byte := 0x3f

  datatype Key =
    | Ignored
    | Left
    | Right
    | History(code: Byte)
    | Enter(code: Byte)
    | Alert
    | DeleteChar
    | DeleteWord
    | Redraw
    | ClearLine
    | ClearToEol
    | Logout
    | Complete
    | Home
    | End
    | Char(c: Byte)

  function At(input: seq<Byte>, i: nat): Byte
  {
    if i < |input| then input[i] else 0
  }

  function Min(a: nat, b: nat): nat
  {
    if a < b then a else b
  }

  /** An escape is followed by two more bytes, of which the second tells the arrow. */
  function EscapeKey(c: Byte): Key
  {
    if c == 'A' as int then History(16)
    else if c == 'B' as int then History(14)
    else if c == 'C' as int then Right
    else if c == 'D' as int then Left
    else Ignored
  }

  function ByteKey(c: Byte): Key
  {
    if c == LF || c == CR then Enter(c)
    else if c == 0 then Ignored
    else if c == 3 then Alert
    else if c == 23 then DeleteWord
    else if c == 8 || c == DEL then DeleteChar
    else if c == 12 then Redraw
    else if c == 21 then ClearLine
    else if c == 11 then ClearToEol
    else if c == 4 then Logout
    else if c == 26 then Ignored
    else if c == 9 then Complete
    else if c == 1 then Home
    else if c == 5 then End
    else Char(c)
  }

  /** The next key, and the number of bytes it takes from the connection. */
  function ReadKey(input: seq<Byte>): (r: (Key, nat))
    requires input != []
    ensures 1 <= r.1 <= |input|
  {
    if input[0] == 255 then
      (Ignored, Min(|input|, if 0xfb <= At(input, 1) <= 0xfe then 3 else 2))
    else if input[0] == 27 then
      (EscapeKey(At(input, 2)), Min(|input|, 3))
    else
      (ByteKey(input[0]), 1)
  }

  /** An arrow key is told by its remapped code, any other key by its byte. */
  function StopCode(key: Key, first: Byte): Byte
  {
    if key.History? then key.code else first
  }

  /** What remains of a text when the blanks at its end are deleted. */
  function TrimBlanks(s: seq<Byte>): (r: seq<Byte>)
    ensures |r| <= |s| && r == s[..|r|]
  {
    if s != [] && s[|s| - 1] == SPACE then TrimBlanks(s[..|s| - 1]) else s
  }

  /** What remains of a text when the word at its end is deleted. */
  function TrimWord(s: seq<Byte>): (r: seq<Byte>)
    ensures |r| <= |s| && r == s[..|r|]
  {
    if s != [] && s[|s| - 1] != SPACE then TrimWord(s[..|s| - 1]) else s
  }

  /** The state of the editor, and what each of its operations makes of it. */
  datatype Editing = Editing(prompt: seq<Byte>, password: bool, line: seq<Byte>, cursor: nat, output: seq<Byte>) {

    predicate Valid()
    {
      cursor <= |line|
    }

    function Put(s: seq<Byte>): Editing
    {
      this.(output := output + s)
    }

    function PromptUser(): Editing
      requires Valid()
    {
      Put(prompt).Put(line).Put(Repeat(BS, |line| - cursor))
    }

    function RedrawLine(newLine: bool): (e: Editing)
      requires Valid()
      ensures e.Valid()
    {
      if password then this
      else Put(if newLine then [CR, LF] else [CR]).Put(prompt).Put(line).(cursor := |line|)
    }

    function ClearLine(): (e: Editing)
      ensures e.Valid()
    {
      var e := this.(line := [], cursor := 0);
      if password then e
      else e.RedrawLine(false).Put(Repeat(SPACE, |line|)).RedrawLine(false)
    }

    /** The buffer in front of the cursor after a deletion. */
    function Shortened(word: bool): (s: seq<Byte>)
      requires Valid() && cursor > 0
      ensures |s| <= cursor
    {
      if word then TrimWord(TrimBlanks(line[..cursor])) else line[..cursor - 1]
    }

    function DeleteBackwards(word: bool): (e: Editing)
      requires Valid()
      ensures e.Valid()
    {
      if cursor == 0 then Put([BELL])
      else if password then this
      else
        var front := Shortened(word);
        var e := this.(line := front + line[cursor..], cursor := |front|).RedrawLine(false);
        e.Put(Repeat(SPACE, |line| - |e.line|)).Put(Repeat(BS, |line| - |e.line|))
         .Put(Repeat(BS, |line| - cursor))
    }

    function ClearToEol(): (e: Editing)
      requires Valid()
      ensures e.Valid()
    {
      var n := |line| - cursor;
      var e := if password then this else Put(Repeat(SPACE, n)).Put(Repeat(BS, n));
      e.(line := line[..cursor])
    }

    function CursorLeft(): (e: Editing)
      requires Valid()
      ensures e.Valid()
    {
      if cursor == 0 then this
      else (if password then this else Put([BS])).(cursor := cursor - 1)
    }

    function CursorRight(): (e: Editing)
      requires Valid()
      ensures e.Valid()
    {
      if cursor >= |line| then this
      else (if password then this else Put([line[cursor]])).(cursor := cursor + 1)
    }

    function JumpStart(): (e: Editing)
      requires Valid()
      ensures e.Valid()
    {
      if cursor == 0 then this
      else (if password then this else Put([CR]).Put(prompt)).(cursor := 0)
    }

    function JumpEnd(): (e: Editing)
      requires Valid()
      ensures e.Valid()
    {
      if cursor >= |line| then this
      else (if password then this else Put(line[cursor..])).(cursor := |line|)
    }

    function Append(c: Byte): (e: Editing)
      requires Valid()
      ensures e.Valid()
    {
      this.(line := line + [c], cursor := cursor + 1)
    }

    function Insert(c: Byte): (e: Editing)
      requires Valid()
      ensures e.Valid()
    {
      this.(line := line[..cursor] + [c] + line[cursor..]).RedrawLine(false).(cursor := cursor + 1)
          .Put(Repeat(BS, |line| - cursor + 1))
    }

    function Type(c: Byte): (e: Editing)
      requires Valid()
      ensures e.Valid()
    {
      if cursor == |line| then
        if c == QUESTION then Append(c).Put([CR, LF])
        else if password then Append(c)
        else Append(c).Put([c])
      else if password then Insert(c)
      else Insert(c).Put([c])
    }

    function Press(key: Key): (e: Editing)
      requires Valid()
      ensures e.Valid()
    {
      match key
      case Ignored => this
      case Left => CursorLeft()
      case Right => CursorRight()
      case History(_) => this
      case Enter(_) => if password then this else Put([CR, LF])
      case Alert => Put([BELL])
      case DeleteChar => DeleteBackwards(false)
      case DeleteWord => DeleteBackwards(true)
      case Redraw => RedrawLine(true)
      case ClearLine => ClearLine()
      case ClearToEol => ClearToEol()
      case Logout => this
      case Complete => this
      case Home => JumpStart()
      case End => JumpEnd()
      case Char(c) => Type(c)
    }

    predicate Finishes(key: Key)
    {
      match key
      case History(_) => true
      case Enter(_) => true
      case Logout => line == []
      case Complete => true
      case Char(c) => cursor == |line| && c == QUESTION
      case _ => false
    }

    /** Reading keys until one finishes the line or the connection fails. */
    function Edit(input: seq<Byte>): (e: Editing)
      requires Valid()
      ensures e.Valid()
      decreases |input|
    {
      if input == [] then this
      else
        var (key, n) := ReadKey(input);
        if Finishes(key) then Press(key) else Press(key).Edit(input[n..])
    }

    /** The byte that `Edit` stopped at, 0 when the connection failed. */
    function Stop(input: seq<Byte>): Byte
      requires Valid()
      decreases |input|
    {
      if input == [] then 0
      else
        var (key, n) := ReadKey(input);
        if Finishes(key) then StopCode(key, input[0]) else Press(key).Stop(input[n..])
    }

    /** One call to read a line, starting from the text given. */
    function GetLine(text: seq<Byte>, input: seq<Byte>): Editing
    {
      var e := this.(line := text, cursor := |text|).Put([CR]).PromptUser();
      e.Edit(input).JumpEnd()
    }
  }

  lemma RepeatSnoc(c: Byte, n: nat)
    ensures Repeat(c, n) + [c] == Repeat(c, n + 1)
  {
  }

  /** The editor of one connection; `output` is what has been sent to the terminal. */
  class Editor {
    var prompt: seq<Byte>
    var passwordMode: bool
    var line: seq<Byte>
    var cursor: nat
    var showPrompt: bool
    var output: seq<Byte>

    function View(): Editing
      reads this
    {
      Editing(prompt, passwordMode, line, cursor, output)
    }

    predicate Valid()
      reads this
    {
      cursor <= |line|
    }

    constructor (prompt: seq<Byte>)
      ensures View() == Editing(prompt, false, [], 0, [])
    {
      this.prompt := prompt;
      passwordMode := false;
      line, cursor, output, showPrompt := [], 0, [], true;
    }

    method PutChar(c: Byte)
      modifies this`output
      ensures View() == old(View()).Put([c])
    {
      output := output + [c];
    }

    method PutText(s: seq<Byte>)
      modifies this`output
      ensures View() == old(View()).Put(s)
    {
      output := output + s;
    }

    method ShowPrompt()
      modifies this`output
      ensures View() == old(View()).Put(prompt)
    {
      PutText(prompt);
    }

    method PromptUser()
      requires Valid()
      modifies this`output, this`showPrompt
      ensures View() == old(View()).PromptUser()
      ensures !showPrompt
    {
      ShowPrompt();
      PutText(line);
      if cursor < |line| {
        ghost var before := output;
        var n := |line| - cursor;
        while n > 0
          modifies this`output
          invariant 0 <= n <= |line| - cursor
          invariant output == before + Repeat(BS, |line| - cursor - n)
        {
          RepeatSnoc(BS, |line| - cursor - n);
          PutChar(BS);
          n := n - 1;
        }
      }
      showPrompt := false;
    }

    method RedrawLine(newLine: bool)
      requires Valid()
      modifies this`output, this`cursor
      ensures View() == old(View()).RedrawLine(newLine)
    {
      if passwordMode { return; }
      if newLine { PutText([CR, LF]); } else { PutChar(CR); }
      ShowPrompt();
      PutText(line);
      cursor := |line|;
    }

    method ClearLine()
      modifies this`output, this`cursor, this`line
      ensures View() == old(View()).ClearLine()
    {
      cursor := 0;
      var l := |line|;
      line := [];
      if passwordMode { return; }
      RedrawLine(false);
      ghost var n, before := l, output;
      while l > cursor
        modifies this`output
        invariant 0 <= l <= n
        invariant output == before + Repeat(SPACE, n - l)
      {
        RepeatSnoc(SPACE, n - l);
        PutChar(SPACE);
        l := l - 1;
      }
      RedrawLine(false);
    }

    /** Erasing from the buffer, back from the cursor, the blanks and then the word. */
    method EraseWord()
      requires Valid() && cursor > 0
      modifies this`cursor, this`line
      ensures line == TrimWord(TrimBlanks(old(line)[..old(cursor)])) + old(line)[old(cursor)..]
      ensures cursor == |TrimWord(TrimBlanks(old(line)[..old(cursor)]))|
    {
      var nc := cursor - 1;
      ghost var rest := line[cursor..];
      while nc >= 0 && line[nc] == SPACE
        invariant -1 <= nc && cursor == nc + 1 <= |line|
        invariant line[cursor..] == rest
        invariant TrimBlanks(line[..cursor]) == TrimBlanks(old(line)[..old(cursor)])
        decreases nc
      {
        assert line[..cursor][..nc] == line[..nc];
        line := line[..nc] + line[nc + 1..];
        cursor := cursor - 1;
        nc := nc - 1;
      }
      assert TrimBlanks(line[..cursor]) == line[..cursor];
      while nc >= 0 && line[nc] != SPACE
        invariant -1 <= nc && cursor == nc + 1 <= |line|
        invariant line[cursor..] == rest
        invariant TrimWord(line[..cursor]) == TrimWord(TrimBlanks(old(line)[..old(cursor)]))
        decreases nc
      {
        assert line[..cursor][..nc] == line[..nc];
        line := line[..nc] + line[nc + 1..];
        cursor := cursor - 1;
        nc := nc - 1;
      }
      assert TrimWord(line[..cursor]) == line[..cursor];
      assert line == line[..cursor] + rest;
    }

    /** Blanks out the cells from the cursor to the old end of the line. */
    method BlankOut(len: nat)
      requires cursor <= len
      modifies this`output
      ensures View() == old(View()).Put(Repeat(SPACE, len - cursor)).Put(Repeat(BS, len - cursor))
    {
      ghost var before := output;
      var n := cursor;
      while n < len
        invariant cursor <= n <= len
        invariant output == before + Repeat(SPACE, n - cursor)
      {
        RepeatSnoc(SPACE, n - cursor);
        PutChar(SPACE);
        n := n + 1;
      }
      before := output;
      n := cursor;
      while n < len
        invariant cursor <= n <= len
        invariant output == before + Repeat(BS, n - cursor)
      {
        RepeatSnoc(BS, n - cursor);
        PutChar(BS);
        n := n + 1;
      }
    }

    /** Steps back on the screen from the end of the line. */
    method StepBack(cur: nat)
      requires cur <= |line|
      modifies this`output
      ensures View() == old(View()).Put(Repeat(BS, |line| - cur))
    {
      ghost var before := output;
      var n := |line|;
      while n > cur
        invariant cur <= n <= |line|
        invariant output == before + Repeat(BS, |line| - n)
      {
        RepeatSnoc(BS, |line| - n);
        PutChar(BS);
        n := n - 1;
      }
    }

    method DeleteBackwards(word: bool)
      requires Valid()
      modifies this`output, this`cursor, this`line
      ensures View() == old(View()).DeleteBackwards(word)
    {
      if line == [] || cursor == 0 {
        PutChar(BELL);
        return;
      }
      if passwordMode { return; }
      var len := |line|;
      if word {
        EraseWord();
      } else {
        line := line[..cursor - 1] + line[cursor..];
        cursor := cursor - 1;
      }
      var cur := cursor;
      RedrawLine(false);
      BlankOut(len);
      StepBack(cur);
    }

    method ClearToEol()
      requires Valid()
      modifies this`output, this`line
      ensures View() == old(View()).ClearToEol()
    {
      if cursor == |line| {
        assert line[..cursor] == line;
        return;
      }
      if !passwordMode {
        ghost var before := output;
        var c := cursor;
        while c < |line|
          modifies this`output
          invariant cursor <= c <= |line|
          invariant output == before + Repeat(SPACE, c - cursor)
        {
          RepeatSnoc(SPACE, c - cursor);
          PutChar(SPACE);
          c := c + 1;
        }
        before := output;
        c := cursor;
        while c < |line|
          modifies this`output
          invariant cursor <= c <= |line|
          invariant output == before + Repeat(BS, c - cursor)
        {
          RepeatSnoc(BS, c - cursor);
          PutChar(BS);
          c := c + 1;
        }
      }
      line := line[..cursor];
    }

    method CursorLeft()
      requires Valid()
      modifies this`output, this`cursor
      ensures View() == old(View()).CursorLeft()
    {
      if cursor == 0 { return; }
      if !passwordMode { PutChar(BS); }
      cursor := cursor - 1;
    }

    method CursorRight()
      requires Valid()
      modifies this`output, this`cursor
      ensures View() == old(View()).CursorRight()
    {
      if cursor >= |line| { return; }
      if !passwordMode { PutChar(line[cursor]); }
      cursor := cursor + 1;
    }

    method JumpStart()
      requires Valid()
      modifies this`output, this`cursor
      ensures View() == old(View()).JumpStart()
    {
      if cursor > 0 {
        if !passwordMode {
          PutChar(CR);
          ShowPrompt();
        }
        cursor := 0;
      }
    }

    method JumpEnd()
      requires Valid()
      modifies this`output, this`cursor
      ensures View() == old(View()).JumpEnd()
    {
      if cursor < |line| {
        if !passwordMode { PutText(line[cursor..]); }
        cursor := |line|;
      }
    }

    method Append(c: Byte)
      requires Valid()
      modifies this`line, this`cursor
      ensures View() == old(View()).Append(c)
    {
      line := line + [c];
      cursor := cursor + 1;
    }

    method Insert(c: Byte)
      requires Valid()
      modifies this`output, this`line, this`cursor
      ensures View() == old(View()).Insert(c)
    {
      line := line[..cursor] + [c] + line[cursor..];
      var tmp := cursor;
      RedrawLine(false);
      cursor := tmp + 1;
      ghost var before := output;
      var i := 0;
      while i < |line| - cursor + 1
        modifies this`output
        invariant 0 <= i <= |line| - cursor + 1
        invariant output == before + Repeat(BS, i)
      {
        RepeatSnoc(BS, i);
        PutChar(BS);
        i := i + 1;
      }
    }

    /** The body of the loop of `GetLine`: one key. */
    method HandleKey(key: Key) returns (finished: bool)
      requires Valid()
      modifies this`output, this`line, this`cursor
      ensures View() == old(View()).Press(key)
      ensures finished == old(View()).Finishes(key)
    {
      finished := false;
      match key {
        case Ignored =>
        case Left => CursorLeft();
        case Right => CursorRight();
        case History(_) => finished := true;
        case Enter(_) =>
          if !passwordMode { PutText([CR, LF]); }
          finished := true;
        case Alert => PutChar(BELL);
        case DeleteChar => DeleteBackwards(false);
        case DeleteWord => DeleteBackwards(true);
        case Redraw => RedrawLine(true);
        case ClearLine => ClearLine();
        case ClearToEol => ClearToEol();
        case Logout => finished := |line| == 0;
        case Complete => finished := true;
        case Home => JumpStart();
        case End => JumpEnd();
        case Char(c) => finished := TypeKey(c);
      }
    }

    method TypeKey(c: Byte) returns (finished: bool)
      requires Valid()
      modifies this`output, this`line, this`cursor
      ensures View() == old(View()).Type(c)
      ensures finished == old(View()).Finishes(Char(c))
    {
      if cursor == |line| {
        Append(c);
        if c == QUESTION {
          PutText([CR, LF]);
          return true;
        }
      } else {
        Insert(c);
      }
      if !passwordMode { PutChar(c); }
      return false;
    }

    /** Reads and edits one line. The bytes the connection delivers are `input`; a
        timeout delivers 0, and the connection fails after the last of them. */
    method GetLine(text: seq<Byte>, input: seq<Byte>) returns (result: seq<Byte>, stop: Byte)
      modifies this
      ensures View() == old(View()).GetLine(text, input).(line := [], cursor := 0)
      ensures result == old(View()).GetLine(text, input).line
      ensures stop == old(View()).(line := text, cursor := |text|).Put([CR]).PromptUser().Stop(input)
    {
      line, cursor := text, |text|;
      showPrompt := true;
      var finished, rest := false, input;
      stop := 0;
      PutChar(CR);
      ghost var start := View().PromptUser();
      while !finished
        invariant Valid() && prompt == old(prompt)
        invariant showPrompt ==> !finished && rest == input && View().PromptUser() == start
        invariant !showPrompt && !finished ==> View().Edit(rest) == start.Edit(input)
        invariant !showPrompt && !finished ==> View().Stop(rest) == start.Stop(input)
        invariant finished ==> !showPrompt && View() == start.Edit(input) && stop == start.Stop(input)
        decreases !finished, |rest|
      {
        if showPrompt { PromptUser(); }
        stop := 0;
        if rest == [] { break; }
        var (key, n) := ReadKey(rest);
        finished := HandleKey(key);
        if finished { stop := StopCode(key, rest[0]); }
        rest := rest[n..];
      }
      JumpEnd();
      result := line;
      line, cursor := [], 0;
    }
  }
}
