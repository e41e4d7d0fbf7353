/** One row of a terminal, as far as the line editor uses it. */
module TerminalRow {

  type Byte = b: int | 0 <= b < 256

  const BELL: Byte := 0x07
  const BS: Byte := 0x08
  const LF: Byte := 0x0a
  const CR: Byte := 0x0d
  const SPACE: Byte := 0x20
  const DEL: Byte := 0x7f

  /** Characters that take up one column. */
  predicate Printable(c: Byte)
  {
    SPACE <= c < 255 && c != DEL
  }

  predicate AllPrintable(s: seq<Byte>)
  {
    forall i :: 0 <= i < |s| ==> Printable(s[i])
  }

  datatype Terminal = Terminal(row: seq<Byte>, col: nat)

  function Repeat(c: Byte, n: nat): (r: seq<Byte>)
    ensures |r| == n
  {
    seq(n, _ => c)
  }

  /** Writing over a row from column `at` on. */
  function Overwrite(row: seq<Byte>, at: nat, s: seq<Byte>): seq<Byte>
    requires at <= |row|
  {
    row[..at] + s + if at + |s| < |row| then row[at + |s|..] else []
  }

  /** What a character sent to the terminal does. A line feed starts a new row;
      control characters other than these are not interpreted. */
  function Show(t: Terminal, c: Byte): Terminal
  {
    if c == CR then t.(col := 0)
    else if c == BS then t.(col := if t.col == 0 then 0 else t.col - 1)
    else if c == LF then t.(row := Repeat(SPACE, t.col))
    else if Printable(c) then
      var row := if t.col <= |t.row| then t.row else t.row + Repeat(SPACE, t.col - |t.row|);
      Terminal(Overwrite(row, t.col, [c]), t.col + 1)
    else t
  }

  function ShowAll(t: Terminal, s: seq<Byte>): Terminal
  {
    if s == [] then t else Show(ShowAll(t, s[..|s| - 1]), s[|s| - 1])
  }

  /** The row reads `text`, followed by blanks only, and the cursor is at `col`. */
  predicate Shows(t: Terminal, text: seq<Byte>, col: nat)
  {
    && t.col == col
    && |text| <= |t.row|
    && t.row[..|text|] == text
    && forall i :: |text| <= i < |t.row| ==> t.row[i] == SPACE
  }

  lemma ShowSnoc(t: Terminal, s: seq<Byte>, c: Byte)
    ensures ShowAll(t, s + [c]) == Show(ShowAll(t, s), c)
  {
    assert (s + [c])[..|s|] == s;
  }

  lemma {:induction false} ShowAppend(t: Terminal, a: seq<Byte>, b: seq<Byte>)
    ensures ShowAll(t, a + b) == ShowAll(ShowAll(t, a), b)
  {
    if b == [] {
      assert a + b == a;
    } else {
      var front, last := b[..|b| - 1], b[|b| - 1];
      assert a + b == (a + front) + [last];
      ShowAppend(t, a, front);
      ShowSnoc(t, a + front, last);
    }
  }

  /** Printable text overwrites the row. */
  lemma {:induction false} ShowText(t: Terminal, s: seq<Byte>)
    requires AllPrintable(s) && t.col <= |t.row|
    ensures ShowAll(t, s) == Terminal(Overwrite(t.row, t.col, s), t.col + |s|)
  {
    if s == [] {
      assert Overwrite(t.row, t.col, s) == t.row;
    } else {
      var front, last := s[..|s| - 1], s[|s| - 1];
      ShowText(t, front);
      assert Overwrite(Overwrite(t.row, t.col, front), t.col + |front|, [last]) == Overwrite(t.row, t.col, s);
    }
  }

  lemma {:induction false} ShowBackspaces(t: Terminal, n: nat)
    requires n <= t.col
    ensures ShowAll(t, Repeat(BS, n)) == t.(col := t.col - n)
  {
    if n > 0 {
      ShowBackspaces(t, n - 1);
      assert Repeat(BS, n)[..n - 1] == Repeat(BS, n - 1);
    }
  }

  lemma OverwriteSame(row: seq<Byte>, at: nat, s: seq<Byte>)
    requires at + |s| <= |row| && row[at..at + |s|] == s
    ensures Overwrite(row, at, s) == row
  {
    assert row == row[..at] + row[at..at + |s|] + row[at + |s|..];
  }

  lemma OverwriteAt(row: seq<Byte>, at: nat, s: seq<Byte>, i: nat)
    requires at <= |row|
    ensures |Overwrite(row, at, s)| == if |row| <= at + |s| then at + |s| else |row|
    ensures i < |Overwrite(row, at, s)| ==> Overwrite(row, at, s)[i] == if at <= i < at + |s| then s[i - at] else row[i]
  {
  }

  /** Printable text written anywhere in the shown text replaces what was there. */
  lemma {:induction false} WriteShows(t: Terminal, text: seq<Byte>, col: nat, s: seq<Byte>)
    requires Shows(t, text, col) && col <= |text| && AllPrintable(s)
    ensures Shows(ShowAll(t, s), Overwrite(text, col, s), col + |s|)
  {
    var row, shown := Overwrite(t.row, col, s), Overwrite(text, col, s);
    ShowText(t, s);
    OverwriteAt(t.row, col, s, 0);
    OverwriteAt(text, col, s, 0);
    hide Overwrite, ShowAll;
    forall i | 0 <= i < |row|
      ensures row[i] == if i < |shown| then shown[i] else SPACE
    {
      OverwriteAt(t.row, col, s, i);
      OverwriteAt(text, col, s, i);
      assert i < |text| ==> t.row[i] == t.row[..|text|][i];
    }
    assert row[..|shown|] == shown;
  }

  lemma BackShows(t: Terminal, text: seq<Byte>, col: nat, n: nat)
    requires Shows(t, text, col) && n <= col
    ensures Shows(ShowAll(t, Repeat(BS, n)), text, col - n)
  {
    ShowBackspaces(t, n);
  }

  /** Blanks written to the end of the text, or past it, cut the text off. */
  lemma BlankShows(t: Terminal, text: seq<Byte>, col: nat, blanks: nat)
    requires Shows(t, text, col) && col <= |text| <= col + blanks
    ensures Shows(ShowAll(t, Repeat(SPACE, blanks)), text[..col], col + blanks)
  {
    var s := Repeat(SPACE, blanks);
    WriteShows(t, text, col, s);
    var shown := Overwrite(text, col, s);
    hide ShowAll;
    assert |shown| == col + blanks;
    var row := ShowAll(t, s).row;
    forall i | 0 <= i < |shown|
      ensures row[i] == if i < col then text[i] else SPACE
    {
      assert row[i] == row[..|shown|][i];
    }
    assert row[..col] == text[..col];
  }

  /** A fresh row. */
  lemma NewRowShows(t: Terminal)
    ensures Shows(Show(Show(t, CR), LF), [], 0)
  {
  }
}
