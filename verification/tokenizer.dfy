/** Splitting a command line into tokens. */
module Tokenizer {
  import opened Wrappers

  predicate IsBlank(c: char)
  {
    c == ' ' || c == '\t' || c == '\n' || c == '\U{000B}' || c == '\U{000C}' || c == '\r'
  }

  predicate AllBlank(s: string)
  {
    forall i :: 0 <= i < |s| ==> IsBlank(s[i])
  }

  predicate NoBlank(s: string)
  {
    forall i :: 0 <= i < |s| ==> !IsBlank(s[i])
  }

  predicate IsQuote(c: char)
  {
    c == '"' || c == '\''
  }

  /** The first position from `from` on with a character that is not blank. */
  function FindNotBlank(s: string, from: nat): (r: Option<nat>)
    ensures r.Some? ==> from <= r.value < |s| && !IsBlank(s[r.value]) && AllBlank(s[from..r.value])
    ensures r.None? && from <= |s| ==> AllBlank(s[from..])
    decreases |s| - from
  {
    if from >= |s| then None
    else if IsBlank(s[from]) then FindNotBlank(s, from + 1)
    else Some(from)
  }

  function FindBlank(s: string, from: nat): (r: Option<nat>)
    ensures r.Some? ==> from <= r.value < |s| && IsBlank(s[r.value]) && NoBlank(s[from..r.value])
    ensures r.None? && from <= |s| ==> NoBlank(s[from..])
    decreases |s| - from
  {
    if from >= |s| then None
    else if IsBlank(s[from]) then Some(from)
    else FindBlank(s, from + 1)
  }

  function FindChar(s: string, c: char, from: nat): (r: Option<nat>)
    ensures r.Some? ==> from <= r.value < |s| && s[r.value] == c && c !in s[from..r.value]
    ensures r.None? && from <= |s| ==> c !in s[from..]
    decreases |s| - from
  {
    if from >= |s| then None
    else if s[from] == c then Some(from)
    else FindChar(s, c, from + 1)
  }

  datatype Piece = Bare(text: string) | Quoted(quote: char, text: string)

  /** A token as it is written, after the blanks in front of it. */
  datatype Item = Item(gap: string, piece: Piece)

  predicate Proper(p: Piece)
  {
    match p
    case Bare(text) => text != "" && NoBlank(text) && !IsQuote(text[0])
    case Quoted(quote, text) => IsQuote(quote) && quote !in text
  }

  function Show(p: Piece): string
  {
    match p
    case Bare(text) => text
    case Quoted(quote, text) => [quote] + text + [quote]
  }

  /** The end of a line: blanks, or blanks and an opening quote that is never closed. */
  ghost predicate Ending(tail: string, closed: bool)
  {
    if closed then AllBlank(tail)
    else exists k :: OpensAt(tail, k)
  }

  predicate OpensAt(tail: string, k: int)
  {
    0 <= k < |tail| && AllBlank(tail[..k]) && IsQuote(tail[k]) && tail[k] !in tail[k + 1..]
  }

  /** A line of tokens: each is proper, and a bare one is followed by a blank or by the
      end of the line. */
  ghost predicate Laid(items: seq<Item>, tail: string, closed: bool)
  {
    if items == [] then Ending(tail, closed)
    else
      && AllBlank(items[0].gap)
      && Proper(items[0].piece)
      && Laid(items[1..], tail, closed)
      && (items[0].piece.Bare? ==> StartsBlank(items[1..], tail))
  }

  predicate StartsBlank(items: seq<Item>, tail: string)
  {
    if items != [] then items[0].gap != ""
    else tail == "" || IsBlank(tail[0])
  }

  function Print(items: seq<Item>, tail: string): string
  {
    if items == [] then tail
    else items[0].gap + Show(items[0].piece) + Print(items[1..], tail)
  }

  function Texts(items: seq<Item>): seq<string>
  {
    if items == [] then [] else [items[0].piece.text] + Texts(items[1..])
  }

  datatype Tokens = Tokens(closed: bool, words: seq<string>)

  /** What is found from some position on: no token, an opening quote that is not closed,
      the last token, or a token and the position to go on from. */
  datatype Found = Nothing | Unclosed | Last(text: string) | More(text: string, next: nat)

  function NextToken(s: string, from: nat): (r: Found)
    requires from <= |s|
    ensures r.More? ==> from < r.next <= |s|
  {
    match FindNotBlank(s, from)
    case None => Nothing
    case Some(start) =>
      if IsQuote(s[start]) then
        match FindChar(s, s[start], start + 1)
        case None => Unclosed
        case Some(end) => More(s[start + 1..end], end + 1)
      else
        match FindBlank(s, start)
        case None => Last(s[start..])
        case Some(end) => More(s[start..end], end + 1)
  }

  /** Splitting from position `from` on, `words` being the tokens found so far; not
      closed when a closing quote is missing. */
  function SplitOn(s: string, from: nat, words: seq<string>): Tokens
    requires from <= |s|
    decreases |s| - from
  {
    match NextToken(s, from)
    case Nothing => Tokens(true, words)
    case Unclosed => Tokens(false, words)
    case Last(text) => Tokens(true, words + [text])
    case More(text, next) => SplitOn(s, next, words + [text])
  }

  function Split(s: string): Tokens
  {
    SplitOn(s, 0, [])
  }

  lemma {:induction false} FirstNotBlank(s: string, from: nat, k: nat)
    requires from <= k < |s| && AllBlank(s[from..k]) && !IsBlank(s[k])
    ensures FindNotBlank(s, from) == Some(k)
    decreases k - from
  {
    if from < k {
      assert s[from] == s[from..k][0];
      assert s[from + 1..k] == s[from..k][1..];
      FirstNotBlank(s, from + 1, k);
    }
  }

  lemma {:induction false} NoneNotBlank(s: string, from: nat)
    requires from <= |s| && AllBlank(s[from..])
    ensures FindNotBlank(s, from) == None
    decreases |s| - from
  {
    if from < |s| {
      assert s[from] == s[from..][0];
      assert s[from + 1..] == s[from..][1..];
      NoneNotBlank(s, from + 1);
    }
  }

  lemma {:induction false} FirstBlank(s: string, from: nat, k: nat)
    requires from <= k < |s| && NoBlank(s[from..k]) && IsBlank(s[k])
    ensures FindBlank(s, from) == Some(k)
    decreases k - from
  {
    if from < k {
      assert s[from] == s[from..k][0];
      assert s[from + 1..k] == s[from..k][1..];
      FirstBlank(s, from + 1, k);
    }
  }

  lemma {:induction false} NoneBlank(s: string, from: nat)
    requires from <= |s| && NoBlank(s[from..])
    ensures FindBlank(s, from) == None
    decreases |s| - from
  {
    if from < |s| {
      assert s[from] == s[from..][0];
      assert s[from + 1..] == s[from..][1..];
      NoneBlank(s, from + 1);
    }
  }

  lemma {:induction false} FirstChar(s: string, c: char, from: nat, k: nat)
    requires from <= k < |s| && c !in s[from..k] && s[k] == c
    ensures FindChar(s, c, from) == Some(k)
    decreases k - from
  {
    if from < k {
      assert s[from] == s[from..k][0];
      assert s[from + 1..k] == s[from..k][1..];
      FirstChar(s, c, from + 1, k);
    }
  }

  lemma {:induction false} NoChar(s: string, c: char, from: nat)
    requires from <= |s| && c !in s[from..]
    ensures FindChar(s, c, from) == None
    decreases |s| - from
  {
    if from < |s| {
      assert s[from] == s[from..][0];
      assert s[from + 1..] == s[from..][1..];
      NoChar(s, c, from + 1);
    }
  }

  lemma QuotedAt(s: string, from: nat, start: nat, end: nat)
    requires from <= start < end < |s| && AllBlank(s[from..start]) && IsQuote(s[start])
    requires s[start] !in s[start + 1..end] && s[end] == s[start]
    ensures NextToken(s, from) == More(s[start + 1..end], end + 1)
  {
    FirstNotBlank(s, from, start);
    FirstChar(s, s[start], start + 1, end);
  }

  lemma BareAt(s: string, from: nat, start: nat, end: nat)
    requires from <= start < end < |s| && AllBlank(s[from..start]) && !IsBlank(s[start]) && !IsQuote(s[start])
    requires NoBlank(s[start..end]) && IsBlank(s[end])
    ensures NextToken(s, from) == More(s[start..end], end + 1)
  {
    FirstNotBlank(s, from, start);
    FirstBlank(s, start, end);
  }

  lemma LastAt(s: string, from: nat, start: nat)
    requires from <= start < |s| && AllBlank(s[from..start]) && !IsBlank(s[start]) && !IsQuote(s[start])
    requires NoBlank(s[start..])
    ensures NextToken(s, from) == Last(s[start..])
  {
    FirstNotBlank(s, from, start);
    NoneBlank(s, start);
  }

  /** The end of the line yields no further token. */
  lemma EndingAt(front: string, tail: string, closed: bool)
    requires Ending(tail, closed)
    ensures NextToken(front + tail, |front|) == if closed then Nothing else Unclosed
  {
    var s := front + tail;
    assert s[|front|..] == tail;
    if closed {
      NoneNotBlank(s, |front|);
    } else {
      var k :| OpensAt(tail, k);
      assert s[|front|..|front| + k] == tail[..k];
      FirstNotBlank(s, |front|, |front| + k);
      assert s[|front| + k + 1..] == tail[k + 1..];
      NoChar(s, tail[k], |front| + k + 1);
    }
  }

  lemma Parts(a: string, b: string, c: string, d: string)
    ensures var s := a + (b + c + d);
      && s[|a|..|a| + |b|] == b
      && s[|a| + |b|..|a| + |b| + |c|] == c
      && s[|a| + |b| + |c|..] == d
  {
  }

  lemma QuotedNext(front: string, gap: string, quote: char, text: string, rest: string)
    requires AllBlank(gap) && IsQuote(quote) && quote !in text
    ensures NextToken(front + (gap + ([quote] + text + [quote]) + rest), |front|)
         == More(text, |front| + |gap| + |text| + 2)
  {
    hide NextToken;
    var shown := [quote] + text + [quote];
    var s := front + (gap + shown + rest);
    var start := |front| + |gap|;
    var end := start + 1 + |text|;
    Parts(front, gap, shown, rest);
    assert s[start] == s[start..start + |shown|][0];
    assert s[end] == s[start..start + |shown|][|text| + 1];
    assert s[start + 1..end] == s[start..start + |shown|][1..|text| + 1] == text;
    QuotedAt(s, |front|, start, end);
  }

  lemma BareNext(front: string, gap: string, text: string, rest: string)
    requires AllBlank(gap) && Proper(Bare(text)) && (rest == "" || IsBlank(rest[0]))
    ensures NextToken(front + (gap + text + rest), |front|)
         == if rest == "" then Last(text) else More(text, |front| + |gap| + |text| + 1)
  {
    hide NextToken;
    var s := front + (gap + text + rest);
    var start, next := |front| + |gap|, |front| + |gap| + |text|;
    Parts(front, gap, text, rest);
    assert s[start] == s[start..next][0];
    if rest == "" {
      assert s[start..] == text;
      LastAt(s, |front|, start);
    } else {
      assert s[next] == s[next..][0];
      BareAt(s, |front|, start, next);
    }
  }

  /** The items with the first blank of the line taken away. */
  function Advance(items: seq<Item>, tail: string): (r: (seq<Item>, string))
    requires StartsBlank(items, tail) && Print(items, tail) != ""
  {
    if items != [] then ([items[0].(gap := items[0].gap[1..])] + items[1..], tail)
    else (items, tail[1..])
  }

  lemma AdvanceEnding(tail: string, closed: bool)
    requires Ending(tail, closed) && tail != "" && IsBlank(tail[0])
    ensures Ending(tail[1..], closed)
  {
    if !closed {
      var k :| OpensAt(tail, k);
      assert tail[..k][1..] == tail[1..][..k - 1];
      assert tail[k + 1..] == tail[1..][k..];
      assert OpensAt(tail[1..], k - 1);
    }
  }

  lemma TailBlank(gap: string)
    requires AllBlank(gap) && gap != ""
    ensures IsBlank(gap[0]) && AllBlank(gap[1..])
  {
  }

  lemma AdvanceLaid(items: seq<Item>, tail: string, closed: bool)
    requires Laid(items, tail, closed) && StartsBlank(items, tail) && Print(items, tail) != ""
    ensures var (items', tail') := Advance(items, tail);
      && Laid(items', tail', closed)
      && Texts(items') == Texts(items)
      && IsBlank(Print(items, tail)[0])
      && Print(items', tail') == Print(items, tail)[1..]
  {
    hide Ending, AllBlank, Show, Proper;
    if items == [] {
      AdvanceEnding(tail, closed);
    } else {
      var first := items[0].(gap := items[0].gap[1..]);
      assert ([first] + items[1..])[1..] == items[1..];
      assert items[0].gap == [items[0].gap[0]] + first.gap;
      TailBlank(items[0].gap);
      var rest := Show(items[0].piece) + Print(items[1..], tail);
      assert Print(items, tail) == [items[0].gap[0]] + (first.gap + rest);
    }
  }

  lemma Regroup(front: string, gap: string, shown: string, rest: string)
    ensures front + (gap + shown + rest) == front + gap + shown + rest
    ensures rest != "" ==> front + (gap + shown + rest) == front + gap + shown + [rest[0]] + rest[1..]
  {
  }

  /** A line that is laid out from proper tokens splits into just these tokens. */
  lemma {:induction false} SplitPrint(front: string, items: seq<Item>, tail: string, closed: bool, words: seq<string>)
    requires Laid(items, tail, closed)
    ensures SplitOn(front + Print(items, tail), |front|, words) == Tokens(closed, words + Texts(items))
    decreases |items|
  {
    hide NextToken, Ending, IsBlank, AllBlank, NoBlank;
    if items == [] {
      EndingAt(front, tail, closed);
      assert words + Texts(items) == words;
    } else {
      var gap, piece, rest := items[0].gap, items[0].piece, Print(items[1..], tail);
      assert words + [piece.text] + Texts(items[1..]) == words + Texts(items);
      match piece {
        case Quoted(quote, text) =>
          QuotedNext(front, gap, quote, text, rest);
          var front' := front + gap + ([quote] + text + [quote]);
          Regroup(front, gap, Show(piece), rest);
          SplitPrint(front', items[1..], tail, closed, words + [text]);
        case Bare(text) =>
          if rest == "" {
            LastIsClosed(items[1..], tail, closed);
            BareNext(front, gap, text, rest);
          } else {
            AdvanceLaid(items[1..], tail, closed);
            BareNext(front, gap, text, rest);
            var (items', tail') := Advance(items[1..], tail);
            var front' := front + gap + text + [rest[0]];
            Regroup(front, gap, text, rest);
            SplitPrint(front', items', tail', closed, words + [text]);
          }
      }
    }
  }

  lemma LastIsClosed(items: seq<Item>, tail: string, closed: bool)
    requires Laid(items, tail, closed) && Print(items, tail) == ""
    ensures items == [] && closed
  {
  }

  method SplitLine(s: string) returns (r: Tokens)
    ensures r == Split(s)
  {
    var start, end := 0, Some(0);
    var words: seq<string> := [];
    while end.Some?
      invariant end.Some? ==> start <= |s| && SplitOn(s, start, words) == Split(s)
      invariant end.None? ==> Split(s) == Tokens(true, words)
      decreases end.Some?, |s| - start
    {
      ghost var found := NextToken(s, start);
      hide FindNotBlank, FindChar, FindBlank, IsBlank;
      var first := FindNotBlank(s, start);
      if first.None? { return Tokens(true, words); }
      start := first.value;
      if IsQuote(s[start]) {
        var quote := s[start];
        start := start + 1;
        end := FindChar(s, quote, start);
        if end.None? { return Tokens(false, words); }
      } else {
        end := FindBlank(s, start);
      }
      assert found == if end.Some? then More(s[start..end.value], end.value + 1) else Last(s[start..]);
      hide NextToken;
      var token := if end.Some? then s[start..end.value] else s[start..];
      start := if end.Some? then end.value + 1 else 0;
      words := words + [token];
    }
    return Tokens(true, words);
  }

  lemma UnclosedOpens(s: string, from: nat)
    requires from <= |s| && NextToken(s, from) == Unclosed
    ensures Ending(s[from..], false)
  {
    var start := FindNotBlank(s, from).value;
    assert s[from..][..start - from] == s[from..start];
    assert s[from..][start - from + 1..] == s[start + 1..];
    assert OpensAt(s[from..], start - from);
  }

  lemma NothingEnds(s: string, from: nat)
    requires from <= |s| && NextToken(s, from) == Nothing
    ensures Ending(s[from..], true)
  {
  }

  lemma LastIsBare(s: string, from: nat)
    requires from <= |s| && NextToken(s, from).Last?
    ensures var text := NextToken(s, from).text;
      && Proper(Bare(text))
      && from + |text| <= |s| && AllBlank(s[from..|s| - |text|]) && s[from..] == s[from..|s| - |text|] + text
  {
    var start := FindNotBlank(s, from).value;
    assert s[start..][0] == s[start];
  }

  /** How the token that was found is written, and where the next one begins. */
  lemma MoreIsProper(s: string, from: nat) returns (gap: string, piece: Piece)
    requires from <= |s| && NextToken(s, from).More?
    ensures var More(text, next) := NextToken(s, from);
      && AllBlank(gap) && Proper(piece) && piece.text == text
      && (piece.Quoted? ==> s[from..] == gap + Show(piece) + s[next..])
      && (piece.Bare? ==> s[from..] == gap + Show(piece) + [s[next - 1]] + s[next..] && IsBlank(s[next - 1]))
  {
    var More(text, next) := NextToken(s, from);
    var start := FindNotBlank(s, from).value;
    gap := s[from..start];
    if IsQuote(s[start]) {
      piece := Quoted(s[start], text);
      assert s[from..] == gap + [s[start]] + text + [s[next - 1]] + s[next..];
    } else {
      piece := Bare(text);
      assert start < next - 1 ==> text[0] == s[start];
      assert s[from..] == gap + text + [s[next - 1]] + s[next..];
    }
  }

  lemma RetreatEnding(tail: string, closed: bool, c: char)
    requires Ending(tail, closed) && IsBlank(c)
    ensures Ending([c] + tail, closed)
  {
    if !closed {
      var k :| OpensAt(tail, k);
      assert ([c] + tail)[..k + 1] == [c] + tail[..k];
      assert ([c] + tail)[k + 2..] == tail[k + 1..];
      assert OpensAt([c] + tail, k + 1);
    }
  }

  lemma MoreBlank(gap: string, c: char)
    requires AllBlank(gap) && IsBlank(c)
    ensures AllBlank([c] + gap)
  {
  }

  /** One more blank in front of the line. */
  lemma {:induction false} Retreat(items: seq<Item>, tail: string, closed: bool, c: char) returns (items': seq<Item>, tail': string)
    requires Laid(items, tail, closed) && IsBlank(c)
    ensures Laid(items', tail', closed) && StartsBlank(items', tail')
    ensures Texts(items') == Texts(items) && Print(items', tail') == [c] + Print(items, tail)
  {
    hide Ending, AllBlank, IsBlank, Show, Proper;
    if items == [] {
      items', tail' := [], [c] + tail;
      RetreatEnding(tail, closed, c);
    } else {
      items', tail' := [items[0].(gap := [c] + items[0].gap)] + items[1..], tail;
      assert items'[1..] == items[1..];
      MoreBlank(items[0].gap, c);
      var rest := Show(items[0].piece) + Print(items[1..], tail);
      assert Print(items', tail') == [c] + (items[0].gap + rest);
    }
  }

  /** Every line is laid out from the tokens it splits into. */
  lemma {:induction false} SplitLayout(s: string, from: nat, words: seq<string>)
      returns (items: seq<Item>, tail: string)
    requires from <= |s|
    ensures Print(items, tail) == s[from..]
    ensures Laid(items, tail, SplitOn(s, from, words).closed)
    ensures SplitOn(s, from, words).words == words + Texts(items)
    decreases |s| - from
  {
    hide NextToken, Ending, AllBlank, NoBlank, IsBlank, Proper, Show;
    match NextToken(s, from) {
      case Nothing =>
        items, tail := [], s[from..];
        NothingEnds(s, from);
      case Unclosed =>
        items, tail := [], s[from..];
        UnclosedOpens(s, from);
      case Last(text) =>
        LastIsBare(s, from);
        items, tail := [Item(s[from..|s| - |text|], Bare(text))], "";
        LaidOne(items[0]);
        ShowBare(text);
      case More(text, next) =>
        var gap, piece := MoreIsProper(s, from);
        var items', tail' := SplitLayout(s, next, words + [text]);
        if piece.Bare? {
          items', tail' := Retreat(items', tail', SplitOn(s, from, words).closed, s[next - 1]);
        }
        items, tail := [Item(gap, piece)] + items', tail';
        assert items[1..] == items';
        assert Print(items, tail) == gap + Show(piece) + Print(items', tail');
        assert words + [text] + Texts(items') == words + Texts(items);
    }
  }

  lemma ShowBare(text: string)
    ensures Show(Bare(text)) == text
  {
  }

  lemma LaidOne(item: Item)
    requires AllBlank(item.gap) && Proper(item.piece)
    ensures Laid([item], "", true) && Texts([item]) == [item.piece.text]
    ensures Print([item], "") == item.gap + Show(item.piece)
  {
  }

  /** A line splits into given tokens exactly when it can be laid out from them. */
  lemma SplitIff(s: string, r: Tokens)
    ensures Split(s) == r <==>
      exists items, tail :: Laid(items, tail, r.closed) && Print(items, tail) == s && Texts(items) == r.words
  {
    if Split(s) == r {
      var items, tail := SplitLayout(s, 0, []);
      assert s[0..] == s && [] + Texts(items) == Texts(items);
    }
    if items, tail :| Laid(items, tail, r.closed) && Print(items, tail) == s && Texts(items) == r.words {
      SplitPrint("", items, tail, r.closed, []);
      assert "" + s == s && [] + r.words == r.words;
    }
  }

  // ---------------------------------------------------------------------
  // Character by character

  /** Blank, tab, line feed, vertical tab, form feed and carriage return; and the quotes. */
  const BLANKS: string := " \t\n\U{000B}\U{000C}\r"
  const QUOTES: string := "\"'"

  lemma BlanksAndQuotes(c: char)
    ensures IsBlank(c) <==> c in BLANKS
    ensures IsQuote(c) <==> c in QUOTES
  {
    assert BLANKS == [' ', '\t', '\n', '\U{000B}', '\U{000C}', '\r'] && QUOTES == ['"', '\''];
  }

  predicate IsWord(w: string)
  {
    w != "" && (forall i :: 0 <= i < |w| ==> w[i] !in BLANKS) && w[0] !in QUOTES
  }

  lemma WordIsProper(w: string)
    requires IsWord(w)
    ensures Proper(Bare(w))
  {
    forall i | 0 <= i < |w|
      ensures !IsBlank(w[i])
    {
      BlanksAndQuotes(w[i]);
    }
    BlanksAndQuotes(w[0]);
  }

  /** Two words with any blank character between them are two tokens. */
  lemma BlankSeparates(v: string, c: char, w: string)
    requires IsWord(v) && IsWord(w) && c in BLANKS
    ensures Split(v + [c] + w) == Tokens(true, [v, w])
  {
    WordIsProper(v);
    WordIsProper(w);
    BlanksAndQuotes(c);
    var items := [Item("", Bare(v)), Item([c], Bare(w))];
    assert items[1..] == [Item([c], Bare(w))] && items[1..][1..] == [];
    assert Laid(items[1..], "", true);
    assert Print(items[1..], "") == [c] + w;
    assert Texts(items[1..]) == [w];
    assert Print(items, "") == v + [c] + w;
    SplitIff(v + [c] + w, Tokens(true, [v, w]));
  }

  /** A text in quotes of either kind is one token, whatever else is in it, and a quote that
      is not closed is told. */
  lemma QuotesHold(q: char, text: string)
    requires q in QUOTES && q !in text
    ensures Split([q] + text + [q]) == Tokens(true, [text])
    ensures Split([q] + text) == Tokens(false, [])
  {
    BlanksAndQuotes(q);
    var items := [Item("", Quoted(q, text))];
    assert items[1..] == [];
    assert Laid(items, "", true);
    assert Print(items, "") == [q] + text + [q];
    SplitIff([q] + text + [q], Tokens(true, [text]));
    assert OpensAt([q] + text, 0);
    assert Laid([], [q] + text, false);
    assert Print([], [q] + text) == [q] + text;
    SplitIff([q] + text, Tokens(false, []));
  }
}
