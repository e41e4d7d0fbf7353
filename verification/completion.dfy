/** Completing abbreviated words. */
module Completion {
  import opened Commands
  import opened CommandLookup
  import T = Tokenizer

  /** The words, each followed by a blank. */
  function Spell(words: seq<string>): string
  {
    if words == [] then "" else words[0] + " " + Spell(words[1..])
  }

  function Complete(commands: seq<Command>, words: seq<string>, u: User): string
    decreases commands, 1, 0
  {
    if words == [] then CompleteFrom(commands, 0, "", [], false, u)
    else CompleteFrom(commands, 0, words[0], words[1..], false, u)
  }

  function CompleteFrom(commands: seq<Command>, i: nat, word: string, rest: seq<string>, ambiguous: bool, u: User): string
    requires i <= |commands|
    decreases commands, 0, |commands| - i
  {
    if i == |commands| then word + Spell(rest)
    else if !Matches(commands[i], word, u) then CompleteFrom(commands, i + 1, word, rest, ambiguous, u)
    else if |word| < commands[i].uniqueLen then CompleteFrom(commands, i + 1, word, rest, true, u)
    else if ambiguous then ""
    else
      var c := commands[i];
      c.name + " " + if c.children != [] && rest != [] then Complete(c.children, rest, u) else ""
  }

  /** The names listed while completing, below unambiguous words too. */
  function Listing(commands: seq<Command>, words: seq<string>, u: User): seq<string>
    decreases commands, 1, 0
  {
    if words == [] then ListingFrom(commands, 0, "", [], false, u)
    else ListingFrom(commands, 0, words[0], words[1..], false, u)
  }

  function ListingFrom(commands: seq<Command>, i: nat, word: string, rest: seq<string>, ambiguous: bool, u: User): seq<string>
    requires i <= |commands|
    decreases commands, 0, |commands| - i
  {
    if i == |commands| then []
    else if !Matches(commands[i], word, u) then ListingFrom(commands, i + 1, word, rest, ambiguous, u)
    else if |word| < commands[i].uniqueLen then [commands[i].name] + ListingFrom(commands, i + 1, word, rest, true, u)
    else if !ambiguous && commands[i].children != [] && rest != [] then Listing(commands[i].children, rest, u)
    else []
  }

  /** The words joined behind the first one, which no blank follows. */
  method JoinWords(word: string, rest: seq<string>) returns (line: string)
    ensures line == word + Spell(rest)
  {
    line := word;
    var k := 0;
    while k < |rest|
      invariant k <= |rest| && line + Spell(rest[k..]) == word + Spell(rest)
    {
      assert rest[k..][1..] == rest[k + 1..];
      line := line + rest[k] + " ";
      k := k + 1;
    }
  }

  /** The completed line, and the names listed for the user because a word is ambiguous. */
  method GetCompletions(commands: seq<Command>, words: seq<string>, u: User)
      returns (line: string, listed: seq<string>)
    ensures line == Complete(commands, words, u) && listed == Listing(commands, words, u)
    decreases commands
  {
    var word, rest := "", words;
    if |words| > 0 { word, rest := words[0], words[1..]; }
    listed := [];
    var ambiguous, i := false, 0;
    while i < |commands|
      invariant i <= |commands|
      invariant Complete(commands, words, u) == CompleteFrom(commands, i, word, rest, ambiguous, u)
      invariant Listing(commands, words, u) == listed + ListingFrom(commands, i, word, rest, ambiguous, u)
      invariant ambiguous <==> listed != []
    {
      var c := commands[i];
      i := i + 1;
      if c.privilege > u.privilege { continue; }
      if c.mode != ANY && c.mode != u.mode { continue; }
      if !(word <= c.name) { continue; }
      if |word| < c.uniqueLen {
        listed := listed + [c.name];
        ambiguous := true;
        continue;
      }
      if ambiguous { return "", listed; }
      line := c.name + " ";
      if |c.children| > 0 && |rest| > 0 {
        var more;
        more, listed := GetCompletions(c.children, rest, u);
        line := line + more;
      }
      return;
    }
    line := JoinWords(word, rest);
  }

  /** The names that a word begins, in list order. */
  function NamesFrom(commands: seq<Command>, i: nat, word: string, u: User): (names: seq<string>)
    requires i <= |commands|
    ensures forall n :: n in names <==> exists k :: i <= k < |commands| && Matches(commands[k], word, u) && commands[k].name == n
    decreases |commands| - i
  {
    if i == |commands| then []
    else
      var rest := NamesFrom(commands, i + 1, word, u);
      if Matches(commands[i], word, u) then [commands[i].name] + rest else rest
  }

  ghost function FirstIndex(commands: seq<Command>, word: string, u: User): (i: int)
    requires exists i :: FirstMatch(commands, i, word, u)
    ensures FirstMatch(commands, i, word, u)
  {
    var i :| FirstMatch(commands, i, word, u); i
  }

  /** What the user is offered: all names that the first ambiguous word begins. */
  ghost function Options(commands: seq<Command>, words: seq<string>, u: User): seq<string>
  {
    if words == [] then OptionsFor(commands, "", [], u) else OptionsFor(commands, words[0], words[1..], u)
  }

  ghost function OptionsFor(commands: seq<Command>, word: string, rest: seq<string>, u: User): seq<string>
    decreases commands
  {
    if word == "" || Contested(commands, word, u) then NamesFrom(commands, 0, word, u)
    else if exists i :: FirstMatch(commands, i, word, u) then
      var c := commands[FirstIndex(commands, word, u)];
      if c.children != [] && rest != [] then OptionsFor(c.children, rest[0], rest[1..], u) else []
    else []
  }

  /** Each word begins the name of just one command at its level, and the words go no
      deeper than the tree. */
  ghost predicate Path(commands: seq<Command>, words: seq<string>, u: User)
    decreases |words|
  {
    && words != [] && words[0] != "" && !AsksForHelp(words[0])
    && !Contested(commands, words[0], u)
    && exists i :: FirstMatch(commands, i, words[0], u)
         && (|words| > 1 ==> commands[i].children != [] && Path(commands[i].children, words[1..], u))
  }

  ghost function PathHead(commands: seq<Command>, words: seq<string>, u: User): (i: int)
    requires Path(commands, words, u)
    ensures FirstMatch(commands, i, words[0], u)
    ensures |words| > 1 ==> commands[i].children != [] && Path(commands[i].children, words[1..], u)
  {
    var i :| FirstMatch(commands, i, words[0], u)
         && (|words| > 1 ==> commands[i].children != [] && Path(commands[i].children, words[1..], u));
    i
  }

  /** The names that the words abbreviate. */
  ghost function FullNames(commands: seq<Command>, words: seq<string>, u: User): (names: seq<string>)
    requires Path(commands, words, u)
    ensures |names| == |words|
    decreases |words|
  {
    var c := commands[PathHead(commands, words, u)];
    [c.name] + if |words| > 1 then FullNames(c.children, words[1..], u) else []
  }

  predicate PlainName(name: string)
  {
    T.Proper(T.Bare(name)) && !AsksForHelp(name)
  }

  predicate PlainNames(names: seq<string>)
  {
    forall i :: 0 <= i < |names| ==> PlainName(names[i])
  }

  lemma {:induction false} CompleteFromFirst(commands: seq<Command>, i: nat, k: nat, word: string, rest: seq<string>, u: User)
    requires Indexed(commands, u) && FirstMatch(commands, k, word, u) && i <= k
    requires word != "" && !Contested(commands, word, u)
    ensures CompleteFrom(commands, i, word, rest, false, u) == CompleteFrom(commands, k, word, rest, false, u)
    ensures commands[k].uniqueLen <= |word|
    decreases k - i
  {
    IndexTellsContested(commands, k, word, u);
    if i < k {
      CompleteFromFirst(commands, i + 1, k, word, rest, u);
    }
  }

  /** The completion spells out the full names. */
  lemma {:induction false} CompletionSpells(commands: seq<Command>, words: seq<string>, u: User)
    requires Indexed(commands, u) && Path(commands, words, u)
    ensures Complete(commands, words, u) == Spell(FullNames(commands, words, u))
    decreases |words|
  {
    var k := PathHead(commands, words, u);
    CompleteFromFirst(commands, 0, k, words[0], words[1..], u);
    if |words| > 1 {
      CompletionSpells(commands[k].children, words[1..], u);
    }
  }

  /** All commands that an ambiguous word begins have longer unique lengths. */
  lemma AmbiguousIsShort(commands: seq<Command>, i: nat, word: string, u: User)
    requires Indexed(commands, u) && i < |commands| && Matches(commands[i], word, u)
    requires word == "" || Contested(commands, word, u)
    ensures |word| < commands[i].uniqueLen
  {
    if word != "" {
      ContestedHasRival(commands, i, word, u);
      var j :| 0 <= j < |commands| && Rivals(commands[i], commands[j], u) && word <= commands[j].name;
      SharedPrefix(word, commands[i].name, commands[j].name);
    }
  }

  lemma {:induction false} AmbiguousListed(commands: seq<Command>, i: nat, word: string, rest: seq<string>, ambiguous: bool, u: User)
    requires Indexed(commands, u) && i <= |commands| && (word == "" || Contested(commands, word, u))
    ensures ListingFrom(commands, i, word, rest, ambiguous, u) == NamesFrom(commands, i, word, u)
    ensures CompleteFrom(commands, i, word, rest, ambiguous, u) == word + Spell(rest)
    decreases |commands| - i
  {
    if i < |commands| {
      if Matches(commands[i], word, u) {
        AmbiguousIsShort(commands, i, word, u);
        AmbiguousListed(commands, i + 1, word, rest, true, u);
      } else {
        AmbiguousListed(commands, i + 1, word, rest, ambiguous, u);
      }
    }
  }

  lemma {:induction false} ListingSkips(commands: seq<Command>, i: nat, k: nat, word: string, rest: seq<string>, u: User)
    requires i <= k <= |commands| && forall j :: i <= j < k ==> !Matches(commands[j], word, u)
    ensures ListingFrom(commands, i, word, rest, false, u) == ListingFrom(commands, k, word, rest, false, u)
    decreases k - i
  {
    if i < k {
      ListingSkips(commands, i + 1, k, word, rest, u);
    }
  }

  lemma FirstMatchExists(commands: seq<Command>, word: string, u: User)
    requires !exists i :: FirstMatch(commands, i, word, u)
    ensures forall j :: 0 <= j < |commands| ==> !Matches(commands[j], word, u)
  {
    NoMatchBefore(commands, |commands|, word, u);
  }

  lemma {:induction false} NoMatchBefore(commands: seq<Command>, k: nat, word: string, u: User)
    requires k <= |commands| && !exists i :: FirstMatch(commands, i, word, u)
    ensures forall j :: 0 <= j < k ==> !Matches(commands[j], word, u)
  {
    if k > 0 {
      NoMatchBefore(commands, k - 1, word, u);
      assert !FirstMatch(commands, k - 1, word, u);
    }
  }

  lemma OptionsFirst(commands: seq<Command>, i: int, word: string, rest: seq<string>, u: User)
    requires word != "" && FirstMatch(commands, i, word, u) && !Contested(commands, word, u)
    ensures Options(commands, [word] + rest, u) ==
      if commands[i].children != [] && rest != [] then Options(commands[i].children, rest, u) else []
  {
    hide Matches, Contested;
    var words := [word] + rest;
    assert words[0] == word && words[1..] == rest;
    assert FirstIndex(commands, word, u) == i;
  }

  lemma ListingFirst(commands: seq<Command>, i: int, word: string, rest: seq<string>, u: User)
    requires Indexed(commands, u) && word != "" && FirstMatch(commands, i, word, u) && !Contested(commands, word, u)
    ensures Listing(commands, [word] + rest, u) ==
      if commands[i].children != [] && rest != [] then Listing(commands[i].children, rest, u) else []
  {
    assert ([word] + rest)[1..] == rest;
    ListingSkips(commands, 0, i, word, rest, u);
    IndexTellsContested(commands, i, word, u);
    hide Contested, Indexed;
  }

  lemma NothingListed(commands: seq<Command>, word: string, rest: seq<string>, u: User)
    requires word != "" && !Contested(commands, word, u) && !exists i :: FirstMatch(commands, i, word, u)
    ensures Listing(commands, [word] + rest, u) == [] == Options(commands, [word] + rest, u)
  {
    assert ([word] + rest)[1..] == rest;
    FirstMatchExists(commands, word, u);
    ListingSkips(commands, 0, |commands|, word, rest, u);
  }

  lemma AmbiguousOptions(commands: seq<Command>, words: seq<string>, u: User)
    requires Indexed(commands, u) && (words == [] || words[0] == "" || Contested(commands, words[0], u))
    ensures Listing(commands, words, u) == Options(commands, words, u)
    ensures words != [] ==> Complete(commands, words, u) == words[0] + Spell(words[1..])
  {
    hide Contested, Indexed, NamesFrom, ListingFrom, CompleteFrom;
    var word, rest := if words == [] then "" else words[0], if words == [] then [] else words[1..];
    AmbiguousListed(commands, 0, word, rest, false, u);
  }

  /** What is listed are all names that the first ambiguous word begins, and nothing when
      there is none; with an ambiguous first word the line stays, but for its blanks. */
  lemma {:induction false} ListingIsOptions(commands: seq<Command>, words: seq<string>, u: User)
    requires Indexed(commands, u)
    ensures Listing(commands, words, u) == Options(commands, words, u)
    ensures words != [] && (words[0] == "" || Contested(commands, words[0], u)) ==>
      Complete(commands, words, u) == words[0] + Spell(words[1..])
    decreases commands
  {
    hide Listing, Options, Indexed, Contested, Complete, Spell;
    if words == [] || words[0] == "" || Contested(commands, words[0], u) {
      AmbiguousOptions(commands, words, u);
    } else {
      var word, rest := words[0], words[1..];
      assert words == [word] + rest;
      if i :| FirstMatch(commands, i, word, u) {
        ListingFirst(commands, i, word, rest, u);
        OptionsFirst(commands, i, word, rest, u);
        IndexedBelow(commands, i, u);
        if commands[i].children != [] && rest != [] {
          ListingIsOptions(commands[i].children, rest, u);
        }
      } else {
        NothingListed(commands, word, rest, u);
      }
    }
  }

  /** One more name in front of names that are laid out with a blank before them. */
  lemma LaidBefore(name: string, gap: string, rest: seq<T.Item>)
    requires PlainName(name) && T.AllBlank(gap) && T.Laid(rest, " ", true)
    requires rest != [] ==> rest[0].gap == " "
    ensures var items := [T.Item(gap, T.Bare(name))] + rest;
      && T.Laid(items, " ", true)
      && T.Texts(items) == [name] + T.Texts(rest)
      && T.Print(items, " ") == gap + name + T.Print(rest, " ")
  {
    var items := [T.Item(gap, T.Bare(name))] + rest;
    assert items[1..] == rest;
  }

  /** Plain names spelled out are tokens again. */
  lemma {:induction false} SpellLaid(names: seq<string>, gap: string) returns (items: seq<T.Item>)
    requires PlainNames(names) && T.AllBlank(gap) && names != []
    ensures T.Laid(items, " ", true) && T.Texts(items) == names
    ensures T.Print(items, " ") == gap + Spell(names)
    ensures items != [] && items[0].gap == gap
  {
    hide T.Laid, T.AllBlank, PlainName;
    assert PlainName(names[0]);
    var rest: seq<T.Item> := [];
    BlankEnds();
    if |names| > 1 {
      rest := SpellLaid(names[1..], " ");
      assert gap + names[0] + (" " + Spell(names[1..])) == gap + (names[0] + " " + Spell(names[1..]));
    } else {
      assert gap + names[0] + " " == gap + (names[0] + " " + "");
    }
    LaidBefore(names[0], gap, rest);
    items := [T.Item(gap, T.Bare(names[0]))] + rest;
  }

  lemma BlankEnds()
    ensures T.AllBlank(" ") && T.Laid([], " ", true)
  {
  }

  lemma SplitSpell(names: seq<string>)
    requires PlainNames(names) && names != []
    ensures T.Split(Spell(names)) == T.Tokens(true, names)
  {
    var items := SpellLaid(names, "");
    assert T.Print(items, " ") == Spell(names);
    T.SplitIff(Spell(names), T.Tokens(true, names));
  }

  /** The full name is matched by the same commands as a word that abbreviates it alone. */
  lemma FullNameMatches(commands: seq<Command>, k: int, word: string, u: User)
    requires FirstMatch(commands, k, word, u) && !Contested(commands, word, u)
    ensures FirstMatch(commands, k, commands[k].name, u) && !Contested(commands, commands[k].name, u)
  {
    var name := commands[k].name;
    forall j | 0 <= j < |commands| && Matches(commands[j], name, u)
      ensures Matches(commands[j], word, u) && commands[j].name == name
    {
      assert word <= name <= commands[j].name;
    }
  }

  lemma {:induction false} FullNamesPath(commands: seq<Command>, words: seq<string>, u: User)
    requires Path(commands, words, u) && PlainNames(FullNames(commands, words, u))
    ensures Path(commands, FullNames(commands, words, u), u)
    ensures FullNames(commands, FullNames(commands, words, u), u) == FullNames(commands, words, u)
    decreases |words|
  {
    var k := PathHead(commands, words, u);
    var names := FullNames(commands, words, u);
    assert PlainName(names[0]);
    FullNameMatches(commands, k, words[0], u);
    if |words| > 1 {
      assert names[1..] == FullNames(commands[k].children, words[1..], u);
      assert PlainNames(names[1..]);
      FullNamesPath(commands[k].children, words[1..], u);
    }
    assert FirstMatch(commands, k, names[0], u)
      && (|names| > 1 ==> commands[k].children != [] && Path(commands[k].children, names[1..], u));
    assert PathHead(commands, names, u) == k;
  }

  lemma {:induction false} FullNamesResolve(commands: seq<Command>, words: seq<string>, u: User)
    requires Path(commands, words, u) && PlainNames(FullNames(commands, words, u))
    ensures Resolve(commands, FullNames(commands, words, u), u) == Resolve(commands, words, u)
    decreases |words|
  {
    var k := PathHead(commands, words, u);
    var names := FullNames(commands, words, u);
    assert PlainName(names[0]);
    FullNameMatches(commands, k, words[0], u);
    if |words| > 1 {
      assert names[1..] == FullNames(commands[k].children, words[1..], u);
      assert PlainNames(names[1..]);
      FullNamesResolve(commands[k].children, words[1..], u);
    }
  }

  /** A completed line means what the abbreviated words meant, and completing it again
      changes nothing. */
  lemma CompletionKeepsMeaning(commands: seq<Command>, words: seq<string>, u: User)
    requires Indexed(commands, u)
    requires Path(commands, words, u) && PlainNames(FullNames(commands, words, u))
    ensures var line := Complete(commands, words, u);
      var again := T.Split(line);
      && again == T.Tokens(true, FullNames(commands, words, u))
      && Find(commands, again.words, u) == Find(commands, words, u)
      && Complete(commands, again.words, u) == line
  {
    var names := FullNames(commands, words, u);
    CompletionSpells(commands, words, u);
    SplitSpell(names);
    FullNamesPath(commands, words, u);
    CompletionSpells(commands, names, u);
    FullNamesResolve(commands, words, u);
    FindResolves(commands, words, u);
    FindResolves(commands, names, u);
  }
}
