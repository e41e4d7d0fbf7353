/** Finding and running a command by abbreviated words. */
module CommandLookup {
  import opened Commands

  /** What a command line leads to. Results of callbacks and of asking for help travel up
      `depth` levels of the tree. */
  datatype Outcome =
    | NoWords
    | EmptyWord
    | Help(names: seq<string>, depth: nat)
    | NoHelp
    | Unknown
    | Ambiguous
    | Incomplete
    | Run(name: string, callback: nat, args: seq<string>, depth: nat)

  /** The return codes that matter here. Asking for help is a special event, which counts as
      success when it comes from below the top level. */
  datatype Result = Ok | ErrorAny | UnknownCommand | Other | Undefined | Further(code: nat)

  /** What the callbacks return, for the name of the command and its arguments. */
  type Callbacks = (nat, string, seq<string>) -> Result

  function ResultOf(o: Outcome, call: Callbacks): Result
  {
    match o
    case NoWords => ErrorAny
    case EmptyWord => Undefined
    case Help(_, depth) => if depth > 0 then Ok else Other
    case NoHelp => ErrorAny
    case Unknown => UnknownCommand
    case Ambiguous => ErrorAny
    case Incomplete => ErrorAny
    case Run(name, callback, args, depth) =>
      var returned := call(callback, name, args);
      if depth > 0 && returned == Other then Ok else returned
  }

  function Deeper(o: Outcome): Outcome
  {
    match o
    case Help(names, depth) => Help(names, depth + 1)
    case Run(name, callback, args, depth) => Run(name, callback, args, depth + 1)
    case _ => o
  }

  predicate AsksForHelp(word: string)
  {
    word != "" && word[|word| - 1] == '?'
  }

  predicate Matches(c: Command, word: string, u: User)
  {
    Visible(c, u) && word <= c.name
  }

  /** The names that `word` begins, of commands that do something. */
  function HelpNames(commands: seq<Command>, word: string, u: User): (names: seq<string>)
    ensures forall n :: n in names <==>
      exists i :: 0 <= i < |commands| && commands[i].name == n && Matches(commands[i], word, u)
               && (commands[i].callback.Some? || commands[i].children != [])
  {
    if commands == [] then []
    else
      var front, c := commands[..|commands| - 1], commands[|commands| - 1];
      var names := HelpNames(front, word, u);
      if Matches(c, word, u) && (c.callback.Some? || c.children != []) then names + [c.name] else names
  }

  function HelpOn(commands: seq<Command>, word: string, u: User): Outcome
  {
    var names := HelpNames(commands, word, u);
    if names == [] then NoHelp else Help(names, 0)
  }

  /** The search as it goes through the list, with the index. */
  function Find(commands: seq<Command>, words: seq<string>, u: User): Outcome
    decreases commands, 1, 0
  {
    if words == [] then NoWords
    else if words[0] == "" then EmptyWord
    else if AsksForHelp(words[0]) then HelpOn(commands, words[0][..|words[0]| - 1], u)
    else Scan(commands, 0, words[0], words[1..], u)
  }

  function Scan(commands: seq<Command>, i: nat, word: string, rest: seq<string>, u: User): Outcome
    requires i <= |commands|
    decreases commands, 0, |commands| - i
  {
    if i == |commands| then Unknown
    else if !Matches(commands[i], word, u) then Scan(commands, i + 1, word, rest, u)
    else if |word| < commands[i].uniqueLen then Ambiguous
    else
      var c := commands[i];
      if c.children != [] && rest != [] then Deeper(Find(c.children, rest, u))
      else if c.callback.None? then Incomplete
      else Run(c.name, c.callback.value, rest, 0)
  }

  method ListHelp(commands: seq<Command>, word: string, u: User) returns (o: Outcome, code: Result)
    ensures o == HelpOn(commands, word, u) && code == if o == NoHelp then ErrorAny else Other
  {
    var names: seq<string> := [];
    var i := 0;
    while i < |commands|
      invariant i <= |commands| && names == HelpNames(commands[..i], word, u)
    {
      var c := commands[i];
      assert commands[..i + 1][..i] == commands[..i];
      if word <= c.name && (c.callback.Some? || c.children != [])
        && u.privilege >= c.privilege && (c.mode == u.mode || c.mode == ANY) {
        names := names + [c.name];
      }
      i := i + 1;
    }
    assert commands[..i] == commands;
    if names == [] { return NoHelp, ErrorAny; }
    return Help(names, 0), Other;
  }

  /** What a command line leads to, and the code returned. */
  method FindCommand(commands: seq<Command>, words: seq<string>, u: User, call: Callbacks)
      returns (o: Outcome, code: Result)
    ensures o == Find(commands, words, u) && code == ResultOf(o, call)
    decreases commands
  {
    if |words| == 0 { return NoWords, ErrorAny; }
    var word, rest := words[0], words[1..];
    if |word| == 0 { return EmptyWord, Undefined; }
    if word[|word| - 1] == '?' {
      o, code := ListHelp(commands, word[..|word| - 1], u);
      return;
    }
    var i := 0;
    while i < |commands|
      invariant i <= |commands| && Find(commands, words, u) == Scan(commands, i, word, rest, u)
    {
      var c := commands[i];
      i := i + 1;
      if c.privilege > u.privilege { continue; }
      if c.mode != ANY && c.mode != u.mode { continue; }
      if !(word <= c.name) { continue; }
      if |word| < c.uniqueLen { return Ambiguous, ErrorAny; }
      if |c.children| > 0 && |rest| > 0 {
        o, code := FindCommand(c.children, rest, u, call);
        if code == Other { code := Ok; }
        return Deeper(o), code;
      }
      if c.callback.None? { return Incomplete, ErrorAny; }
      return Run(c.name, c.callback.value, rest, 0), call(c.callback.value, c.name, rest);
    }
    return Unknown, UnknownCommand;
  }

  /** Two matching commands with different names. */
  ghost predicate Contested(commands: seq<Command>, word: string, u: User)
  {
    exists i, j :: 0 <= i < |commands| && 0 <= j < |commands|
      && Matches(commands[i], word, u) && Matches(commands[j], word, u) && commands[i].name != commands[j].name
  }

  ghost predicate FirstMatch(commands: seq<Command>, i: int, word: string, u: User)
  {
    && 0 <= i < |commands| && Matches(commands[i], word, u)
    && forall k :: 0 <= k < i ==> !Matches(commands[k], word, u)
  }

  /** What a command line means, by prefixes alone: a word selects a command when it
      begins the name of no other command that the user can see. */
  ghost function Resolve(commands: seq<Command>, words: seq<string>, u: User): Outcome
    decreases commands
  {
    if words == [] then NoWords
    else if words[0] == "" then EmptyWord
    else if AsksForHelp(words[0]) then HelpOn(commands, words[0][..|words[0]| - 1], u)
    else if !exists i :: FirstMatch(commands, i, words[0], u) then Unknown
    else if Contested(commands, words[0], u) then Ambiguous
    else
      var i :| FirstMatch(commands, i, words[0], u);
      var c, rest := commands[i], words[1..];
      if c.children != [] && rest != [] then Deeper(Resolve(c.children, rest, u))
      else if c.callback.None? then Incomplete
      else Run(c.name, c.callback.value, rest, 0)
  }

  /** The index tells a contested word. */
  lemma {:induction false} IndexTellsContested(commands: seq<Command>, i: int, word: string, u: User)
    requires Indexed(commands, u) && FirstMatch(commands, i, word, u) && word != ""
    ensures |word| < commands[i].uniqueLen <==> Contested(commands, word, u)
  {
    var c := commands[i];
    if |word| < c.uniqueLen {
      var j :| 0 <= j < |commands| && Rivals(c, commands[j], u) && Shared(c.name, commands[j].name) + 1 == c.uniqueLen;
      SharedPrefix(word, c.name, commands[j].name);
      assert Matches(commands[j], word, u);
    }
    if Contested(commands, word, u) {
      var a, b :| 0 <= a < |commands| && 0 <= b < |commands|
        && Matches(commands[a], word, u) && Matches(commands[b], word, u) && commands[a].name != commands[b].name;
      var j := if commands[a].name != c.name then a else b;
      assert Rivals(c, commands[j], u);
      SharedPrefix(word, c.name, commands[j].name);
    }
  }

  /** Finding a command by the index is resolving it by prefixes, at every level. */
  lemma {:induction false} FindResolves(commands: seq<Command>, words: seq<string>, u: User)
    requires Indexed(commands, u)
    ensures Find(commands, words, u) == Resolve(commands, words, u)
    decreases commands, 1, 0
  {
    if words != [] && words[0] != "" && !AsksForHelp(words[0]) {
      ScanResolves(commands, 0, words, u);
    }
  }

  /** Running the command that was found, or going on below it. */
  lemma ResolveFirst(commands: seq<Command>, i: int, words: seq<string>, u: User)
    requires words != [] && words[0] != "" && !AsksForHelp(words[0])
    requires FirstMatch(commands, i, words[0], u) && !Contested(commands, words[0], u)
    ensures var c, rest := commands[i], words[1..];
      Resolve(commands, words, u) ==
        if c.children != [] && rest != [] then Deeper(Resolve(c.children, rest, u))
        else if c.callback.None? then Incomplete
        else Run(c.name, c.callback.value, rest, 0)
  {
    hide Matches;
  }

  lemma ResolveNone(commands: seq<Command>, words: seq<string>, u: User)
    requires words != [] && words[0] != "" && !AsksForHelp(words[0])
    requires forall k :: 0 <= k < |commands| ==> !Matches(commands[k], words[0], u)
    ensures Resolve(commands, words, u) == Unknown
  {
  }

  lemma ResolveContested(commands: seq<Command>, i: int, words: seq<string>, u: User)
    requires words != [] && words[0] != "" && !AsksForHelp(words[0])
    requires FirstMatch(commands, i, words[0], u) && Contested(commands, words[0], u)
    ensures Resolve(commands, words, u) == Ambiguous
  {
    hide Matches;
  }

  lemma IndexedBelow(commands: seq<Command>, i: nat, u: User)
    requires Indexed(commands, u) && i < |commands| && Visible(commands[i], u)
    ensures Indexed(commands[i].children, u)
  {
  }

  lemma {:induction false} ScanResolves(commands: seq<Command>, i: nat, words: seq<string>, u: User)
    requires Indexed(commands, u) && i <= |commands|
    requires words != [] && words[0] != "" && !AsksForHelp(words[0])
    requires forall k :: 0 <= k < i ==> !Matches(commands[k], words[0], u)
    ensures Scan(commands, i, words[0], words[1..], u) == Resolve(commands, words, u)
    decreases commands, 0, |commands| - i
  {
    hide Resolve, Indexed, Contested, Find;
    if i == |commands| {
      ResolveNone(commands, words, u);
    } else if !Matches(commands[i], words[0], u) {
      ScanResolves(commands, i + 1, words, u);
    } else {
      assert FirstMatch(commands, i, words[0], u);
      IndexTellsContested(commands, i, words[0], u);
      IndexedBelow(commands, i, u);
      if Contested(commands, words[0], u) {
        ResolveContested(commands, i, words, u);
      } else {
        ResolveFirst(commands, i, words, u);
        if commands[i].children != [] && words[1..] != [] {
          FindResolves(commands[i].children, words[1..], u);
        }
      }
    }
  }

  /** The word selects this command's name and no other. */
  ghost predicate Selects(commands: seq<Command>, i: nat, word: string, u: User)
    requires i < |commands|
  {
    word != "" && !AsksForHelp(word) && Matches(commands[i], word, u) && !Contested(commands, word, u)
  }

  lemma ContestedHasRival(commands: seq<Command>, i: nat, word: string, u: User)
    requires i < |commands|
    ensures Contested(commands, word, u) ==>
      exists j :: 0 <= j < |commands| && Rivals(commands[i], commands[j], u) && word <= commands[j].name
  {
    if Contested(commands, word, u) {
      var a, b :| 0 <= a < |commands| && 0 <= b < |commands|
        && Matches(commands[a], word, u) && Matches(commands[b], word, u) && commands[a].name != commands[b].name;
      var j := if commands[a].name != commands[i].name then a else b;
      assert Rivals(commands[i], commands[j], u);
    }
  }

  /** A command can be selected at all exactly when its name does not begin the name of a
      differently named command that the user can see: a name in full is no better than
      an abbreviation. */
  lemma SelectableIff(commands: seq<Command>, i: nat, u: User)
    requires i < |commands| && Visible(commands[i], u)
    requires commands[i].name != "" && !AsksForHelp(commands[i].name)
    ensures (exists word :: Selects(commands, i, word, u)) <==>
      forall j :: 0 <= j < |commands| && Rivals(commands[i], commands[j], u) ==> !(commands[i].name <= commands[j].name)
  {
    var name := commands[i].name;
    if word :| Selects(commands, i, word, u) {
      forall j | 0 <= j < |commands| && Rivals(commands[i], commands[j], u)
        ensures !(name <= commands[j].name)
      {
        if name <= commands[j].name {
          assert word <= name <= commands[j].name;
          assert Matches(commands[j], word, u);
        }
      }
    }
    if forall j :: 0 <= j < |commands| && Rivals(commands[i], commands[j], u) ==> !(name <= commands[j].name) {
      ContestedHasRival(commands, i, name, u);
      assert Selects(commands, i, name, u);
    }
  }

  lemma SameMatches(a: seq<Command>, b: seq<Command>, word: string, u: User)
    requires SameTree(a, b)
    ensures forall i :: 0 <= i < |a| ==> (Matches(a[i], word, u) <==> Matches(b[i], word, u))
  {
    assert forall i :: 0 <= i < |a| ==> SameCommand(a[i], b[i]);
  }

  lemma SameSize(c: Command, d: Command)
    requires SameCommand(c, d)
    ensures c.callback == d.callback && c.name == d.name
    ensures SameTree(c.children, d.children) && |c.children| == |d.children|
  {
    assert SameTree(c.children, d.children);
  }

  lemma {:induction false} SameHelp(a: seq<Command>, b: seq<Command>, word: string, u: User)
    requires SameTree(a, b)
    ensures HelpNames(a, word, u) == HelpNames(b, word, u)
  {
    if a != [] {
      var n := |a| - 1;
      forall i | 0 <= i < n
        ensures SameCommand(a[..n][i], b[..n][i])
      {
        assert SameCommand(a[i], b[i]);
      }
      SameHelp(a[..n], b[..n], word, u);
      assert SameCommand(a[n], b[n]);
      SameSize(a[n], b[n]);
    }
  }

  /** What a command line means does not depend on the index. */
  lemma {:induction false} ResolveIgnoresIndex(a: seq<Command>, b: seq<Command>, words: seq<string>, u: User)
    requires SameTree(a, b)
    ensures Resolve(a, words, u) == Resolve(b, words, u)
    decreases a
  {
    if words != [] && words[0] != "" {
      var word := words[0];
      SameHelp(a, b, word[..|word| - 1], u);
      SameMatches(a, b, word, u);
      assert forall i :: 0 <= i < |a| ==> SameCommand(a[i], b[i]);
      assert forall i :: FirstMatch(a, i, word, u) <==> FirstMatch(b, i, word, u);
      assert Contested(a, word, u) <==> Contested(b, word, u);
      if i :| FirstMatch(a, i, word, u) {
        assert FirstMatch(b, i, word, u) && SameCommand(a[i], b[i]);
        SameSize(a[i], b[i]);
        if a[i].children != [] && words[1..] != [] {
          ResolveIgnoresIndex(a[i].children, b[i].children, words[1..], u);
        }
      }
    }
  }

  /** The command line interface: its commands and who is using it. */
  class Cli {
    var commands: seq<Command>
    var privilege: int
    var mode: int
    var modeString: string

    function Account(): User
      reads this
    {
      User(privilege, mode)
    }

    predicate Valid()
      reads this
    {
      Indexed(commands, Account())
    }

    constructor (commands: seq<Command>)
      ensures Valid() && SameTree(this.commands, commands) && privilege == 0 && mode == 1
    {
      var built := BuildShortest(commands, User(0, 1));
      this.commands := built;
      privilege, mode, modeString := 0, 1, "";
    }

    method SetPrivilege(level: int) returns (was: int)
      requires Valid()
      modifies this
      ensures Valid() && SameTree(commands, old(commands))
      ensures was == old(privilege) && privilege == level
      ensures mode == old(mode) && modeString == old(modeString)
      ensures level == was ==> commands == old(commands)
    {
      was := privilege;
      privilege := level;
      SameTreeRefl(commands);
      if level != was {
        commands := BuildShortest(commands, Account());
      }
    }

    method SetMode(newMode: int, desc: string) returns (was: int)
      requires Valid()
      modifies this
      ensures Valid() && SameTree(commands, old(commands))
      ensures was == old(mode) && mode == newMode && privilege == old(privilege)
      ensures newMode == was ==> commands == old(commands) && modeString == old(modeString)
      ensures newMode != was ==> modeString == if desc == "" then "" else "(" + desc + ")"
    {
      was := mode;
      mode := newMode;
      SameTreeRefl(commands);
      if newMode != was {
        modeString := "";
        if desc != "" { modeString := "(" + desc + ")"; }
        commands := BuildShortest(commands, Account());
      }
    }

    method Execute(words: seq<string>, call: Callbacks) returns (o: Outcome, code: Result)
      requires Valid()
      ensures o == Resolve(commands, words, Account()) && code == ResultOf(o, call)
    {
      o, code := FindCommand(commands, words, Account(), call);
      FindResolves(commands, words, Account());
    }
  }
}
