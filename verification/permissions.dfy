/** Nothing above the user's privilege, or of another mode, is run, listed or completed. */
module Permissions {
  import opened Commands
  import opened CommandLookup
  import opened Completion

  predicate Permitted(c: Command, u: User)
  {
    c.privilege <= u.privilege && (c.mode == 0 || c.mode == u.mode)
  }

  /** Permitted commands, one below the other, lead down to that callback. */
  ghost predicate Leads(commands: seq<Command>, u: User, name: string, callback: nat, depth: nat)
    decreases depth
  {
    exists c :: c in commands && LeadsBy(c, u, name, callback, depth)
  }

  ghost predicate LeadsBy(c: Command, u: User, name: string, callback: nat, depth: nat)
    decreases depth, 0
  {
    && Permitted(c, u)
    && if depth == 0 then c.name == name && c.callback.Some? && c.callback.value == callback
       else Leads(c.children, u, name, callback, depth - 1)
  }

  /** Permitted commands lead down to one of that name. */
  ghost predicate Names(commands: seq<Command>, u: User, name: string, depth: nat)
    decreases depth
  {
    exists c :: c in commands && NamesBy(c, u, name, depth)
  }

  ghost predicate NamesBy(c: Command, u: User, name: string, depth: nat)
    decreases depth, 0
  {
    Permitted(c, u) && if depth == 0 then c.name == name else Names(c.children, u, name, depth - 1)
  }

  /** The callback run, and the names listed as help, are below permitted commands. */
  ghost predicate ReachedFrom(commands: seq<Command>, o: Outcome, u: User)
  {
    && (o.Run? ==> Leads(commands, u, o.name, o.callback, o.depth))
    && (o.Help? ==> forall n :: n in o.names ==> Names(commands, u, n, o.depth))
  }

  lemma HelpIsPermitted(commands: seq<Command>, word: string, u: User, name: string)
    requires name in HelpNames(commands, word, u)
    ensures Names(commands, u, name, 0)
  {
    var i :| 0 <= i < |commands| && commands[i].name == name && Matches(commands[i], word, u);
    assert NamesBy(commands[i], u, name, 0);
  }

  /** What a command line leads to is reached by permitted commands alone. */
  lemma {:induction false} OnlyPermitted(commands: seq<Command>, words: seq<string>, u: User)
    ensures ReachedFrom(commands, Resolve(commands, words, u), u)
    decreases commands
  {
    if words != [] && words[0] != "" {
      var word := words[0];
      if AsksForHelp(word) {
        forall n | n in HelpNames(commands, word[..|word| - 1], u)
          ensures Names(commands, u, n, 0)
        {
          HelpIsPermitted(commands, word[..|word| - 1], u, n);
        }
      } else if i :| FirstMatch(commands, i, word, u) && !Contested(commands, word, u) {
        ResolveFirst(commands, i, words, u);
        var c := commands[i];
        hide Resolve;
        if c.children != [] && words[1..] != [] {
          OnlyPermitted(c.children, words[1..], u);
          Deepens(commands, c, Resolve(c.children, words[1..], u), u);
        } else if c.callback.Some? {
          assert LeadsBy(c, u, c.name, c.callback.value, 0);
        }
      }
    }
  }

  lemma Deepens(commands: seq<Command>, c: Command, o: Outcome, u: User)
    requires c in commands && Permitted(c, u)
    requires ReachedFrom(c.children, o, u)
    ensures ReachedFrom(commands, Deeper(o), u)
  {
    if o.Run? {
      assert LeadsBy(c, u, o.name, o.callback, o.depth + 1);
    } else if o.Help? {
      forall n | n in o.names
        ensures Names(commands, u, n, o.depth + 1)
      {
        assert NamesBy(c, u, n, o.depth + 1);
      }
    }
  }

  /** The names offered for completion are those of permitted commands too. */
  lemma {:induction false} OffersPermitted(commands: seq<Command>, word: string, rest: seq<string>, u: User, name: string)
    requires name in OptionsFor(commands, word, rest, u)
    ensures exists depth: nat :: Names(commands, u, name, depth)
    decreases commands
  {
    if word == "" || Contested(commands, word, u) {
      var i :| 0 <= i < |commands| && Matches(commands[i], word, u) && commands[i].name == name;
      assert NamesBy(commands[i], u, name, 0);
      assert Names(commands, u, name, 0);
    } else {
      var c := commands[FirstIndex(commands, word, u)];
      OffersPermitted(c.children, rest[0], rest[1..], u, name);
      var depth: nat :| Names(c.children, u, name, depth);
      assert NamesBy(c, u, name, depth + 1);
      assert Names(commands, u, name, depth + 1);
    }
  }

  /** And so are the names that a completed line spells out. */
  ghost predicate AllPermitted(commands: seq<Command>, names: seq<string>, u: User)
    decreases |names|
  {
    names == [] || exists c :: c in commands && FirstPermitted(c, names, u)
  }

  ghost predicate FirstPermitted(c: Command, names: seq<string>, u: User)
    requires names != []
    decreases |names|, 0
  {
    Permitted(c, u) && c.name == names[0] && AllPermitted(c.children, names[1..], u)
  }

  lemma {:induction false} SpellsPermitted(commands: seq<Command>, words: seq<string>, u: User)
    requires Path(commands, words, u)
    ensures AllPermitted(commands, FullNames(commands, words, u), u)
    decreases |words|
  {
    var c := commands[PathHead(commands, words, u)];
    var names := FullNames(commands, words, u);
    if |words| > 1 {
      SpellsPermitted(c.children, words[1..], u);
      assert names[1..] == FullNames(c.children, words[1..], u);
    } else {
      assert names[1..] == [];
    }
    assert FirstPermitted(c, names, u);
  }

  // ---------------------------------------------------------------------
  // Words

  predicate Helps(c: Command, word: string, u: User, name: string)
  {
    Permitted(c, u) && word <= c.name && c.name == name && (c.callback.Some? || c.children != [])
  }

  predicate Listed(o: Outcome, name: string)
  {
    o.Help? && name in o.names
  }

  predicate HelpedBy(commands: seq<Command>, word: string, u: User, name: string)
  {
    exists c :: c in commands && Helps(c, word, u, name)
  }

  /** A word with a question mark behind it lists the permitted commands that do something and
      whose names it begins, and runs nothing. */
  lemma QuestionMarkHelps(commands: seq<Command>, word: string, rest: seq<string>, u: User)
    ensures var o := Resolve(commands, [word + "?"] + rest, u);
      && (o.NoHelp? || (o.Help? && o.depth == 0))
      && forall n :: Listed(o, n) <==> HelpedBy(commands, word, u, n)
  {
    var w := word + "?";
    assert w != "" && w[|w| - 1] == '?' && w[..|w| - 1] == word;
    assert ([w] + rest)[0] == w && AsksForHelp(w);
    var o, names := Resolve(commands, [w] + rest, u), HelpNames(commands, word, u);
    assert o == HelpOn(commands, word, u);
    forall n
      ensures Listed(o, n) <==> HelpedBy(commands, word, u, n)
    {
      assert Listed(o, n) <==> n in names;
      if n in names {
        var i :| 0 <= i < |commands| && commands[i].name == n && Matches(commands[i], word, u)
          && (commands[i].callback.Some? || commands[i].children != []);
        assert commands[i] in commands && Helps(commands[i], word, u, n);
      }
      if c :| c in commands && Helps(c, word, u, n) {
        var i :| 0 <= i < |commands| && commands[i] == c;
        assert Matches(commands[i], word, u);
      }
    }
  }

  /** No question mark, and something in front of it. */
  predicate IsName(word: string)
  {
    word != "" && word[|word| - 1] != '?'
  }

  /** A word that begins the name of one permitted command alone runs it, or goes on below it. */
  lemma PrefixSelects(commands: seq<Command>, i: nat, word: string, rest: seq<string>, u: User)
    requires IsName(word) && i < |commands| && Permitted(commands[i], u) && word <= commands[i].name
    requires forall j :: 0 <= j < |commands| && j != i ==> !(Permitted(commands[j], u) && word <= commands[j].name)
    ensures var c, o := commands[i], Resolve(commands, [word] + rest, u);
      if c.children != [] && rest != [] then o == Deeper(Resolve(c.children, rest, u))
      else if c.callback.Some? then o == Run(c.name, c.callback.value, rest, 0)
      else o == Incomplete
  {
    var words := [word] + rest;
    assert words[0] == word && words[1..] == rest;
    assert FirstMatch(commands, i, word, u);
    assert !Contested(commands, word, u);
    ResolveFirst(commands, i, words, u);
  }

  /** One that begins two different names is ambiguous, and one that begins none is unknown. */
  lemma PrefixFails(commands: seq<Command>, word: string, rest: seq<string>, u: User)
    requires IsName(word)
    ensures (exists c, d :: && c in commands && d in commands && c.name != d.name
                            && Permitted(c, u) && Permitted(d, u) && word <= c.name && word <= d.name) ==>
      Resolve(commands, [word] + rest, u) == Ambiguous
    ensures (forall c :: c in commands && Permitted(c, u) ==> !(word <= c.name)) ==>
      Resolve(commands, [word] + rest, u) == Unknown
  {
    var words := [word] + rest;
    assert words[0] == word;
    if c, d :| && c in commands && d in commands && c.name != d.name
               && Permitted(c, u) && Permitted(d, u) && word <= c.name && word <= d.name {
      var i :| 0 <= i < |commands| && commands[i] == c;
      var j :| 0 <= j < |commands| && commands[j] == d;
      assert Matches(commands[i], word, u) && Matches(commands[j], word, u);
      if !exists k :: FirstMatch(commands, k, word, u) {
        FirstMatchExists(commands, word, u);
        assert false;
      }
      var k :| FirstMatch(commands, k, word, u);
      ResolveContested(commands, k, words, u);
    }
    if forall c :: c in commands && Permitted(c, u) ==> !(word <= c.name) {
      forall k | 0 <= k < |commands|
        ensures !Matches(commands[k], word, u)
      {
        assert commands[k] in commands;
      }
      ResolveNone(commands, words, u);
    }
  }
}
