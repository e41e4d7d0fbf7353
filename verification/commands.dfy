/** The command tree of the command line interface: the abbreviation index, finding a
    command by abbreviated words, and completing such words. */
module Commands {
  import opened Wrappers

  const ANY: int := 0

  /** A command with the length from which on its name is told from all others. */
  datatype Command = Command(
    name: string,
    privilege: int,
    mode: int,
    callback: Option<nat>,
    children: seq<Command>,
    uniqueLen: nat)

  /** Who uses the command line: a privilege level and an operation mode. */
  datatype User = User(privilege: int, mode: int)

  predicate Visible(c: Command, u: User)
  {
    c.privilege <= u.privilege && (c.mode == ANY || c.mode == u.mode)
  }

  /** The length of the longest common prefix. */
  function Shared(a: string, b: string): (n: nat)
    ensures n <= |a| && n <= |b|
  {
    if a == "" || b == "" || a[0] != b[0] then 0 else 1 + Shared(a[1..], b[1..])
  }

  lemma {:induction false} SharedIs(a: string, b: string, k: nat)
    requires k <= |a| && k <= |b| && a[..k] == b[..k]
    requires k == |a| || k == |b| || a[k] != b[k]
    ensures Shared(a, b) == k
  {
    if k > 0 {
      assert a[0] == a[..k][0] == b[0];
      assert a[1..][..k - 1] == a[..k][1..] == b[1..][..k - 1];
      SharedIs(a[1..], b[1..], k - 1);
    }
  }

  /** A word that abbreviates one name abbreviates another exactly when the two share
      at least its length. */
  lemma {:induction false} SharedPrefix(word: string, a: string, b: string)
    requires word <= a
    ensures word <= b <==> |word| <= Shared(a, b)
  {
    if word != "" && b != "" && a[0] == b[0] {
      assert word[1..] <= a[1..];
      assert word <= b <==> word[1..] <= b[1..];
      SharedPrefix(word[1..], a[1..], b[1..]);
    }
  }

  /** Another visible command with a different name. */
  predicate Rivals(c: Command, p: Command, u: User)
  {
    Visible(p, u) && p.name != c.name
  }

  /** `n` is one more than what the name shares with any rival's among the first `k`. */
  predicate Longest(n: nat, c: Command, commands: seq<Command>, k: nat, u: User)
    requires k <= |commands|
  {
    && 1 <= n
    && (forall i :: 0 <= i < k && Rivals(c, commands[i], u) ==> Shared(c.name, commands[i].name) + 1 <= n)
    && (n == 1 || exists i :: 0 <= i < k && Rivals(c, commands[i], u) && Shared(c.name, commands[i].name) + 1 == n)
  }

  /** The index is right for what the user can see. */
  predicate Indexed(commands: seq<Command>, u: User)
  {
    forall i :: 0 <= i < |commands| && Visible(commands[i], u) ==>
      && Longest(commands[i].uniqueLen, commands[i], commands, |commands|, u)
      && Indexed(commands[i].children, u)
  }

  predicate SameCommand(c: Command, d: Command)
  {
    && c.name == d.name && c.privilege == d.privilege && c.mode == d.mode && c.callback == d.callback
    && SameTree(c.children, d.children)
  }

  /** The same commands, apart from the index. */
  predicate SameTree(a: seq<Command>, b: seq<Command>)
  {
    |a| == |b| && forall i :: 0 <= i < |a| ==> SameCommand(a[i], b[i])
  }

  lemma {:induction false} SameTreeRefl(a: seq<Command>)
    ensures SameTree(a, a)
  {
    forall i | 0 <= i < |a|
      ensures SameCommand(a[i], a[i])
    {
      SameTreeRefl(a[i].children);
    }
  }

  /** Comparing two names character by character. */
  method CountShared(a: string, b: string) returns (len: nat)
    ensures len == Shared(a, b) + 1
  {
    len := 1;
    var k := 0;
    while k < |a| && k < |b|
      invariant k <= |a| && k <= |b| && a[..k] == b[..k] && len == k + 1
    {
      if a[k] != b[k] { break; }
      assert a[..k + 1] == a[..k] + [a[k]] && b[..k + 1] == b[..k] + [b[k]];
      k := k + 1;
      len := len + 1;
    }
    SharedIs(a, b, k);
  }

  /** The unique length of one visible command. */
  method UniqueLength(c: Command, commands: seq<Command>, u: User) returns (uniqueLen: nat)
    ensures Longest(uniqueLen, c, commands, |commands|, u)
  {
    uniqueLen := 1;
    for j := 0 to |commands|
      invariant Longest(uniqueLen, c, commands, j, u)
    {
      var p := commands[j];
      if c.name == p.name { continue; }
      if p.mode != ANY && p.mode != u.mode { continue; }
      if p.privilege > u.privilege { continue; }
      assert Rivals(c, commands[j], u);
      var len := CountShared(c.name, p.name);
      if len > uniqueLen { uniqueLen := len; }
    }
  }

  predicate Built(c: Command, from: Command, commands: seq<Command>, u: User)
  {
    && SameCommand(c, from)
    && (Visible(from, u) ==> Longest(c.uniqueLen, from, commands, |commands|, u) && Indexed(c.children, u))
    && (!Visible(from, u) ==> c == from.(uniqueLen := |from.name|))
  }

  /** Computes the index for all commands the user can see. Commands out of sight keep
      the length of their name, and what is below them is left alone. */
  method BuildShortest(commands: seq<Command>, u: User) returns (built: seq<Command>)
    ensures SameTree(built, commands) && Indexed(built, u)
    ensures forall i :: 0 <= i < |built| && !Visible(commands[i], u) ==>
      built[i] == commands[i].(uniqueLen := |commands[i].name|)
    decreases commands
  {
    built := commands;
    var i := 0;
    while i < |built|
      invariant 0 <= i <= |built| == |commands|
      invariant forall k :: 0 <= k < i ==> Built(built[k], commands[k], commands, u)
      invariant forall k :: i <= k < |built| ==> built[k] == commands[k]
    {
      var c := built[i];
      SameTreeRefl(c.children);
      if c.privilege > u.privilege || (c.mode != ANY && c.mode != u.mode) {
        built := built[i := c.(uniqueLen := |c.name|)];
      } else {
        var n := UniqueLength(c, commands, u);
        c := c.(uniqueLen := n);
        if |c.children| > 0 {
          var children := BuildShortest(c.children, u);
          c := c.(children := children);
        }
        built := built[i := c];
      }
      i := i + 1;
    }
    BuiltIsIndexed(built, commands, u);
  }

  lemma BuiltIsIndexed(built: seq<Command>, commands: seq<Command>, u: User)
    requires |built| == |commands|
    requires forall k :: 0 <= k < |built| ==> Built(built[k], commands[k], commands, u)
    ensures SameTree(built, commands) && Indexed(built, u)
  {
    forall i | 0 <= i < |built| && Visible(built[i], u)
      ensures Longest(built[i].uniqueLen, built[i], built, |built|, u)
    {
      SameLongest(built[i].uniqueLen, built[i], commands[i], built, commands, u);
    }
  }

  lemma SameLongest(n: nat, c: Command, d: Command, a: seq<Command>, b: seq<Command>, u: User)
    requires SameTree(a, b) && c.name == d.name && Longest(n, d, b, |b|, u)
    ensures Longest(n, c, a, |a|, u)
  {
    forall i | 0 <= i < |a| && Rivals(c, a[i], u)
      ensures Shared(c.name, a[i].name) + 1 <= n
    {
      assert SameCommand(a[i], b[i]) && Rivals(d, b[i], u);
    }
    if n != 1 {
      var i :| 0 <= i < |b| && Rivals(d, b[i], u) && Shared(d.name, b[i].name) + 1 == n;
      assert SameCommand(a[i], b[i]) && Rivals(c, a[i], u);
    }
  }

  /** Sorting a list of commands keeps its index right. */
  lemma ReorderingKeepsIndex(a: seq<Command>, b: seq<Command>, u: User)
    requires Indexed(a, u) && forall c :: c in a <==> c in b
    ensures Indexed(b, u)
  {
    forall i | 0 <= i < |b| && Visible(b[i], u)
      ensures Longest(b[i].uniqueLen, b[i], b, |b|, u) && Indexed(b[i].children, u)
    {
      assert b[i] in a;
      var k :| 0 <= k < |a| && a[k] == b[i];
      var c := a[k];
      forall j | 0 <= j < |b| && Rivals(c, b[j], u)
        ensures Shared(c.name, b[j].name) + 1 <= c.uniqueLen
      {
        assert b[j] in a;
      }
      if c.uniqueLen != 1 {
        var j :| 0 <= j < |a| && Rivals(c, a[j], u) && Shared(c.name, a[j].name) + 1 == c.uniqueLen;
        assert a[j] in b;
      }
    }
  }
}
