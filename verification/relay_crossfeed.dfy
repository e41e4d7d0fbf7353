/** What goes wrong in networks that feed their own servers, list a relay twice, or have
    circles of hubs. */
module RelayCrossfeed {
  import opened RelayRules
  import opened RelayNetwork
  import opened RelayOnce
  import opened RelayExpiry
  import RelayQuiet
  import RelayTermination

  // ---------------------------------------------------------------------
  // A server that is fed and relayed to

  /** Server `x` is both a relay and a crossfeed of the client's server, and knows it. */
  predicate FedAndRelayed(net: Net, c: Callsign, x: Ip)
  {
    && c in net.clients
    && var n := net.clients[c].home;
    && x != n && Link(net, n, x) && x in net.servers[n].crossfeeds
  }

  lemma PlaceOf(s: seq<Ip>, x: Ip) returns (j: nat)
    requires x in s
    ensures j < |s| && s[j] == x
  {
    j :| j < |s| && s[j] == x;
  }

  /** Such a server can hear a packet twice, as a relay and by crossfeed. */
  lemma FedAndRelayedHears(net: Net, c: Callsign, x: Ip) returns (v: Way, w: Way)
    requires FedAndRelayed(net, c, x)
    ensures RelayQuiet.Pair(net, c, v, w) && End(net, c, v) == x && RelayQuiet.HeardAgain(net, c)
  {
    var n := net.clients[c].home;
    var j := PlaceOf(net.servers[n].crossfeeds, x);
    var k := PlaceOf(net.servers[n].relays, x);
    v, w := [Feed(j)], [Relay(k)];
    assert Front(v) == [] && Front(w) == [];
    assert Goes(net, c, []) && End(net, c, []) == n;
    assert Goes(net, c, v) && Goes(net, c, w) && Rival(net, c, v, w);
    assert RelayQuiet.Pair(net, c, v, w);
  }

  /** A server that is both a relay and a crossfeed target accepts a packet twice. */
  lemma FedAndRelayedDuplicates(net: Net, c: Callsign, x: Ip) returns (steps: seq<Step>)
    requires Sane(net) && FedAndRelayed(net, c, x)
    ensures NeverExpires(steps, c) && Exec(net, steps).accepted[(x, Opening(c))] >= 2
  {
    var v, w := FedAndRelayedHears(net, c, x);
    steps := RelayQuiet.PairDuplicates(net, c, v, w);
  }

  // ---------------------------------------------------------------------
  // A ring that feeds itself

  /** Hubs of which each sends to the next; `h` feeds the first, and is sent to by the last. */
  ghost predicate FeedRing(net: Net, h: Ip, y: seq<Ip>)
  {
    && |y| >= 2 && h in net.servers && Distinct([h] + y)
    && (forall i :: 0 <= i < |y| ==> IsHub(net, y[i]))
    && (forall i :: 0 <= i < |y| - 1 ==> Link(net, y[i], y[i + 1]))
    && y[0] in net.servers[h].crossfeeds && Knows(net, y[0], h)
    && h in net.servers[y[|y| - 1]].relays
  }

  function Before(h: Ip, y: seq<Ip>, i: nat): Ip
    requires i <= |y|
  {
    if i == 0 then h else y[i - 1]
  }

  /** The copy that goes round, on its way to the server at place `i` of the ring. */
  function Round(c: Callsign, h: Ip, y: seq<Ip>, i: nat): Datagram
    requires i <= |y|
  {
    Datagram(Before(h, y, i), if i < |y| then y[i] else h, true, Opening(c))
  }

  /** Each server of the ring listens to the one before it. */
  ghost predicate RingEntries(s: State, c: Callsign, h: Ip, y: seq<Ip>)
  {
    forall j :: 0 <= j < |y| && (y[j], c) in s.entries ==> s.entries[(y[j], c)] == Entry(Before(h, y, j), false)
  }

  /** The packet has gone round `k` times. */
  ghost predicate Circling(net: Net, s: State, c: Callsign, h: Ip, y: seq<Ip>, i: nat, k: nat)
    requires c in net.clients && y != [] && i <= |y|
  {
    && (h, c) in s.entries && s.entries[(h, c)].from == net.clients[c].addr
    && RingEntries(s, c, h, y)
    && (forall b :: b in s.blocked ==> b.0 == h)
    && s.accepted[(y[0], Opening(c))] >= k && |Hops(s.handled, Opening(c))| >= k
    && Round(c, h, y, i) in s.flight
  }

  lemma RingLink(net: Net, h: Ip, y: seq<Ip>, i: nat)
    requires FeedRing(net, h, y) && i < |y|
    ensures var next := if i + 1 < |y| then y[i + 1] else h;
      && Before(h, y, i) in net.servers && y[i] != h && y[i] != Before(h, y, i)
      && IsHub(net, y[i]) && Knows(net, y[i], Before(h, y, i))
      && next in net.servers && next in net.servers[y[i]].relays && next != Before(h, y, i)
  {
    var ring := [h] + y;
    assert ring[i] == Before(h, y, i) && ring[i + 1] == y[i] && ring[0] == h;
    assert i + 1 < |y| ==> ring[i + 2] == y[i + 1];
    if i > 0 {
      assert Link(net, y[i - 1], y[i]);
    }
    if i + 1 < |y| {
      assert Link(net, y[i], y[i + 1]);
    }
  }

  lemma RingDistinct(net: Net, h: Ip, y: seq<Ip>)
    requires FeedRing(net, h, y)
    ensures Distinct(y) && h !in y
  {
    var ring := [h] + y;
    assert ring[0] == h && forall i :: 0 <= i < |y| ==> ring[i + 1] == y[i];
  }

  /** A hub of the ring accepts the copy and sends it to the next. */
  lemma RingHop(net: Net, s: State, c: Callsign, h: Ip, y: seq<Ip>, i: nat, k: nat)
    requires c in net.clients && FeedRing(net, h, y) && i < |y| && Circling(net, s, c, h, y, i, k)
    ensures var step := Deliver(Round(c, h, y, i), net.servers.Keys);
      && Enabled(net, s, step)
      && Circling(net, Apply(net, s, step), c, h, y, i + 1, if i == 0 then k + 1 else k)
  {
    var d, next := Round(c, h, y, i), Round(c, h, y, i + 1);
    RingLink(net, h, y, i);
    RingDistinct(net, h, y);
    hide FeedRing, Apply, Hops;
    Accepts(net, s, d);
    HopsSnoc(s.handled, d, d.pkt);
    CountIn(net.servers[d.dst].relays, next.dst);
    hide Admits, IsHub, Knows;
    var s' := Apply(net, s, Deliver(d, net.servers.Keys));
    assert next in s'.flight;
    assert RingEntries(s', c, h, y);
  }

  /** Crossfeed copies are made of whatever arrives. */
  lemma FeedsOn(net: Net, s: State, d: Datagram, wanted: set<Ip>, x: Ip)
    requires d in s.flight && d.dst in net.servers && x in net.servers && x in net.servers[d.dst].crossfeeds
    ensures var s' := Receive(net, s, d, wanted);
      && Datagram(d.dst, x, true, d.pkt) in s'.flight
      && (forall b :: b in s'.blocked ==> b in s.blocked || b.0 == d.dst)
  {
    var back := Datagram(d.dst, x, true, d.pkt);
    CopiesCount(net, d.dst, net.servers[d.dst].crossfeeds, d.pkt, back);
    CountIn(net.servers[d.dst].crossfeeds, x);
    assert back in Fed(net, s, d).flight;
    ReceiveEffect(net, s, d, wanted);
  }

  /** The server that feeds the ring does not accept the copy that comes back, but it feeds
      the ring with it. */
  lemma RingCloses(net: Net, s: State, c: Callsign, h: Ip, y: seq<Ip>, k: nat)
    requires Sane(net) && c in net.clients && FeedRing(net, h, y) && Circling(net, s, c, h, y, |y|, k)
    ensures var step := Deliver(Round(c, h, y, |y|), {});
      Enabled(net, s, step) && Circling(net, Apply(net, s, step), c, h, y, 0, k)
  {
    var d := Round(c, h, y, |y|);
    RingLink(net, h, y, 0);
    RingLink(net, h, y, |y| - 1);
    hide Receive, Hops, Fed, IsHub, Knows;
    ReceiveEffect(net, s, d, {});
    FeedsOn(net, s, d, {}, y[0]);
    HopsSnoc(s.handled, d, d.pkt);
  }

  lemma RingStarts(net: Net, c: Callsign, y: seq<Ip>) returns (steps: seq<Step>)
    requires Sane(net) && c in net.clients && FeedRing(net, net.clients[c].home, y)
    ensures NeverExpires(steps, c) && Circling(net, Exec(net, steps), c, net.clients[c].home, y, 0, 0)
  {
    var h := net.clients[c].home;
    var d := Datagram(net.clients[c].addr, h, false, Opening(c));
    var before := SendOpening(net, c);
    steps := before + [Deliver(d, net.servers.Keys)];
    ExecSnoc(net, before, Deliver(d, net.servers.Keys));
    hide Exec, Receive, FeedRing, Circling;
    FirstRound(net, Exec(net, before), c, y, d);
  }

  lemma FirstRound(net: Net, s: State, c: Callsign, y: seq<Ip>, d: Datagram)
    requires Sane(net) && c in net.clients && FeedRing(net, net.clients[c].home, y)
    requires d == Datagram(net.clients[c].addr, net.clients[c].home, false, Opening(c))
    requires s == INITIAL.(flight := multiset{d}, issued := {Opening(c)})
    ensures Circling(net, Receive(net, s, d, net.servers.Keys), c, net.clients[c].home, y, 0, 0)
  {
    RingLink(net, net.clients[c].home, y, 0);
    RingDistinct(net, net.clients[c].home, y);
    hide Receive, FeedRing, Hops, Fed, Knows, IsHub, Copies, RelayTargets;
    ReceiveEffect(net, s, d, net.servers.Keys);
    FeedsOn(net, s, d, net.servers.Keys, y[0]);
  }

  /** The rest of a round. */
  lemma {:induction false} RingRound(net: Net, before: seq<Step>, c: Callsign, h: Ip, y: seq<Ip>, i: nat, k: nat) returns (steps: seq<Step>)
    requires Sane(net) && c in net.clients && FeedRing(net, h, y) && i <= |y| && NeverExpires(before, c)
    requires Circling(net, Exec(net, before), c, h, y, i, k)
    ensures NeverExpires(steps, c)
    ensures Circling(net, Exec(net, steps), c, h, y, 0, if i == 0 then k + 1 else k)
    decreases |y| - i
  {
    assert y != [];
    hide Circling, Exec, FeedRing, Apply, Sane;
    var d := Round(c, h, y, i);
    if i < |y| {
      RingHop(net, Exec(net, before), c, h, y, i, k);
      ExecSnoc(net, before, Deliver(d, net.servers.Keys));
      steps := RingRound(net, before + [Deliver(d, net.servers.Keys)], c, h, y, i + 1, if i == 0 then k + 1 else k);
    } else {
      RingCloses(net, Exec(net, before), c, h, y, k);
      ExecSnoc(net, before, Deliver(d, {}));
      steps := before + [Deliver(d, {})];
    }
  }

  lemma {:induction false} RingRounds(net: Net, c: Callsign, y: seq<Ip>, k: nat) returns (steps: seq<Step>)
    requires Sane(net) && c in net.clients && FeedRing(net, net.clients[c].home, y)
    ensures NeverExpires(steps, c) && Circling(net, Exec(net, steps), c, net.clients[c].home, y, 0, k)
  {
    if k == 0 {
      steps := RingStarts(net, c, y);
    } else {
      steps := RingRounds(net, c, y, k - 1);
      hide Circling, Exec, FeedRing;
      steps := RingRound(net, steps, c, net.clients[c].home, y, 0, k - 1);
    }
  }

  /** A ring that feeds itself accepts one packet without end, though no entry expires. */
  lemma RingAcceptsWithoutEnd(net: Net, c: Callsign, y: seq<Ip>, k: nat) returns (steps: seq<Step>)
    requires Sane(net) && c in net.clients && FeedRing(net, net.clients[c].home, y)
    ensures NeverExpires(steps, c)
    ensures Exec(net, steps).accepted[(y[0], Opening(c))] >= k
    ensures |Hops(Exec(net, steps).handled, Opening(c))| >= k
  {
    steps := RingRounds(net, c, y, k);
  }

  /** So forwarding does not terminate. */
  lemma RingIsUnbounded(net: Net, c: Callsign, y: seq<Ip>, bound: nat)
    requires Sane(net) && c in net.clients && FeedRing(net, net.clients[c].home, y)
    ensures !RelayTermination.Bounded(net, c, bound)
  {
    var steps := RingAcceptsWithoutEnd(net, c, y, bound + 1);
    NeverIsQuiet(net, steps, c);
    assert Opening(c).call == c;
  }

  // ---------------------------------------------------------------------
  // Relays listed twice, and circles of hubs

  /** The client's server lists a relay that knows it twice. */
  lemma ListedTwice(net: Net, c: Callsign, x: Ip) returns (steps: seq<Step>)
    requires Sane(net) && c in net.clients
    requires var h := net.clients[c].home; x != h && Link(net, h, x) && CountOf(net.servers[h].relays, x) >= 2
    ensures DoublyListed(net, c)
    ensures NeverExpires(steps, c) && Exec(net, steps).accepted[(x, Opening(c))] >= 2
  {
    var h := net.clients[c].home;
    assert Route(net, c, [h, x]) && LastListed(net, [h, x]) >= 2;
    steps := LastDuplicates(net, c, [h, x]);
  }

  /** Two relays of the client's server, of which one is a hub that relays to the other. */
  lemma TriangleDuplicates(net: Net, c: Callsign, x: Ip, y: Ip) returns (steps: seq<Step>)
    requires Sane(net) && c in net.clients
    requires var h := net.clients[c].home;
      Distinct([h, x, y]) && Link(net, h, x) && Link(net, h, y) && Link(net, x, y) && IsHub(net, x)
    ensures HeardTwice(net, c) && Exec(net, steps).accepted[(y, Opening(c))] >= 2
  {
    var h := net.clients[c].home;
    assert h == [h, x, y][0] && x == [h, x, y][1] && y == [h, x, y][2];
    var i := PlaceOf(net.servers[h].relays, x);
    var j := PlaceOf(net.servers[h].relays, y);
    var k := PlaceOf(net.servers[x].relays, y);
    var u, v, w: Way := [Relay(i)], [Relay(j)], [Relay(i), Relay(k)];
    assert Front(u) == [] && Front(v) == [] && Front(w) == u;
    assert Goes(net, c, []) && End(net, c, []) == h;
    assert Goes(net, c, u) && Goes(net, c, v) && Taken(net, c, u);
    assert Goes(net, c, w) && Rival(net, c, v, w);
    steps := RivalsDuplicate(net, c, v, w);
  }
}
