/** When is a packet accepted at most once? Exactly when no relay that can be listed twice
    is reached over a route of its own, as long as entries expire only in quiet times. */
module RelayOnce {
  import opened RelayRules
  import opened RelayNetwork

  /** A relay link over which packets are sent and taken. */
  predicate Link(net: Net, u: Ip, x: Ip)
  {
    u in net.servers && x in net.servers && x in net.servers[u].relays && Knows(net, x, u)
  }

  predicate IsHub(net: Net, u: Ip)
  {
    u in net.servers && net.servers[u].hub
  }

  /** A way packets of `c` can take: from the client's server over links, on from hubs only,
      and never straight back. */
  predicate Walk(net: Net, c: Callsign, w: seq<Ip>)
  {
    && c in net.clients
    && w != [] && w[0] == net.clients[c].home
    && (forall i :: 0 <= i < |w| - 1 ==> Link(net, w[i], w[i + 1]))
    && (forall i :: 0 < i < |w| - 1 ==> IsHub(net, w[i]))
    && (forall i :: 0 <= i < |w| - 2 ==> w[i] != w[i + 2])
  }

  /** A way that visits no server twice. */
  ghost predicate Route(net: Net, c: Callsign, path: seq<Ip>)
  {
    Walk(net, c, path) && Distinct(path)
  }

  /** How often the last server of a way is listed by the one before it. */
  function LastListed(net: Net, w: seq<Ip>): nat
    requires |w| >= 2
  {
    var u := w[|w| - 2];
    if u in net.servers then CountOf(net.servers[u].relays, w[|w| - 1]) else 0
  }

  /** Some route ends with a relay that is listed more than once. */
  ghost predicate DoublyListed(net: Net, c: Callsign)
  {
    exists path :: |path| >= 2 && Route(net, c, path) && LastListed(net, path) >= 2
  }

  lemma WalkSnoc(net: Net, c: Callsign, w: seq<Ip>, x: Ip)
    requires Walk(net, c, w) && Link(net, w[|w| - 1], x)
    requires |w| > 1 ==> IsHub(net, w[|w| - 1]) && w[|w| - 2] != x
    ensures Walk(net, c, w + [x])
  {
  }

  lemma WalkFront(net: Net, c: Callsign, w: seq<Ip>)
    requires Walk(net, c, w) && |w| > 1
    ensures Walk(net, c, w[..|w| - 1])
    ensures Link(net, w[|w| - 2], w[|w| - 1]) && (|w| > 2 ==> IsHub(net, w[|w| - 2]) && w[|w| - 3] != w[|w| - 1])
  {
  }

  lemma RouteSnoc(net: Net, c: Callsign, path: seq<Ip>, x: Ip)
    requires Route(net, c, path) && x !in path && Link(net, path[|path| - 1], x)
    requires path[|path| - 1] == net.clients[c].home || IsHub(net, path[|path| - 1])
    ensures Route(net, c, path + [x])
  {
    if |path| > 1 {
      assert path[|path| - 2] in path;
    }
    WalkSnoc(net, c, path, x);
  }

  // ---------------------------------------------------------------------
  // The invariant

  ghost predicate UnderWay(s: State, p: Packet)
  {
    exists d :: d in s.flight && d.pkt == p
  }

  /** Copies are under way, or one of them is just being handled. */
  ghost predicate Live(s: State, p: Packet, held: set<Packet>)
  {
    p in held || UnderWay(s, p)
  }

  /** Entries name the client at its own server, and elsewhere a relay that is known. */
  ghost predicate EntryInv(net: Net, s: State, c: Callsign)
  {
    forall n: Ip :: (n, c) in s.entries ==>
      && n in net.servers && c in net.clients
      && var e := s.entries[(n, c)];
         if e.isLocal then n == net.clients[c].home && e.from == net.clients[c].addr
         else e.from in net.servers && Knows(net, n, e.from)
  }

  /** Where a datagram comes from, and how often it can be on the wire. */
  ghost predicate Sent(net: Net, s: State, d: Datagram)
  {
    && d.pkt in s.issued
    && d.pkt.call in net.clients
    && d.dst in net.servers
    && if !d.relayed then
         && d.src == net.clients[d.pkt.call].addr && d.dst == net.clients[d.pkt.call].home
         && Traffic(s, d) <= 1
       else
         && d.src in net.servers
         && (Knows(net, d.dst, d.src) ==>
               && s.accepted[(d.src, d.pkt)] > 0
               && d.dst in net.servers[d.src].relays
               && (net.servers[d.src].hub || d.src == net.clients[d.pkt.call].home)
               && Traffic(s, d) <= CountOf(net.servers[d.src].relays, d.dst))
  }

  ghost predicate SentInv(net: Net, s: State, c: Callsign)
  {
    forall d: Datagram :: d.pkt.call == c && Traffic(s, d) > 0 ==> Sent(net, s, d)
  }

  /** The entry from which `n` accepted a packet that came along `path`. */
  ghost predicate CameBy(net: Net, s: State, c: Callsign, path: seq<Ip>, p: Packet)
    requires path != []
  {
    var n := path[|path| - 1];
    && (n, c) in s.entries
    && var e := s.entries[(n, c)];
    && multiset(s.handled)[Datagram(e.from, n, !e.isLocal, p)] > 0
    && if |path| == 1 then e.isLocal else !e.isLocal && e.from == path[|path| - 2]
  }

  /** A server accepted the packet once, after all servers of a route to it; while copies
      are under way, its entry is the one it accepted the packet by. */
  ghost predicate Accepted(net: Net, s: State, c: Callsign, n: Ip, p: Packet, held: set<Packet>, path: seq<Ip>)
  {
    && Route(net, c, path) && path[|path| - 1] == n
    && (forall y :: y in path ==> s.accepted[(y, p)] > 0)
    && (Live(s, p, held) ==> CameBy(net, s, c, path, p))
  }

  ghost predicate AcceptInv(net: Net, s: State, c: Callsign, held: set<Packet>)
  {
    forall n: Ip, p: Packet :: p.call == c && s.accepted[(n, p)] > 0 ==>
      p in s.issued && s.accepted[(n, p)] == 1 && exists path :: Accepted(net, s, c, n, p, held, path)
  }

  ghost predicate InvWith(net: Net, s: State, c: Callsign, held: set<Packet>)
  {
    EntryInv(net, s, c) && SentInv(net, s, c) && AcceptInv(net, s, c, held)
  }

  ghost predicate Inv(net: Net, s: State, c: Callsign)
  {
    InvWith(net, s, c, {})
  }

  /** What is accepted stays so when nothing more of it is under way and its entries stay. */
  lemma AcceptedStays(net: Net, s: State, held: set<Packet>, s': State, held': set<Packet>, c: Callsign)
    requires AcceptInv(net, s, c, held)
    requires s.issued <= s'.issued
    requires forall n: Ip, p: Packet :: p.call == c ==> s'.accepted[(n, p)] == s.accepted[(n, p)]
    requires forall p: Packet :: p.call == c && p in s.issued && Live(s', p, held') ==>
      && Live(s, p, held)
      && forall n: Ip :: (n, c) in s.entries ==> (n, c) in s'.entries && s'.entries[(n, c)] == s.entries[(n, c)]
    requires forall d: Datagram :: multiset(s.handled)[d] <= multiset(s'.handled)[d]
    ensures AcceptInv(net, s', c, held')
  {
    forall n: Ip, p: Packet | p.call == c && s'.accepted[(n, p)] > 0
      ensures p in s'.issued && s'.accepted[(n, p)] == 1 && exists path :: Accepted(net, s', c, n, p, held', path)
    {
      assert s.accepted[(n, p)] > 0;
      var path :| Accepted(net, s, c, n, p, held, path);
      assert Accepted(net, s', c, n, p, held', path);
    }
  }

  lemma SendKeepsInv(net: Net, s: State, pkt: Packet, c: Callsign)
    requires Sane(net) && Inv(net, s, c) && Enabled(net, s, Send(pkt))
    ensures Inv(net, Apply(net, s, Send(pkt)), c)
  {
    var s' := Apply(net, s, Send(pkt));
    forall d: Datagram | d.pkt.call == c && Traffic(s', d) > 0
      ensures Sent(net, s', d)
    {
      if Traffic(s, d) > 0 {
        assert Sent(net, s, d);
      }
    }
    forall p: Packet | p.call == c && p in s.issued && UnderWay(s', p)
      ensures UnderWay(s, p)
    {
      var d :| d in s'.flight && d.pkt == p;
      assert d in s.flight;
    }
    AcceptedStays(net, s, {}, s', {}, c);
  }

  lemma LoseKeepsInv(net: Net, s: State, lost: Datagram, c: Callsign)
    requires Inv(net, s, c) && lost in s.flight
    ensures Inv(net, Apply(net, s, Lose(lost)), c)
  {
    var s' := Apply(net, s, Lose(lost));
    assert multiset(s.handled + [lost]) == multiset(s.handled) + multiset{lost};
    forall d: Datagram
      ensures Traffic(s', d) == Traffic(s, d)
    {
    }
    forall d: Datagram | d.pkt.call == c && Traffic(s', d) > 0
      ensures Sent(net, s', d)
    {
      assert Sent(net, s, d);
    }
    forall p: Packet | UnderWay(s', p)
      ensures UnderWay(s, p)
    {
      var d :| d in s'.flight && d.pkt == p;
      assert d in s.flight;
    }
    AcceptedStays(net, s, {}, s', {}, c);
  }

  lemma ExpireKeepsInv(net: Net, s: State, at: Ip, call: Callsign, c: Callsign)
    requires Inv(net, s, c) && Enabled(net, s, Expire(at, call))
    requires call == c ==> Idle(s, c)
    ensures Inv(net, Apply(net, s, Expire(at, call)), c)
  {
    var s' := Apply(net, s, Expire(at, call));
    forall d: Datagram | d.pkt.call == c && Traffic(s', d) > 0
      ensures Sent(net, s', d)
    {
      assert Traffic(s, d) == Traffic(s', d);
      assert Sent(net, s, d);
    }
    forall p: Packet
      ensures UnderWay(s', p) == UnderWay(s, p)
    {
    }
    AcceptedStays(net, s, {}, s', {}, c);
  }

  lemma BlockKeepsInv(net: Net, s: State, s': State, c: Callsign)
    requires Inv(net, s, c) && s' == s.(blocked := s'.blocked)
    ensures Inv(net, s', c)
  {
    forall d: Datagram | d.pkt.call == c && Traffic(s', d) > 0
      ensures Sent(net, s', d)
    {
      assert Traffic(s, d) == Traffic(s', d);
      assert Sent(net, s, d);
    }
    forall p: Packet
      ensures UnderWay(s', p) == UnderWay(s, p)
    {
    }
    AcceptedStays(net, s, {}, s', {}, c);
  }

  /** Crossfeed copies go to servers that will not take them. */
  lemma FeedKeepsInv(net: Net, s: State, d: Datagram, c: Callsign)
    requires FeedersUnknown(net) && Inv(net, s, c) && d in s.flight && d.dst in net.servers
    ensures InvWith(net, Fed(net, s, d), c, {d.pkt})
  {
    var s', crossfeeds := Fed(net, s, d), net.servers[d.dst].crossfeeds;
    forall x: Datagram | x.pkt.call == c && Traffic(s', x) > 0
      ensures Sent(net, s', x)
    {
      FedTraffic(net, s, d, x);
      CopiesCount(net, d.dst, crossfeeds, d.pkt, x);
      CountIn(crossfeeds, x.dst);
      if Traffic(s, x) > 0 {
        assert Sent(net, s, x);
      } else {
        assert Traffic(s, d) > 0;
        assert Sent(net, s, d);
      }
    }
    forall p: Packet | Live(s', p, {d.pkt})
      ensures UnderWay(s, p)
    {
      if p != d.pkt {
        var x :| x in s'.flight && x.pkt == p;
        CopiesCount(net, d.dst, crossfeeds, d.pkt, x);
        assert x in s.flight;
      }
    }
    FedTraffic(net, s, d, d);
    AcceptedStays(net, s, {}, s', {d.pkt}, c);
  }

  /** The datagram that server `d.dst` is about to accept: it has been taken off the wire,
      and its sender may be heard. */
  ghost predicate Arrived(net: Net, s: State, d: Datagram)
  {
    && d.dst in net.servers
    && multiset(s.handled)[d] > 0
    && (d.relayed ==> Knows(net, d.dst, d.src))
  }

  lemma IntroduceKeepsInv(net: Net, s: State, d: Datagram, c: Callsign)
    requires Sane(net) && InvWith(net, s, c, {d.pkt}) && Arrived(net, s, d)
    requires (d.dst, d.pkt.call) !in s.entries
    ensures InvWith(net, Introduced(s, d), c, {d.pkt})
  {
    var s' := Introduced(s, d);
    assert Traffic(s, d) > 0;
    if d.pkt.call == c {
      assert Sent(net, s, d);
    }
    forall x: Datagram | x.pkt.call == c && Traffic(s', x) > 0
      ensures Sent(net, s', x)
    {
      assert Traffic(s, x) == Traffic(s', x);
      assert Sent(net, s, x);
    }
    forall p: Packet
      ensures UnderWay(s', p) == UnderWay(s, p)
    {
    }
    AcceptedStays(net, s, {d.pkt}, s', {d.pkt}, c);
  }

  /** The route of the sender, extended by the server that accepts. */
  lemma RouteExtends(net: Net, s: State, d: Datagram, c: Callsign) returns (path: seq<Ip>)
    requires Sane(net) && InvWith(net, s, c, {d.pkt}) && Arrived(net, s, d) && d.pkt.call == c
    requires s.accepted[(d.dst, d.pkt)] == 0
    ensures Route(net, c, path) && path[|path| - 1] == d.dst
    ensures forall y :: y in path && y != d.dst ==> s.accepted[(y, d.pkt)] > 0
    ensures if |path| == 1 then !d.relayed else d.relayed && path[|path| - 2] == d.src
  {
    assert Traffic(s, d) > 0;
    assert Sent(net, s, d);
    if !d.relayed {
      path := [d.dst];
    } else {
      assert s.accepted[(d.src, d.pkt)] > 0;
      var before :| Accepted(net, s, c, d.src, d.pkt, {d.pkt}, before);
      assert d.dst !in before;
      RouteSnoc(net, c, before, d.dst);
      path := before + [d.dst];
    }
  }

  /** Accepting a packet for the first time, by the entry that its sender has. */
  lemma ForwardKeepsInv(net: Net, s: State, d: Datagram, wanted: set<Ip>, c: Callsign)
    requires Sane(net) && InvWith(net, s, c, {d.pkt}) && Arrived(net, s, d) && d.pkt.call == c
    requires (d.dst, c) in s.entries && s.entries[(d.dst, c)].from == d.src
    requires s.accepted[(d.dst, d.pkt)] == 0
    ensures Inv(net, Forward(net, s, d.dst, s.entries[(d.dst, c)], d.pkt, wanted), c)
  {
    var n, p, srv, e := d.dst, d.pkt, net.servers[d.dst], s.entries[(d.dst, c)];
    var targets := RelayTargets(srv.relays, srv.hub, e, wanted);
    var s' := Forward(net, s, n, e, p, wanted);
    assert Traffic(s, d) > 0;
    assert Sent(net, s, d);
    forall x: Datagram | x in s'.flight && x.pkt != p
      ensures x in s.flight
    {
      CopiesCount(net, n, targets, p, x);
    }
    AcceptedNow(net, s, s', d, c);
    forall x: Datagram | x.pkt.call == c && Traffic(s', x) > 0
      ensures Sent(net, s', x)
    {
      CopiesCount(net, n, targets, p, x);
      CountIn(targets, x.dst);
      WantedCount(srv.relays, e.from, wanted, x.dst);
      if Traffic(s, x) > 0 {
        assert Sent(net, s, x);
      }
    }
  }

  lemma AcceptedNow(net: Net, s: State, s': State, d: Datagram, c: Callsign)
    requires Sane(net) && InvWith(net, s, c, {d.pkt}) && Arrived(net, s, d) && d.pkt.call == c
    requires s.accepted[(d.dst, d.pkt)] == 0
    requires (d.dst, c) in s.entries && s.entries[(d.dst, c)] == Entry(d.src, !d.relayed)
    requires s' == s.(accepted := s.accepted + multiset{(d.dst, d.pkt)}, flight := s'.flight)
    requires forall x :: x in s'.flight && x.pkt != d.pkt ==> x in s.flight
    ensures AcceptInv(net, s', c, {})
  {
    var last := RouteExtends(net, s, d, c);
    assert Traffic(s, d) > 0;
    assert Sent(net, s, d);
    assert Accepted(net, s', c, d.dst, d.pkt, {}, last);
    forall n: Ip, p: Packet | p.call == c && s'.accepted[(n, p)] > 0
      ensures p in s'.issued && s'.accepted[(n, p)] == 1 && exists path :: Accepted(net, s', c, n, p, {}, path)
    {
      if (n, p) != (d.dst, d.pkt) {
        assert s.accepted[(n, p)] > 0;
        var path :| Accepted(net, s, c, n, p, {d.pkt}, path);
        assert Live(s', p, {}) ==> Live(s, p, {d.pkt});
        assert Accepted(net, s', c, n, p, {}, path);
      }
    }
  }

  /** A packet that a server has accepted does not come again from where it came. */
  lemma ComesOnce(net: Net, s: State, d: Datagram, c: Callsign)
    requires Sane(net) && !DoublyListed(net, c) && Inv(net, s, c)
    requires d in s.flight && d.pkt.call == c && d.dst in net.servers
    requires d.relayed ==> Knows(net, d.dst, d.src)
    requires (d.dst, c) in s.entries ==> s.entries[(d.dst, c)].from == d.src
    ensures s.accepted[(d.dst, d.pkt)] == 0
  {
    assert Traffic(s, d) > 0;
    assert Sent(net, s, d);
    assert Live(s, d.pkt, {});
  }

  lemma ReceiveKeepsInv(net: Net, s: State, d: Datagram, wanted: set<Ip>, c: Callsign)
    requires Sane(net) && FeedersUnknown(net) && !DoublyListed(net, c) && Inv(net, s, c)
    requires d in s.flight && d.dst in net.servers
    ensures Inv(net, Receive(net, s, d, wanted), c)
  {
    var s0 := Fed(net, s, d);
    ReceiveCases(net, s, d, wanted);
    FeedKeepsInv(net, s, d, c);
    FedTraffic(net, s, d, d);
    if Admits(net, s, d) {
      match Judge(Lookup(s, d.dst, d.pkt.call), d.src, d.pkt.body)
      case Ignore => Released(net, s0, d, c);
      case Introduce =>
        IntroduceKeepsInv(net, s0, d, c);
        AcceptKeepsInv(net, s, Introduced(s0, d), d, wanted, c);
      case Update => AcceptKeepsInv(net, s, s0, d, wanted, c);
    } else {
      Released(net, s0, d, c);
      BlockKeepsInv(net, s0, Receive(net, s, d, wanted), c);
    }
  }

  lemma Released(net: Net, s: State, d: Datagram, c: Callsign)
    requires InvWith(net, s, c, {d.pkt})
    ensures Inv(net, s, c)
  {
    AcceptedStays(net, s, {d.pkt}, s, {}, c);
  }

  lemma AcceptKeepsInv(net: Net, s: State, s1: State, d: Datagram, wanted: set<Ip>, c: Callsign)
    requires Sane(net) && !DoublyListed(net, c) && Inv(net, s, c) && d in s.flight
    requires InvWith(net, s1, c, {d.pkt}) && Arrived(net, s1, d) && s1.accepted == s.accepted
    requires (d.dst, d.pkt.call) in s.entries ==> s.entries[(d.dst, d.pkt.call)].from == d.src
    requires (d.dst, d.pkt.call) in s1.entries && s1.entries[(d.dst, d.pkt.call)].from == d.src
    ensures Inv(net, Forward(net, s1, d.dst, s1.entries[(d.dst, d.pkt.call)], d.pkt, wanted), c)
  {
    if d.pkt.call == c {
      ComesOnce(net, s, d, c);
      ForwardKeepsInv(net, s1, d, wanted, c);
    } else {
      OthersKeepInv(net, s1, d, wanted, c);
    }
  }

  lemma OthersKeepInv(net: Net, s: State, d: Datagram, wanted: set<Ip>, c: Callsign)
    requires InvWith(net, s, c, {d.pkt}) && d.dst in net.servers && d.pkt.call != c
    requires (d.dst, d.pkt.call) in s.entries
    ensures Inv(net, Forward(net, s, d.dst, s.entries[(d.dst, d.pkt.call)], d.pkt, wanted), c)
  {
    var e, srv := s.entries[(d.dst, d.pkt.call)], net.servers[d.dst];
    var s' := Forward(net, s, d.dst, e, d.pkt, wanted);
    forall x: Datagram | x.pkt.call == c
      ensures s'.flight[x] == s.flight[x]
    {
      CopiesCount(net, d.dst, RelayTargets(srv.relays, srv.hub, e, wanted), d.pkt, x);
    }
    forall x: Datagram | x.pkt.call == c && Traffic(s', x) > 0
      ensures Sent(net, s', x)
    {
      assert Sent(net, s, x);
    }
    forall p: Packet | p.call == c && UnderWay(s', p)
      ensures UnderWay(s, p)
    {
      var x :| x in s'.flight && x.pkt == p;
      assert x in s.flight;
    }
    AcceptedStays(net, s, {d.pkt}, s', {}, c);
  }

  /** Main invariant: every state of every run. */
  lemma {:induction false} RunKeepsInv(net: Net, steps: seq<Step>, c: Callsign)
    requires Sane(net) && FeedersUnknown(net) && !DoublyListed(net, c) && QuietExpiry(net, steps, c)
    ensures Inv(net, Exec(net, steps), c)
  {
    if steps != [] {
      var before, step := steps[..|steps| - 1], steps[|steps| - 1];
      QuietBefore(net, steps, c);
      RunKeepsInv(net, before, c);
      var s := Exec(net, before);
      if Enabled(net, s, step) {
        match step
        case Send(pkt) => SendKeepsInv(net, s, pkt, c);
        case Lose(d) => LoseKeepsInv(net, s, d, c);
        case Deliver(d, wanted) => ReceiveKeepsInv(net, s, d, wanted, c);
        case SetBlocked(_, _, _) => BlockKeepsInv(net, s, Apply(net, s, step), c);
        case Expire(at, call) => ExpireKeepsInv(net, s, at, call, c);
      }
    }
  }

  lemma QuietBefore(net: Net, steps: seq<Step>, c: Callsign)
    requires QuietExpiry(net, steps, c) && steps != []
    ensures QuietExpiry(net, steps[..|steps| - 1], c)
    ensures var step := steps[|steps| - 1];
      step.Expire? && step.call == c ==> Idle(Exec(net, steps[..|steps| - 1]), c)
  {
    var before := steps[..|steps| - 1];
    forall i | 0 <= i < |before| && before[i].Expire? && before[i].call == c
      ensures Idle(Exec(net, before[..i]), c)
    {
      assert before[..i] == steps[..i];
    }
  }

  /** No server accepts a packet twice. */
  lemma AtMostOnce(net: Net, steps: seq<Step>, n: Ip, pkt: Packet)
    requires Sane(net) && FeedersUnknown(net) && !DoublyListed(net, pkt.call) && QuietExpiry(net, steps, pkt.call)
    ensures Exec(net, steps).accepted[(n, pkt)] <= 1
  {
    RunKeepsInv(net, steps, pkt.call);
  }

  // ---------------------------------------------------------------------
  // And the other way round: runs that follow a route

  /** The first packet of a client. */
  function Opening(c: Callsign): Packet
  {
    Packet(c, Position(true), 0)
  }

  /** Taking `d` off the wire, at most, and putting on it a copy for each listing of a relay
      other than the one the packet came from. */
  ghost predicate Spreads(net: Net, flight: multiset<Datagram>, d: Datagram, e: Entry, flight': multiset<Datagram>)
    requires d.dst in net.servers
  {
    && (forall x: Datagram :: flight'[x] + (if x == d then 1 else 0) >= flight[x])
    && (e.isLocal || net.servers[d.dst].hub ==>
          forall y :: y in net.servers && y != e.from ==>
            var x := Datagram(d.dst, y, true, d.pkt);
            flight'[x] + (if x == d then 1 else 0) >= flight[x] + CountOf(net.servers[d.dst].relays, y))
  }

  /** What accepting a datagram leads to, when all relays want the packet. */
  ghost predicate Accepting(net: Net, s: State, d: Datagram, s': State, e: Entry)
    requires d.dst in net.servers
  {
    && s'.entries == s.entries[(d.dst, d.pkt.call) := e]
    && s'.blocked == s.blocked && s'.issued == s.issued && s'.handled == s.handled + [d]
    && s'.accepted == s.accepted + multiset{(d.dst, d.pkt)}
    && Spreads(net, s.flight, d, e, s'.flight)
  }

  /** What a server puts on the wire when it accepts `d`, besides the crossfeed copies. */
  function Out(net: Net, d: Datagram, e: Entry): multiset<Datagram>
    requires d.dst in net.servers
  {
    var srv := net.servers[d.dst];
    Copies(net, d.dst, RelayTargets(srv.relays, srv.hub, e, net.servers.Keys), d.pkt)
  }

  lemma OutCount(net: Net, d: Datagram, e: Entry, y: Ip)
    requires d.dst in net.servers && y in net.servers && y != e.from
    requires e.isLocal || net.servers[d.dst].hub
    ensures Out(net, d, e)[Datagram(d.dst, y, true, d.pkt)] == CountOf(net.servers[d.dst].relays, y)
  {
    var srv, all := net.servers[d.dst], net.servers.Keys;
    CopiesCount(net, d.dst, RelayTargets(srv.relays, srv.hub, e, all), d.pkt, Datagram(d.dst, y, true, d.pkt));
    WantedCount(srv.relays, e.from, all, y);
  }

  lemma AcceptsState(net: Net, s: State, d: Datagram, e: Entry)
    requires d in s.flight && d.dst in net.servers && Admits(net, s, d) && d.pkt.body == Position(true)
    requires if (d.dst, d.pkt.call) in s.entries then e == s.entries[(d.dst, d.pkt.call)] && e.from == d.src
             else e == Entry(d.src, !d.relayed)
    ensures var s' := Apply(net, s, Deliver(d, net.servers.Keys));
      && s'.entries == s.entries[(d.dst, d.pkt.call) := e]
      && s'.blocked == s.blocked && s'.issued == s.issued && s'.handled == s.handled + [d]
      && s'.accepted == s.accepted + multiset{(d.dst, d.pkt)}
      && s'.flight == Fed(net, s, d).flight + Out(net, d, e)
  {
    ReceiveCases(net, s, d, net.servers.Keys);
  }

  lemma FedFlight(net: Net, s: State, d: Datagram, x: Datagram)
    requires d in s.flight && d.dst in net.servers
    ensures Fed(net, s, d).flight[x] + (if x == d then 1 else 0) >= s.flight[x]
  {
  }

  lemma OutFlight(net: Net, s: State, d: Datagram, e: Entry, flight: multiset<Datagram>)
    requires d.dst in net.servers && d in s.flight && flight == Fed(net, s, d).flight + Out(net, d, e)
    ensures Spreads(net, s.flight, d, e, flight)
  {
    hide Out, Fed;
    forall x: Datagram
      ensures Fed(net, s, d).flight[x] + (if x == d then 1 else 0) >= s.flight[x]
    {
      FedFlight(net, s, d, x);
    }
    if e.isLocal || net.servers[d.dst].hub {
      forall y | y in net.servers && y != e.from
        ensures Out(net, d, e)[Datagram(d.dst, y, true, d.pkt)] == CountOf(net.servers[d.dst].relays, y)
      {
        OutCount(net, d, e, y);
      }
    }
  }

  lemma Accepts(net: Net, s: State, d: Datagram)
    requires d in s.flight && d.dst in net.servers && Admits(net, s, d) && d.pkt.body == Position(true)
    requires (d.dst, d.pkt.call) in s.entries ==> s.entries[(d.dst, d.pkt.call)].from == d.src
    ensures var k := (d.dst, d.pkt.call);
      var step := Deliver(d, net.servers.Keys);
      && Enabled(net, s, step)
      && Accepting(net, s, d, Apply(net, s, step), if k in s.entries then s.entries[k] else Entry(d.src, !d.relayed))
  {
    var k := (d.dst, d.pkt.call);
    var e := if k in s.entries then s.entries[k] else Entry(d.src, !d.relayed);
    AcceptsState(net, s, d, e);
    hide Apply, Out, Fed, Admits, Spreads;
    OutFlight(net, s, d, e, Apply(net, s, Deliver(d, net.servers.Keys)).flight);
  }

  /** A packet of `c` has come along the route, whose last server sends it on. */
  ghost predicate Along(net: Net, s: State, c: Callsign, path: seq<Ip>)
    requires c in net.clients && path != [] && path[|path| - 1] in net.servers
  {
    var n, p := path[|path| - 1], Opening(c);
    && s.blocked == {}
    && s.issued == {p}
    && (forall m: Ip :: (m, c) in s.entries ==> m in path)
    && (n, c) in s.entries
    && s.entries[(n, c)] == (if |path| == 1 then Entry(net.clients[c].addr, true) else Entry(path[|path| - 2], false))
    && (|path| == 1 || net.servers[n].hub ==>
          forall y :: y in net.servers && y != s.entries[(n, c)].from ==>
            s.flight[Datagram(n, y, true, p)] >= CountOf(net.servers[n].relays, y))
  }

  lemma SendOpening(net: Net, c: Callsign) returns (steps: seq<Step>)
    requires c in net.clients
    ensures NeverExpires(steps, c)
    ensures var cl := net.clients[c];
      Exec(net, steps) == INITIAL.(flight := multiset{Datagram(cl.addr, cl.home, false, Opening(c))}, issued := {Opening(c)})
  {
    var cl := net.clients[c];
    var d := Datagram(cl.addr, cl.home, false, Opening(c));
    steps := [Send(Opening(c))];
    ExecSnoc(net, [], Send(Opening(c)));
    assert [] + steps == steps;
    assert multiset{} + multiset{d} == multiset{d} && {} + {Opening(c)} == {Opening(c)};
  }

  lemma {:induction false} Follow(net: Net, c: Callsign, path: seq<Ip>) returns (steps: seq<Step>)
    requires Sane(net) && Route(net, c, path)
    ensures NeverExpires(steps, c) && path[|path| - 1] in net.servers && Along(net, Exec(net, steps), c, path)
  {
    var d: Datagram;
    var before: seq<Step>;
    if |path| == 1 {
      before := SendOpening(net, c);
      d := Datagram(net.clients[c].addr, net.clients[c].home, false, Opening(c));
    } else {
      var front := path[..|path| - 1];
      WalkFront(net, c, path);
      before := Follow(net, c, front);
      var s := Exec(net, before);
      d := Datagram(path[|path| - 2], path[|path| - 1], true, Opening(c));
      CountIn(net.servers[d.src].relays, d.dst);
      assert d.dst !in front;
    }
    steps := before + [Deliver(d, net.servers.Keys)];
    ExecSnoc(net, before, Deliver(d, net.servers.Keys));
    Accepts(net, Exec(net, before), d);
  }

  /** Two copies of a datagram under way to a server that has nothing listed yet. */
  lemma DeliverTwice(net: Net, before: seq<Step>, d: Datagram) returns (steps: seq<Step>)
    requires d.dst in net.servers && d.pkt.body == Position(true)
    requires NeverExpires(before, d.pkt.call)
    requires var s := Exec(net, before);
      s.flight[d] >= 2 && Admits(net, s, d) && (d.dst, d.pkt.call) !in s.entries
    ensures NeverExpires(steps, d.pkt.call) && Exec(net, steps).accepted[(d.dst, d.pkt)] >= 2
  {
    var step := Deliver(d, net.servers.Keys);
    var once := before + [step];
    steps := once + [step];
    hide Exec, Apply, Accepting, Admits;
    Accepts(net, Exec(net, before), d);
    ExecSnoc(net, before, step);
    var e := Entry(d.src, !d.relayed);
    AcceptingOne(net, Exec(net, before), d, Exec(net, once), e);
    Accepts(net, Exec(net, once), d);
    ExecSnoc(net, once, step);
    AcceptingOne(net, Exec(net, once), d, Exec(net, steps), e);
  }

  lemma AcceptingOne(net: Net, s: State, d: Datagram, s': State, e: Entry)
    requires d.dst in net.servers && Accepting(net, s, d, s', e)
    ensures (d.dst, d.pkt.call) in s'.entries && s'.entries[(d.dst, d.pkt.call)] == e
    ensures Admits(net, s', d) == Admits(net, s, d)
    ensures s'.flight[d] + 1 >= s.flight[d]
    ensures s'.accepted[(d.dst, d.pkt)] == s.accepted[(d.dst, d.pkt)] + 1
  {
  }

  /** A relay that is listed twice at the end of a route accepts a packet twice. */
  lemma DoublyListedDuplicates(net: Net, c: Callsign) returns (steps: seq<Step>, n: Ip)
    requires Sane(net) && DoublyListed(net, c)
    ensures NeverExpires(steps, c) && Exec(net, steps).accepted[(n, Opening(c))] >= 2
  {
    var path :| |path| >= 2 && Route(net, c, path) && LastListed(net, path) >= 2;
    n := path[|path| - 1];
    steps := LastDuplicates(net, c, path);
  }

  lemma LastDuplicates(net: Net, c: Callsign, path: seq<Ip>) returns (steps: seq<Step>)
    requires Sane(net) && |path| >= 2 && Route(net, c, path) && LastListed(net, path) >= 2
    ensures NeverExpires(steps, c) && Exec(net, steps).accepted[(path[|path| - 1], Opening(c))] >= 2
  {
    var front, n := path[..|path| - 1], path[|path| - 1];
    WalkFront(net, c, path);
    assert n !in front;
    var before := Follow(net, c, front);
    hide Exec;
    steps := DeliverTwice(net, before, Datagram(path[|path| - 2], n, true, Opening(c)));
  }

  /** Packets are accepted at most once in all runs with quiet expiries exactly when no
      route ends with a relay that is listed more than once. */
  lemma AtMostOnceIff(net: Net, c: Callsign)
    requires Sane(net) && FeedersUnknown(net)
    ensures !DoublyListed(net, c) <==>
      forall steps, n, pkt: Packet :: QuietExpiry(net, steps, c) && pkt.call == c ==>
        Exec(net, steps).accepted[(n, pkt)] <= 1
  {
    if DoublyListed(net, c) {
      var steps, n := DoublyListedDuplicates(net, c);
      NeverIsQuiet(net, steps, c);
      assert Exec(net, steps).accepted[(n, Opening(c))] > 1;
    } else {
      forall steps, n, pkt: Packet | QuietExpiry(net, steps, c) && pkt.call == c
        ensures Exec(net, steps).accepted[(n, pkt)] <= 1
      {
        AtMostOnce(net, steps, n, pkt);
      }
    }
  }
}
