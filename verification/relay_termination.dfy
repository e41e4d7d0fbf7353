/** When does the forwarding of every packet end? Exactly when crossfeeds inside the network
    do not go round in a circle that packets come to. */
module RelayTermination {
  import opened RelayRules
  import opened RelayNetwork
  import opened RelayOnce
  import opened Sums

  // ---------------------------------------------------------------------
  // How far crossfeeds lead

  /** Packets of `c` come to server `y` over a relay link, whether it takes them or not. */
  ghost predicate Gets(net: Net, c: Callsign, y: Ip)
  {
    && c in net.clients && y in net.servers
    && (y == net.clients[c].home || exists path :: SendsTo(net, c, path, y))
  }

  /** The last server of a route sends packets of `c` on to `y`. */
  ghost predicate SendsTo(net: Net, c: Callsign, path: seq<Ip>, y: Ip)
  {
    && Route(net, c, path)
    && var u := path[|path| - 1];
    && u in net.servers && y in net.servers[u].relays
    && (|path| == 1 || (net.servers[u].hub && y != path[|path| - 2]))
  }

  /** Servers that feed one another, one after the other. */
  predicate FeedChain(net: Net, z: seq<Ip>)
  {
    && z != []
    && (forall i :: 0 <= i < |z| ==> z[i] in net.servers)
    && (forall i :: 0 <= i < |z| - 1 ==> z[i + 1] in net.servers[z[i]].crossfeeds)
  }

  /** Chains of crossfeeds that packets of `c` come to have at most `k` links. */
  ghost predicate FeedsEnd(net: Net, c: Callsign, k: nat)
  {
    forall z :: FeedChain(net, z) && Gets(net, c, z[0]) ==> |z| <= k + 1
  }

  ghost predicate EndsWithin(net: Net, n: Ip, k: nat)
  {
    forall z :: FeedChain(net, z) && z[0] == n ==> |z| <= k + 1
  }

  /** How many datagrams come of one that arrives at `n`, over crossfeeds alone. */
  function Cost(net: Net, n: Ip, k: nat): (cost: nat)
    ensures cost >= 1
    decreases k, 0
  {
    if k == 0 || n !in net.servers then 1 else 1 + CostOfAll(net, net.servers[n].crossfeeds, k - 1)
  }

  function CostOfAll(net: Net, targets: seq<Ip>, k: nat): nat
    decreases k, 1, |targets|
  {
    if targets == [] then 0
    else (if targets[0] in net.servers then Cost(net, targets[0], k) else 0) + CostOfAll(net, targets[1..], k)
  }

  lemma EndsSooner(net: Net, n: Ip, y: Ip, k: nat)
    requires EndsWithin(net, n, k) && n in net.servers && y in net.servers && y in net.servers[n].crossfeeds
    ensures k > 0 && EndsWithin(net, y, k - 1)
  {
    assert FeedChain(net, [n, y]);
    forall z | FeedChain(net, z) && z[0] == y
      ensures |z| <= k
    {
      assert FeedChain(net, [n] + z);
    }
  }

  /** Looking further than the chains of crossfeeds lead makes no difference. */
  lemma {:induction false} CostStable(net: Net, n: Ip, k: nat)
    requires EndsWithin(net, n, k) && n in net.servers
    ensures Cost(net, n, k) == 1 + CostOfAll(net, net.servers[n].crossfeeds, k)
    decreases k, 1, 0
  {
    CostsStable(net, n, net.servers[n].crossfeeds, k);
  }

  lemma {:induction false} CostsStable(net: Net, n: Ip, targets: seq<Ip>, k: nat)
    requires EndsWithin(net, n, k) && n in net.servers
    requires forall y :: y in targets ==> y in net.servers[n].crossfeeds
    ensures CostOfAll(net, targets, k) == if k == 0 then 0 else CostOfAll(net, targets, k - 1)
    decreases k, 0, |targets|
  {
    if targets != [] {
      var y := targets[0];
      assert y in targets;
      CostsStable(net, n, targets[1..], k);
      if y in net.servers {
        EndsSooner(net, n, y, k);
        CostStable(net, y, k - 1);
      }
    }
  }

  lemma {:induction false} FewerCost(net: Net, relays: seq<Ip>, from: Ip, wanted: set<Ip>, k: nat)
    ensures CostOfAll(net, WantedRelays(relays, from, wanted), k) <= CostOfAll(net, relays, k)
  {
    if relays != [] {
      FewerCost(net, relays[1..], from, wanted, k);
    }
  }

  // ---------------------------------------------------------------------
  // What is under way was sent to somewhere

  ghost predicate ComesOf(net: Net, c: Callsign, n: Ip, z: seq<Ip>)
  {
    FeedChain(net, z) && Gets(net, c, z[0]) && z[|z| - 1] == n
  }

  ghost predicate SentInv(net: Net, s: State, c: Callsign)
  {
    forall d: Datagram :: d in s.flight && d.pkt.call == c ==> exists z :: ComesOf(net, c, d.dst, z)
  }

  lemma GetsAlone(net: Net, c: Callsign, n: Ip)
    requires Gets(net, c, n)
    ensures ComesOf(net, c, n, [n])
  {
  }

  lemma HomeGets(net: Net, c: Callsign)
    requires Sane(net) && c in net.clients
    ensures var h := net.clients[c].home; ComesOf(net, c, h, [h])
  {
  }

  lemma FedOn(net: Net, s: State, d: Datagram, x: Datagram, c: Callsign)
    requires SentInv(net, s, c) && d in s.flight && d.dst in net.servers
    requires x in Fed(net, s, d).flight && x.pkt.call == c
    ensures exists z :: ComesOf(net, c, x.dst, z)
  {
    var crossfeeds := net.servers[d.dst].crossfeeds;
    CopiesCount(net, d.dst, crossfeeds, d.pkt, x);
    if x !in s.flight {
      CountIn(crossfeeds, x.dst);
      var z :| ComesOf(net, c, d.dst, z);
      assert ComesOf(net, c, x.dst, z + [x.dst]);
    }
  }

  /** What receiving a datagram puts on the wire. */
  lemma ReceiveFlight(net: Net, s: State, d: Datagram, wanted: set<Ip>)
    requires d in s.flight && d.dst in net.servers
    ensures var s', srv := Receive(net, s, d, wanted), net.servers[d.dst];
      && s'.issued == s.issued && s'.handled == s.handled + [d]
      && ((s'.accepted == s.accepted && s'.flight == Fed(net, s, d).flight)
          || (&& s'.accepted == s.accepted + multiset{(d.dst, d.pkt)}
              && (d.dst, d.pkt.call) in s'.entries
              && s'.flight == Fed(net, s, d).flight
                 + Copies(net, d.dst, RelayTargets(srv.relays, srv.hub, s'.entries[(d.dst, d.pkt.call)], wanted), d.pkt)))
  {
    ReceiveCases(net, s, d, wanted);
  }

  lemma ReceiveKeepsSent(net: Net, s: State, d: Datagram, wanted: set<Ip>, c: Callsign)
    requires SentInv(net, s, c) && d in s.flight && d.dst in net.servers
    requires Inv(net, Receive(net, s, d, wanted), c)
    ensures SentInv(net, Receive(net, s, d, wanted), c)
  {
    var s' := Receive(net, s, d, wanted);
    ReceiveFlight(net, s, d, wanted);
    hide Receive, Inv, Fed, Copies, ComesOf;
    forall x: Datagram | x in s'.flight && x.pkt.call == c
      ensures exists z :: ComesOf(net, c, x.dst, z)
    {
      if x in Fed(net, s, d).flight {
        FedOn(net, s, d, x, c);
      } else {
        ForwardedTo(net, s', d, x, c, wanted);
        GetsAlone(net, c, x.dst);
      }
    }
  }

  lemma ForwardedTo(net: Net, s: State, d: Datagram, x: Datagram, c: Callsign, wanted: set<Ip>)
    requires Inv(net, s, c) && d.dst in net.servers && (d.dst, d.pkt.call) in s.entries
    requires s.accepted[(d.dst, d.pkt)] > 0 && x in s.flight && x.pkt.call == c
    requires var srv := net.servers[d.dst];
      x in Copies(net, d.dst, RelayTargets(srv.relays, srv.hub, s.entries[(d.dst, d.pkt.call)], wanted), d.pkt)
    ensures Gets(net, c, x.dst)
  {
    var n, e, srv := d.dst, s.entries[(d.dst, d.pkt.call)], net.servers[d.dst];
    var targets := RelayTargets(srv.relays, srv.hub, e, wanted);
    CopiesCount(net, n, targets, d.pkt, x);
    CountIn(targets, x.dst);
    var path :| Accepted(net, s, c, n, d.pkt, {}, path);
    assert Live(s, d.pkt, {});
    assert SendsTo(net, c, path, x.dst);
  }

  lemma StepKeepsSent(net: Net, s: State, step: Step, c: Callsign)
    requires Sane(net) && SentInv(net, s, c) && Enabled(net, s, step) && Inv(net, Apply(net, s, step), c)
    ensures SentInv(net, Apply(net, s, step), c)
  {
    hide Inv, ComesOf, Receive;
    match step
    case Deliver(d, wanted) => ReceiveKeepsSent(net, s, d, wanted, c);
    case Send(pkt) =>
      if pkt.call == c {
        HomeGets(net, c);
      }
    case _ =>
  }

  lemma {:induction false} RunKeepsSent(net: Net, steps: seq<Step>, c: Callsign)
    requires Sane(net) && FeedersUnknown(net) && !DoublyListed(net, c) && QuietExpiry(net, steps, c)
    ensures SentInv(net, Exec(net, steps), c)
  {
    if steps != [] {
      var before, step := steps[..|steps| - 1], steps[|steps| - 1];
      QuietBefore(net, steps, c);
      RunKeepsSent(net, before, c);
      RunKeepsInv(net, steps, c);
      hide Inv, Apply, SentInv;
      if Enabled(net, Exec(net, before), step) {
        StepKeepsSent(net, Exec(net, before), step, c);
      }
    }
  }

  // ---------------------------------------------------------------------
  // The bound

  function Weight(net: Net, pkt: Packet, k: nat): Datagram -> nat
  {
    (d: Datagram) => if d.pkt == pkt then Cost(net, d.dst, k) else 0
  }

  function RelayWeight(net: Net, k: nat): Ip -> nat
  {
    n => if n in net.servers then CostOfAll(net, net.servers[n].relays, k) else 0
  }

  function Reached(net: Net, s: State, pkt: Packet): set<Ip>
  {
    set n | n in net.servers && s.accepted[(n, pkt)] > 0
  }

  /** The hops so far and those still to come of what is under way are paid for by the client
      and by the servers that have accepted the packet. */
  ghost predicate Paid(net: Net, s: State, pkt: Packet, k: nat)
  {
    pkt.call in net.clients &&
    |Hops(s.handled, pkt)| + Sum(s.flight, Weight(net, pkt, k)) <=
      (if pkt in s.issued then Cost(net, net.clients[pkt.call].home, k) else 0)
      + Sum(multiset(Reached(net, s, pkt)), RelayWeight(net, k))
  }

  lemma {:induction false} CopiesWeigh(net: Net, n: Ip, targets: seq<Ip>, d: Packet, pkt: Packet, k: nat)
    ensures Sum(Copies(net, n, targets, d), Weight(net, pkt, k)) == if d == pkt then CostOfAll(net, targets, k) else 0
  {
    if targets != [] {
      CopiesWeigh(net, n, targets[1..], d, pkt, k);
      var w := Weight(net, pkt, k);
      if targets[0] in net.servers {
        var x := Datagram(n, targets[0], true, d);
        SumOne(x, w);
        SumAdd(multiset{x}, Copies(net, n, targets[1..], d), w);
      } else {
        assert multiset{} + Copies(net, n, targets[1..], d) == Copies(net, n, targets[1..], d);
      }
    }
  }

  /** A datagram that arrives is worth its hop and the crossfeed copies made of it. */
  lemma FedWeighs(net: Net, s: State, d: Datagram, pkt: Packet, k: nat)
    requires d in s.flight && d.dst in net.servers && (d.pkt == pkt ==> EndsWithin(net, d.dst, k))
    ensures var w := Weight(net, pkt, k);
      Sum(Fed(net, s, d).flight, w) + (if d.pkt == pkt then 1 else 0) == Sum(s.flight, w)
  {
    var w, crossfeeds := Weight(net, pkt, k), net.servers[d.dst].crossfeeds;
    SumTake(s.flight, w, d);
    SumAdd(s.flight - multiset{d}, Copies(net, d.dst, crossfeeds, d.pkt), w);
    CopiesWeigh(net, d.dst, crossfeeds, d.pkt, pkt, k);
    if d.pkt == pkt {
      CostStable(net, d.dst, k);
    }
  }

  lemma ReachedGrows(net: Net, s: State, s': State, n: Ip, pkt: Packet, k: nat)
    requires n in net.servers && s.accepted[(n, pkt)] == 0
    requires s'.accepted == s.accepted + multiset{(n, pkt)}
    ensures Sum(multiset(Reached(net, s', pkt)), RelayWeight(net, k)) ==
            Sum(multiset(Reached(net, s, pkt)), RelayWeight(net, k)) + CostOfAll(net, net.servers[n].relays, k)
  {
    assert Reached(net, s', pkt) == Reached(net, s, pkt) + {n};
    assert multiset(Reached(net, s, pkt) + {n}) == multiset(Reached(net, s, pkt)) + multiset{n};
    SumAdd(multiset(Reached(net, s, pkt)), multiset{n}, RelayWeight(net, k));
    SumOne(n, RelayWeight(net, k));
  }

  lemma SameReached(net: Net, s: State, s': State, pkt: Packet)
    requires forall n: Ip :: s'.accepted[(n, pkt)] == s.accepted[(n, pkt)]
    ensures Reached(net, s', pkt) == Reached(net, s, pkt)
  {
  }

  /** Nothing new is accepted: a hop is paid for by the datagram. */
  lemma FeedPays(net: Net, s: State, d: Datagram, s': State, pkt: Packet, k: nat)
    requires Paid(net, s, pkt, k) && d in s.flight && d.dst in net.servers
    requires d.pkt == pkt ==> EndsWithin(net, d.dst, k)
    requires s'.accepted == s.accepted && s'.flight == Fed(net, s, d).flight
    requires s'.issued == s.issued && s'.handled == s.handled + [d]
    ensures Paid(net, s', pkt, k)
  {
    FedWeighs(net, s, d, pkt, k);
    HopsSnoc(s.handled, d, pkt);
    SameReached(net, s, s', pkt);
    hide Fed, Reached, Hops;
  }

  /** The copies that a server sends on are paid for by the server, once. */
  lemma AcceptPays(net: Net, s: State, d: Datagram, e: Entry, wanted: set<Ip>, s': State, pkt: Packet, k: nat)
    requires Paid(net, s, pkt, k) && d in s.flight && d.dst in net.servers
    requires d.pkt == pkt ==> EndsWithin(net, d.dst, k) && s.accepted[(d.dst, pkt)] == 0
    requires s'.accepted == s.accepted + multiset{(d.dst, d.pkt)}
    requires s'.issued == s.issued && s'.handled == s.handled + [d]
    requires var srv := net.servers[d.dst];
      s'.flight == Fed(net, s, d).flight + Copies(net, d.dst, RelayTargets(srv.relays, srv.hub, e, wanted), d.pkt)
    ensures Paid(net, s', pkt, k)
  {
    var srv, fed := net.servers[d.dst], Fed(net, s, d).flight;
    var copies := Copies(net, d.dst, RelayTargets(srv.relays, srv.hub, e, wanted), d.pkt);
    FedWeighs(net, s, d, pkt, k);
    HopsSnoc(s.handled, d, pkt);
    SumAdd(fed, copies, Weight(net, pkt, k));
    TargetsWeigh(net, d, e, wanted, pkt, k);
    if d.pkt == pkt {
      ReachedGrows(net, s, s', d.dst, pkt, k);
    } else {
      SameReached(net, s, s', pkt);
    }
    hide Fed, Reached, Hops, Copies;
  }

  lemma ReceivePays(net: Net, s: State, d: Datagram, wanted: set<Ip>, pkt: Packet, k: nat)
    requires Paid(net, s, pkt, k) && d in s.flight && d.dst in net.servers
    requires d.pkt == pkt ==> EndsWithin(net, d.dst, k)
    requires Receive(net, s, d, wanted).accepted[(d.dst, pkt)] <= 1
    ensures Paid(net, Receive(net, s, d, wanted), pkt, k)
  {
    hide Receive, Fed, Copies, Paid;
    var s' := Receive(net, s, d, wanted);
    ReceiveFlight(net, s, d, wanted);
    if s'.accepted == s.accepted && s'.flight == Fed(net, s, d).flight {
      FeedPays(net, s, d, s', pkt, k);
    } else {
      AcceptPays(net, s, d, s'.entries[(d.dst, d.pkt.call)], wanted, s', pkt, k);
    }
  }

  lemma TargetsWeigh(net: Net, d: Datagram, e: Entry, wanted: set<Ip>, pkt: Packet, k: nat)
    requires d.dst in net.servers
    ensures var srv := net.servers[d.dst];
      Sum(Copies(net, d.dst, RelayTargets(srv.relays, srv.hub, e, wanted), d.pkt), Weight(net, pkt, k)) <=
        if d.pkt == pkt then CostOfAll(net, srv.relays, k) else 0
  {
    var srv := net.servers[d.dst];
    CopiesWeigh(net, d.dst, RelayTargets(srv.relays, srv.hub, e, wanted), d.pkt, pkt, k);
    FewerCost(net, srv.relays, e.from, wanted, k);
  }

  lemma LosePays(net: Net, s: State, lost: Datagram, pkt: Packet, k: nat)
    requires Paid(net, s, pkt, k) && lost in s.flight
    ensures Paid(net, Apply(net, s, Lose(lost)), pkt, k)
  {
    SumTake(s.flight, Weight(net, pkt, k), lost);
    HopsSnoc(s.handled, lost, pkt);
    SameReached(net, s, Apply(net, s, Lose(lost)), pkt);
  }

  lemma SendPays(net: Net, s: State, sent: Packet, pkt: Packet, k: nat)
    requires Paid(net, s, pkt, k) && Enabled(net, s, Send(sent))
    ensures Paid(net, Apply(net, s, Send(sent)), pkt, k)
  {
    var client := net.clients[sent.call];
    var d := Datagram(client.addr, client.home, false, sent);
    SumAdd(s.flight, multiset{d}, Weight(net, pkt, k));
    SumOne(d, Weight(net, pkt, k));
    SameReached(net, s, Apply(net, s, Send(sent)), pkt);
  }

  /** Chains of crossfeeds end from wherever a datagram arrives. */
  lemma ComesToAnEnd(net: Net, s: State, d: Datagram, c: Callsign, k: nat)
    requires SentInv(net, s, c) && FeedsEnd(net, c, k) && d in s.flight && d.pkt.call == c
    ensures EndsWithin(net, d.dst, k)
  {
    var y :| ComesOf(net, c, d.dst, y);
    forall z | FeedChain(net, z) && z[0] == d.dst
      ensures |z| <= k + 1
    {
      assert FeedChain(net, y + z[1..]);
    }
  }

  lemma {:induction false} RunPays(net: Net, steps: seq<Step>, pkt: Packet, k: nat)
    requires Sane(net) && FeedersUnknown(net) && !DoublyListed(net, pkt.call) && QuietExpiry(net, steps, pkt.call)
    requires pkt.call in net.clients && FeedsEnd(net, pkt.call, k)
    ensures Paid(net, Exec(net, steps), pkt, k)
  {
    if steps == [] {
      assert Reached(net, INITIAL, pkt) == {};
    } else {
      var before, step := steps[..|steps| - 1], steps[|steps| - 1];
      QuietBefore(net, steps, pkt.call);
      RunPays(net, before, pkt, k);
      var s := Exec(net, before);
      if Enabled(net, s, step) {
        match step
        case Send(sent) => SendPays(net, s, sent, pkt, k);
        case Lose(d) => LosePays(net, s, d, pkt, k);
        case Deliver(d, wanted) =>
          RunKeepsSent(net, before, pkt.call);
          if d.pkt == pkt {
            ComesToAnEnd(net, s, d, pkt.call, k);
          }
          AtMostOnce(net, steps, d.dst, pkt);
          ReceivePays(net, s, d, wanted, pkt, k);
        case _ => SameReached(net, s, Apply(net, s, step), pkt);
      }
    }
  }

  /** What a packet can cost: one datagram from the client and one to each relay listed, and
      what crossfeeds make of them. */
  ghost function Budget(net: Net, c: Callsign, k: nat): nat
    requires c in net.clients
  {
    Cost(net, net.clients[c].home, k) + Sum(multiset(net.servers.Keys), RelayWeight(net, k))
  }

  /** Forwarding of every packet ends: in any run there are at most so many deliveries and
      losses of its copies. */
  lemma ForwardingTerminates(net: Net, steps: seq<Step>, pkt: Packet, k: nat)
    requires Sane(net) && FeedersUnknown(net) && !DoublyListed(net, pkt.call) && QuietExpiry(net, steps, pkt.call)
    requires pkt.call in net.clients && FeedsEnd(net, pkt.call, k)
    ensures |Hops(Exec(net, steps).handled, pkt)| <= Budget(net, pkt.call, k)
  {
    RunPays(net, steps, pkt, k);
    var reached := Reached(net, Exec(net, steps), pkt);
    SumBelow(multiset(reached), multiset(net.servers.Keys), RelayWeight(net, k));
  }

  // ---------------------------------------------------------------------
  // Going on without end

  /** Whatever the servers make of it, a datagram goes along a chain of crossfeeds. */
  lemma {:induction false} FollowFeeds(net: Net, before: seq<Step>, d: Datagram, z: seq<Ip>) returns (steps: seq<Step>)
    requires FeedChain(net, z) && d in Exec(net, before).flight && d.dst == z[0]
    requires NeverExpires(before, d.pkt.call)
    ensures NeverExpires(steps, d.pkt.call)
    ensures |Hops(Exec(net, steps).handled, d.pkt)| >= |Hops(Exec(net, before).handled, d.pkt)| + |z|
    decreases |z|
  {
    var step := Deliver(d, {});
    var next := before + [step];
    var s := Exec(net, before);
    ExecSnoc(net, before, step);
    ReceiveFlight(net, s, d, {});
    HopsSnoc(s.handled, d, d.pkt);
    if |z| == 1 {
      steps := next;
    } else {
      var x := Datagram(d.dst, z[1], true, d.pkt);
      CopiesCount(net, d.dst, net.servers[d.dst].crossfeeds, d.pkt, x);
      CountIn(net.servers[d.dst].crossfeeds, z[1]);
      assert x in Fed(net, s, d).flight;
      assert FeedChain(net, z[1..]);
      steps := FollowFeeds(net, next, x, z[1..]);
    }
  }

  /** A datagram can be brought on the way to any server that packets come to. */
  lemma BringTo(net: Net, c: Callsign, y: Ip) returns (steps: seq<Step>, d: Datagram)
    requires Sane(net) && Gets(net, c, y)
    ensures NeverExpires(steps, c) && d in Exec(net, steps).flight && d.dst == y && d.pkt == Opening(c)
  {
    if y == net.clients[c].home {
      steps := SendOpening(net, c);
      d := Datagram(net.clients[c].addr, y, false, Opening(c));
    } else {
      var path :| SendsTo(net, c, path, y);
      steps := Follow(net, c, path);
      d := Datagram(path[|path| - 1], y, true, Opening(c));
      CountIn(net.servers[d.src].relays, y);
    }
  }

  lemma ChainIsFollowed(net: Net, c: Callsign, z: seq<Ip>) returns (steps: seq<Step>)
    requires Sane(net) && FeedChain(net, z) && Gets(net, c, z[0])
    ensures NeverExpires(steps, c) && |Hops(Exec(net, steps).handled, Opening(c))| >= |z|
  {
    var before, d := BringTo(net, c, z[0]);
    steps := FollowFeeds(net, before, d, z);
  }

  ghost predicate Bounded(net: Net, c: Callsign, bound: nat)
  {
    forall steps, pkt: Packet :: QuietExpiry(net, steps, c) && pkt.call == c ==>
      |Hops(Exec(net, steps).handled, pkt)| <= bound
  }

  /** In a network where packets are accepted at most once, forwarding is bounded exactly
      when the chains of crossfeeds that packets come to are. */
  lemma TerminatesIff(net: Net, c: Callsign)
    requires Sane(net) && FeedersUnknown(net) && !DoublyListed(net, c) && c in net.clients
    ensures (exists bound: nat :: Bounded(net, c, bound)) <==> (exists k: nat :: FeedsEnd(net, c, k))
  {
    if bound: nat :| Bounded(net, c, bound) {
      BoundedFeedsEnd(net, c, bound);
    }
    if k: nat :| FeedsEnd(net, c, k) {
      FeedsEndBounded(net, c, k);
    }
  }

  lemma BoundedFeedsEnd(net: Net, c: Callsign, bound: nat)
    requires Sane(net) && c in net.clients && Bounded(net, c, bound)
    ensures FeedsEnd(net, c, bound)
  {
    forall z | FeedChain(net, z) && Gets(net, c, z[0])
      ensures |z| <= bound + 1
    {
      var steps := ChainIsFollowed(net, c, z);
      NeverIsQuiet(net, steps, c);
      assert Opening(c).call == c;
    }
  }

  lemma FeedsEndBounded(net: Net, c: Callsign, k: nat)
    requires Sane(net) && FeedersUnknown(net) && !DoublyListed(net, c) && c in net.clients && FeedsEnd(net, c, k)
    ensures Bounded(net, c, Budget(net, c, k))
  {
    forall steps, pkt: Packet | QuietExpiry(net, steps, c) && pkt.call == c
      ensures |Hops(Exec(net, steps).handled, pkt)| <= Budget(net, c, k)
    {
      ForwardingTerminates(net, steps, pkt, k);
    }
  }
}
