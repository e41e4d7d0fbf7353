/** When is a packet accepted at most once if entries expire only in quiet times, in any
    network, with any relay and crossfeed lists? Exactly when no two ways lead to a server
    from the same relay that can both be gone while every server listens to one side. */
module RelayQuiet {
  import opened RelayRules
  import opened RelayNetwork
  import RelayOnce
  import opened RelayExpiry
  import opened Sums

  /** The address from which a copy comes that has gone a way. */
  function Source(net: Net, c: Callsign, w: Way): Ip
    requires c in net.clients
  {
    if w == [] then net.clients[c].addr else End(net, c, Front(w))
  }

  /** To go the way `w`, the server at the end of its part `u` must accept the packet, as it
      sends it to a relay. */
  predicate Inner(w: Way, u: Way)
  {
    u <= w && u != w && w[|u|].Relay?
  }

  /** Where the packet is accepted when it is accepted at the end of `w`. */
  predicate Needs(w: Way, u: Way)
  {
    u == w || Inner(w, u)
  }

  /** No server has to accept the packet from two sides. */
  ghost predicate Compatible(net: Net, c: Callsign, v: Way, w: Way)
    requires c in net.clients
  {
    forall t, u :: (Needs(v, t) || Needs(w, t)) && (Needs(v, u) || Needs(w, u)) && End(net, c, t) == End(net, c, u) ==>
      Source(net, c, t) == Source(net, c, u)
  }

  /** Two ways on which a server can hear the same packet. */
  ghost predicate Pair(net: Net, c: Callsign, v: Way, w: Way)
  {
    Goes(net, c, v) && Goes(net, c, w) && Rival(net, c, v, w) && Compatible(net, c, v, w)
  }

  /** A server can hear the same packet twice from the one side it listens to. */
  ghost predicate HeardAgain(net: Net, c: Callsign)
  {
    exists v, w :: Pair(net, c, v, w)
  }

  // ---------------------------------------------------------------------
  // What is accepted

  ghost function AcceptedAt(net: Net, c: Callsign, taken: set<Way>, n: Ip): set<Way>
    requires c in net.clients
  {
    set w | w in taken && End(net, c, w) == n
  }

  /** The ways `taken` are those on which the packet was accepted: every copy sent to a relay
      has come such a way, and while copies are under way, entries name their sources. */
  ghost predicate Heard(net: Net, s: State, c: Callsign, p: Packet, on: multiset<Way>, done: set<Way>, taken: set<Way>)
  {
    && Traced(net, s, c, p, on, done)
    && taken <= done
    && (forall w :: w in taken ==> Taken(net, c, w))
    && RelaysTaken(on, done, taken)
    && OneSided(net, c, taken)
    && Counted(net, c, s.accepted, p, taken)
    && (RelayOnce.UnderWay(s, p) ==> Named(net, s, c, taken))
  }

  ghost predicate OneSided(net: Net, c: Callsign, taken: set<Way>)
    requires c in net.clients
  {
    forall t, u :: t in taken && u in taken && End(net, c, t) == End(net, c, u) ==> Source(net, c, t) == Source(net, c, u)
  }

  ghost predicate Counted(net: Net, c: Callsign, accepted: multiset<(Ip, Packet)>, p: Packet, taken: set<Way>)
    requires c in net.clients
  {
    forall n: Ip :: accepted[(n, p)] <= |AcceptedAt(net, c, taken, n)|
  }

  ghost predicate RelaysTaken(on: multiset<Way>, done: set<Way>, taken: set<Way>)
  {
    forall w: Way :: w != [] && w[|w| - 1].Relay? && (w in on || w in done) ==> Front(w) in taken
  }

  ghost predicate Named(net: Net, s: State, c: Callsign, taken: set<Way>)
    requires c in net.clients
  {
    forall w :: w in taken ==>
      (End(net, c, w), c) in s.entries && s.entries[(End(net, c, w), c)].from == Source(net, c, w)
  }

  lemma DeliverHeard(net: Net, s: State, d: Datagram, wanted: set<Ip>, c: Callsign,
                     on: multiset<Way>, done: set<Way>, taken: set<Way>)
      returns (on': multiset<Way>, done': set<Way>, taken': set<Way>)
    requires Sane(net) && c in net.clients && EntryInv(net, s, c) && Heard(net, s, c, d.pkt, on, done, taken)
    requires d in s.flight && d.dst in net.servers && d.pkt.call == c
    ensures Heard(net, Receive(net, s, d, wanted), c, d.pkt, on', done', taken')
  {
    hide Receive, Traced, Taken, End, Copy, Source, Front, AllOnward, Fed, Copies, RelayTargets, Heeds,
      RelaysTaken, OneSided, Counted, Named, EntryInv, Sane;
    var s' := Receive(net, s, d, wanted);
    var w;
    w, on', done' := DeliverTraced(net, s, d, wanted, c, on, done);
    taken' := if Heeds(net, s, d) then taken + {w} else taken;
    assert RelayOnce.UnderWay(s, d.pkt);
    SourceIs(net, c, d.pkt, w);
    ReceiveEffect(net, s, d, wanted);
    RelaysHeard(net, c, on, done, taken, w, d.dst, d.src, Heeds(net, s, d), net.servers[d.dst].hub);
    if Heeds(net, s, d) {
      SidesStay(net, s, d, c, taken, w, s');
      CountedStays(net, c, s.accepted, d.pkt, taken, w);
    } else {
      NamesStay(net, s, s', c, taken);
    }
  }

  lemma NamesStay(net: Net, s: State, s': State, c: Callsign, taken: set<Way>)
    requires c in net.clients && Named(net, s, c, taken) && s'.entries == s.entries
    ensures Named(net, s', c, taken)
  {
    hide End, Source;
  }

  /** A server that has heard the packet from one side does not heed the other. */
  lemma SidesStay(net: Net, s: State, d: Datagram, c: Callsign, taken: set<Way>, w: Way, s': State)
    requires c in net.clients && d.dst in net.servers && d.pkt.call == c && Heeds(net, s, d)
    requires Named(net, s, c, taken) && OneSided(net, c, taken)
    requires End(net, c, w) == d.dst && Source(net, c, w) == d.src
    requires var k := (d.dst, c);
      && k in s'.entries && s'.entries[k].from == d.src
      && (if k in s.entries then s'.entries == s.entries else s'.entries == s.entries[k := Entry(d.src, !d.relayed)])
    ensures Named(net, s', c, taken + {w}) && OneSided(net, c, taken + {w})
  {
    hide End, Source;
  }

  lemma CountedStays(net: Net, c: Callsign, accepted: multiset<(Ip, Packet)>, p: Packet, taken: set<Way>, w: Way)
    requires c in net.clients && Counted(net, c, accepted, p, taken) && w !in taken
    ensures Counted(net, c, accepted + multiset{(End(net, c, w), p)}, p, taken + {w})
  {
    hide End, AcceptedAt;
    forall n: Ip
      ensures (accepted + multiset{(End(net, c, w), p)})[(n, p)] <= |AcceptedAt(net, c, taken + {w}, n)|
    {
      AcceptedGrows(net, c, taken, w, n);
    }
  }

  lemma SourceIs(net: Net, c: Callsign, p: Packet, w: Way)
    requires c in net.clients
    ensures Copy(net, c, p, w).src == Source(net, c, w)
  {
  }

  lemma AcceptedGrows(net: Net, c: Callsign, taken: set<Way>, w: Way, n: Ip)
    requires c in net.clients && w !in taken
    ensures |AcceptedAt(net, c, taken + {w}, n)| == |AcceptedAt(net, c, taken, n)| + if End(net, c, w) == n then 1 else 0
  {
    assert AcceptedAt(net, c, taken + {w}, n) == AcceptedAt(net, c, taken, n) + if End(net, c, w) == n then {w} else {};
  }

  lemma RelaysHeard(net: Net, c: Callsign, on: multiset<Way>, done: set<Way>, taken: set<Way>, w: Way,
                    u: Ip, from: Ip, heeds: bool, hub: bool)
    requires u in net.servers && w in on
    requires RelaysTaken(on, done, taken)
    ensures var on' := on - multiset{w} + AllOnward(net, w, u, from, heeds && (w == [] || hub));
      RelaysTaken(on', done + {w}, if heeds then taken + {w} else taken)
  {
    var on' := on - multiset{w} + AllOnward(net, w, u, from, heeds && (w == [] || hub));
    var taken' := if heeds then taken + {w} else taken;
    forall x: Way | x != [] && x[|x| - 1].Relay? && (x in on' || x in done + {w})
      ensures Front(x) in taken'
    {
      AllOnwardContains(net, w, u, from, heeds && (w == [] || hub), x);
      hide AllOnward, Front;
    }
  }

  ghost predicate EntriesStay(s: State, s': State, c: Callsign)
  {
    forall n: Ip :: (n, c) in s.entries ==> (n, c) in s'.entries && s'.entries[(n, c)] == s.entries[(n, c)]
  }

  /** Steps that do not concern the packet. */
  lemma SameHeard(net: Net, s: State, s': State, c: Callsign, p: Packet, on: multiset<Way>, done: set<Way>, taken: set<Way>)
    requires Heard(net, s, c, p, on, done, taken) && Traced(net, s', c, p, on, done)
    requires forall n: Ip :: s'.accepted[(n, p)] == s.accepted[(n, p)]
    requires RelayOnce.UnderWay(s', p) ==> RelayOnce.UnderWay(s, p) && EntriesStay(s, s', c)
    ensures Heard(net, s', c, p, on, done, taken)
  {
    hide Traced, Taken, End, Source, Front, RelaysTaken, OneSided, RelayOnce.UnderWay;
  }

  /** The packet is under way after a step only if it was before, or has just been sent. */
  lemma OtherUnderWay(net: Net, s: State, d: Datagram, wanted: set<Ip>, p: Packet)
    requires d in s.flight && d.dst in net.servers && d.pkt != p
    ensures RelayOnce.UnderWay(Receive(net, s, d, wanted), p) ==> RelayOnce.UnderWay(s, p)
  {
    var srv, s' := net.servers[d.dst], Receive(net, s, d, wanted);
    ReceiveEffect(net, s, d, wanted);
    if RelayOnce.UnderWay(s', p) {
      var x :| x in s'.flight && x.pkt == p;
      CopiesCount(net, d.dst, srv.crossfeeds, d.pkt, x);
      if Heeds(net, s, d) {
        CopiesCount(net, d.dst, RelayTargets(srv.relays, srv.hub, s'.entries[(d.dst, d.pkt.call)], wanted), d.pkt, x);
      }
      assert x in s.flight;
    }
  }

  lemma FewerUnderWay(s: State, s': State, p: Packet)
    requires forall x :: x in s'.flight && x.pkt == p ==> x in s.flight
    ensures RelayOnce.UnderWay(s', p) ==> RelayOnce.UnderWay(s, p)
  {
    if RelayOnce.UnderWay(s', p) {
      var x :| x in s'.flight && x.pkt == p;
      assert x in s.flight;
    }
  }

  lemma SendHeard(net: Net, s: State, p: Packet, c: Callsign, on: multiset<Way>, done: set<Way>, taken: set<Way>)
      returns (on': multiset<Way>, done': set<Way>, taken': set<Way>)
    requires Sane(net) && c in net.clients && Heard(net, s, c, p, on, done, taken) && p.call == c && p !in s.issued
    ensures Heard(net, Apply(net, s, Send(p)), c, p, on', done', taken')
  {
    NothingTaken(net, s, c, p, on, done, taken);
    hide Traced, Counted;
    on', done' := SendTraced(net, s, p, c, on, done);
    taken' := {};
  }

  lemma NothingTaken(net: Net, s: State, c: Callsign, p: Packet, on: multiset<Way>, done: set<Way>, taken: set<Way>)
    requires c in net.clients && Heard(net, s, c, p, on, done, taken) && p !in s.issued
    ensures Counted(net, c, s.accepted, p, {})
  {
    assert taken == {};
  }

  /** A step that does not concern the packet. */
  lemma Unconcerned(net: Net, s: State, s': State, c: Callsign, p: Packet, on: multiset<Way>, done: set<Way>, taken: set<Way>)
    requires Heard(net, s, c, p, on, done, taken) && p.call == c
    requires p in s.issued <==> p in s'.issued
    requires forall d: Datagram :: d.pkt == p ==> s'.flight[d] <= s.flight[d] && Traffic(s', d) <= Traffic(s, d)
    requires forall n: Ip :: s'.accepted[(n, p)] == s.accepted[(n, p)]
    requires EntriesStay(s, s', c) || Idle(s, c)
    ensures Heard(net, s', c, p, on, done, taken)
  {
    FewerUnderWay(s, s', p);
    hide Traced, Counted, Named, OneSided, RelaysTaken;
    SameTraced(net, s, s', c, p, on, done);
    SameHeard(net, s, s', c, p, on, done, taken);
  }

  lemma OthersHeard(net: Net, s: State, d: Datagram, wanted: set<Ip>, c: Callsign, p: Packet,
                    on: multiset<Way>, done: set<Way>, taken: set<Way>)
    requires Heard(net, s, c, p, on, done, taken) && p.call == c && d.pkt != p && d in s.flight && d.dst in net.servers
    ensures Heard(net, Receive(net, s, d, wanted), c, p, on, done, taken)
  {
    hide Traced, Counted, Named, OneSided, RelaysTaken, Receive;
    OtherTraced(net, s, d, wanted, c, p, on, done);
    OtherUnderWay(net, s, d, wanted, p);
    ReceiveEffect(net, s, d, wanted);
    SameHeard(net, s, Receive(net, s, d, wanted), c, p, on, done, taken);
  }

  lemma StepHeard(net: Net, s: State, step: Step, c: Callsign, p: Packet, on: multiset<Way>, done: set<Way>, taken: set<Way>)
      returns (on': multiset<Way>, done': set<Way>, taken': set<Way>)
    requires Sane(net) && c in net.clients && EntryInv(net, s, c) && Enabled(net, s, step)
    requires Heard(net, s, c, p, on, done, taken) && p.call == c
    requires step.Expire? && step.call == c ==> Idle(s, c)
    ensures Heard(net, Apply(net, s, step), c, p, on', done', taken')
  {
    hide Heard, Receive, EntryInv;
    on', done', taken' := on, done, taken;
    if step.Deliver? {
      if step.d.pkt == p {
        on', done', taken' := DeliverHeard(net, s, step.d, step.wanted, c, on, done, taken);
      } else {
        OthersHeard(net, s, step.d, step.wanted, c, p, on, done, taken);
      }
    } else if step == Send(p) {
      on', done', taken' := SendHeard(net, s, p, c, on, done, taken);
    } else {
      OtherStep(net, s, step, p);
      OtherEntries(net, s, step, c);
      Unconcerned(net, s, Apply(net, s, step), c, p, on, done, taken);
    }
  }

  lemma OtherEntries(net: Net, s: State, step: Step, c: Callsign)
    requires Enabled(net, s, step) && !step.Deliver? && (step.Expire? && step.call == c ==> Idle(s, c))
    ensures EntriesStay(s, Apply(net, s, step), c) || Idle(s, c)
  {
  }

  lemma {:induction false} RunHeard(net: Net, steps: seq<Step>, c: Callsign, p: Packet)
      returns (on: multiset<Way>, done: set<Way>, taken: set<Way>)
    requires Sane(net) && c in net.clients && p.call == c && QuietExpiry(net, steps, c)
    ensures Heard(net, Exec(net, steps), c, p, on, done, taken)
  {
    on, done, taken := multiset{}, {}, {};
    if steps != [] {
      var before, step := steps[..|steps| - 1], steps[|steps| - 1];
      RelayOnce.QuietBefore(net, steps, c);
      RunKeepsEntries(net, before, c);
      on, done, taken := RunHeard(net, before, c, p);
      if Enabled(net, Exec(net, before), step) {
        on, done, taken := StepHeard(net, Exec(net, before), step, c, p, on, done, taken);
      }
    }
  }

  /** The servers that had to accept for a copy to come a way have accepted. */
  lemma {:induction false} InnerTaken(on: multiset<Way>, done: set<Way>, taken: set<Way>, w: Way, u: Way)
    requires RelaysTaken(on, done, taken) && (w in done || w in on) && Inner(w, u)
    requires forall x :: (x in done || x in on) && x != [] ==> Front(x) in done
    ensures u in taken
    decreases |w|
  {
    var front := Front(w);
    assert front == w[..|w| - 1];
    if |u| == |front| {
      assert u == front;
    } else {
      assert u <= front && front[|u|] == w[|u|];
      InnerTaken(on, done, taken, front, u);
    }
  }

  /** No server accepts a packet twice. */
  lemma AtMostOnce(net: Net, steps: seq<Step>, n: Ip, pkt: Packet)
    requires Sane(net) && !HeardAgain(net, pkt.call) && QuietExpiry(net, steps, pkt.call)
    ensures Exec(net, steps).accepted[(n, pkt)] <= 1
  {
    var c := pkt.call;
    if c in net.clients {
      var on, done, taken := RunHeard(net, steps, c, pkt);
      forall v, w | v in AcceptedAt(net, c, taken, n) && w in AcceptedAt(net, c, taken, n)
        ensures v == w
      {
        if v != w {
          BothAccepted(net, Exec(net, steps), c, pkt, on, done, taken, v, w);
        }
      }
      OneAtMost(AcceptedAt(net, c, taken, n));
    } else {
      NeverSent(net, steps, c);
    }
  }

  lemma BothAccepted(net: Net, s: State, c: Callsign, p: Packet, on: multiset<Way>, done: set<Way>, taken: set<Way>, v: Way, w: Way)
    requires Heard(net, s, c, p, on, done, taken) && v in taken && w in taken && v != w && End(net, c, v) == End(net, c, w)
    ensures HeardAgain(net, c)
  {
    forall t | Needs(v, t) || Needs(w, t)
      ensures t in taken
    {
      if t !in {v, w} {
        InnerTaken(on, done, taken, if Inner(v, t) then v else w, t);
      }
    }
    assert Compatible(net, c, v, w);
    assert Rival(net, c, v, w);
    assert Pair(net, c, v, w);
  }

  // ---------------------------------------------------------------------
  // Servers can be made to accept on some ways, and on no others

  /** A choice of the ways on which the packet is to be accepted, for each server from one
      side only. */
  ghost predicate Plan(net: Net, c: Callsign, must: iset<Way>)
  {
    && c in net.clients
    && (forall u :: u in must ==> Goes(net, c, u) && Taken(net, c, u))
    && forall t, u :: t in must && u in must && End(net, c, t) == End(net, c, u) ==> Source(net, c, t) == Source(net, c, u)
  }

  lemma {:induction false} GoesPrefix(net: Net, c: Callsign, v: Way, u: Way)
    requires Goes(net, c, v) && u <= v
    ensures Goes(net, c, u)
    decreases |v|
  {
    if u != v {
      assert u <= Front(v);
      GoesPrefix(net, c, Front(v), u);
    } else {
      assert u == v;
    }
  }

  lemma InnerGoes(net: Net, c: Callsign, v: Way, u: Way)
    requires Goes(net, c, v) && Inner(v, u)
    ensures Goes(net, c, u) && Taken(net, c, u)
  {
    hide Goes, Taken, End;
    GoesPrefix(net, c, v, u);
    assert v[..|u| + 1] == u + [v[|u|]];
    GoesPrefix(net, c, v, u + [v[|u|]]);
    GoesSnoc(net, c, u, v[|u|]);
  }

  ghost function Kept(done: set<Way>, must: iset<Way>): set<Way>
  {
    set u | u in done && u in must
  }

  ghost predicate AccountedBy(net: Net, s: State, c: Callsign, must: iset<Way>, done: set<Way>)
    requires c in net.clients
  {
    forall n: Ip :: s.accepted[(n, RelayOnce.Opening(c))] >= |AcceptedAt(net, c, Kept(done, must), n)|
  }

  ghost predicate ContinuedBy(net: Net, c: Callsign, must: iset<Way>, on: multiset<Way>, done: set<Way>)
  {
    forall u: Way, h: Hop :: GoneOn(net, c, must, on, done, u, h)
  }

  ghost predicate GoneOn(net: Net, c: Callsign, must: iset<Way>, on: multiset<Way>, done: set<Way>, u: Way, h: Hop)
  {
    u in done && Goes(net, c, u + [h]) && (h.Feed? || u in must) ==> u + [h] in on || u + [h] in done
  }

  /** Entries have been made by ways on which the packet was to be accepted. */
  ghost predicate EntriesBy(net: Net, s: State, c: Callsign, must: iset<Way>)
    requires c in net.clients
  {
    forall n: Ip :: (n, c) in s.entries ==> exists u :: MadeBy(net, s, c, must, n, u)
  }

  ghost predicate MadeBy(net: Net, s: State, c: Callsign, must: iset<Way>, n: Ip, u: Way)
    requires c in net.clients && (n, c) in s.entries
  {
    && u in must && Goes(net, c, u) && End(net, c, u) == n
    && s.entries[(n, c)] == Entry(Source(net, c, u), u == [])
  }

  /** A run has gone the ways `done` to their ends, and has copies on the ways `on` from
      there; where the packet was to be accepted, it has been. */
  ghost predicate Steered(net: Net, s: State, c: Callsign, must: iset<Way>, on: multiset<Way>, done: set<Way>)
    requires c in net.clients
  {
    && Enough(net, c, s.flight, on)
    && AllGo(net, c, on)
    && ([] in on || [] in done)
    && OnlyUnknown(net, s.blocked)
    && AccountedBy(net, s, c, must, done)
    && ContinuedBy(net, c, must, on, done)
    && EntriesBy(net, s, c, must)
    && |Hops(s.handled, RelayOnce.Opening(c))| >= |done|
  }

  lemma OnwardHas(net: Net, c: Callsign, u: Way, from: Ip, relays: bool, h: Hop)
    requires c in net.clients && Goes(net, c, u) && End(net, c, u) in net.servers && Goes(net, c, u + [h])
    requires h.Feed? || relays || !(u == [] || net.servers[End(net, c, u)].hub)
    requires if u == [] then from !in net.servers else from == End(net, c, Front(u))
    ensures u + [h] in AllOnward(net, u, End(net, c, u), from, relays)
  {
    GoesSnoc(net, c, u, h);
    hide AllOnward, End, Goes, Taken;
    AllOnwardContains(net, u, End(net, c, u), from, relays, u + [h]);
  }

  lemma ContinuesBy(net: Net, c: Callsign, must: iset<Way>, on: multiset<Way>, done: set<Way>, u: Way, from: Ip, relays: bool)
    requires c in net.clients && Goes(net, c, u) && End(net, c, u) in net.servers && ContinuedBy(net, c, must, on, done)
    requires relays <==> u in must && (u == [] || net.servers[End(net, c, u)].hub)
    requires if u == [] then from !in net.servers else from == End(net, c, Front(u))
    ensures ContinuedBy(net, c, must, on - multiset{u} + AllOnward(net, u, End(net, c, u), from, relays), done + {u})
  {
    hide AllOnward, End, Goes, Taken, Front;
    var more := AllOnward(net, u, End(net, c, u), from, relays);
    var on', done' := on - multiset{u} + more, done + {u};
    forall t: Way, h: Hop
      ensures GoneOn(net, c, must, on', done', t, h)
    {
      assert GoneOn(net, c, must, on, done, t, h);
      if t == u && Goes(net, c, u + [h]) && (h.Feed? || u in must) {
        OnwardHas(net, c, u, from, relays, h);
      }
    }
  }

  lemma MoreAccountedBy(net: Net, s: State, c: Callsign, must: iset<Way>, done: set<Way>, u: Way, s': State)
    requires c in net.clients && AccountedBy(net, s, c, must, done) && u !in done
    requires s'.accepted ==
      if u in must then s.accepted + multiset{(End(net, c, u), RelayOnce.Opening(c))} else s.accepted
    ensures AccountedBy(net, s', c, must, done + {u})
  {
    hide End, AcceptedAt;
    var kept := Kept(done, must);
    assert Kept(done + {u}, must) == if u in must then kept + {u} else kept;
    forall n: Ip
      ensures s'.accepted[(n, RelayOnce.Opening(c))] >= |AcceptedAt(net, c, Kept(done + {u}, must), n)|
    {
      assert s.accepted[(n, RelayOnce.Opening(c))] >= |AcceptedAt(net, c, kept, n)|;
      if u in must {
        AcceptedGrows(net, c, kept, u, n);
      }
    }
  }

  /** The copy on a way is under way. */
  lemma CopyReady(net: Net, c: Callsign, flight: multiset<Datagram>, on: multiset<Way>, u: Way)
    requires Sane(net) && c in net.clients && Enough(net, c, flight, on) && AllGo(net, c, on) && u in on
    ensures var d := Copy(net, c, RelayOnce.Opening(c), u);
      && d in flight && d.dst == End(net, c, u) && d.dst in net.servers && d.pkt == RelayOnce.Opening(c)
      && d.src == Source(net, c, u) && d.relayed == (u != [])
      && (if u == [] then d.src !in net.servers else d.src in net.servers && d.src == End(net, c, Front(u)))
      && Goes(net, c, u)
  {
    var d := Copy(net, c, RelayOnce.Opening(c), u);
    GoesToServer(net, c, u);
    if u != [] {
      GoesToServer(net, c, Front(u));
    }
    SumTake(on, Is(net, c, RelayOnce.Opening(c), d), u);
    assert flight[d] >= Sum(on, Is(net, c, RelayOnce.Opening(c), d));
  }

  /** A copy has come to the end of its way `u`, and been accepted there if it was to be. */
  lemma SteeredOn(net: Net, s: State, c: Callsign, must: iset<Way>, on: multiset<Way>, done: set<Way>,
                  u: Way, d: Datagram, relays: bool, s': State)
    requires c in net.clients && Steered(net, s, c, must, on, done) && u in on && u !in done
    requires d.dst == End(net, c, u) && d.dst in net.servers && d.pkt == RelayOnce.Opening(c) && Goes(net, c, u)
    requires relays <==> u in must && (u == [] || net.servers[d.dst].hub)
    requires if u == [] then d.src !in net.servers else d.src == End(net, c, Front(u))
    requires u in must ==> Taken(net, c, u)
    requires s'.accepted == if u in must then s.accepted + multiset{(d.dst, d.pkt)} else s.accepted
    requires s'.handled == s.handled + [d] && OnlyUnknown(net, s'.blocked) && EntriesBy(net, s', c, must)
    requires Enough(net, c, s'.flight, on - multiset{u} + AllOnward(net, u, d.dst, d.src, relays))
    ensures Steered(net, s', c, must, on - multiset{u} + AllOnward(net, u, d.dst, d.src, relays), done + {u})
  {
    hide AllOnward, Taken, Goes, End, AccountedBy, ContinuedBy, Enough, AllGo, OnlyUnknown, Front, EntriesBy, Hops;
    HopsSnoc(s.handled, d, d.pkt);
    ContinuesBy(net, c, must, on, done, u, d.src, relays);
    MoreAccountedBy(net, s, c, must, done, u, s');
    AllGoOn(net, c, on, u, d.src, relays);
  }

  /** Where the packet is to be accepted, it is. */
  lemma DeliverMust(net: Net, s: State, c: Callsign, must: iset<Way>, on: multiset<Way>, done: set<Way>, u: Way)
    requires Sane(net) && Plan(net, c, must)
    requires Steered(net, s, c, must, on, done) && u in on && u !in done && u in must
    ensures var d := Copy(net, c, RelayOnce.Opening(c), u);
      && d in s.flight && d.dst in net.servers
      && Steered(net, Receive(net, s, d, net.servers.Keys), c, must,
                 on - multiset{u} + AllOnward(net, u, d.dst, d.src, u == [] || IsRelaying(net, d.dst)), done + {u})
  {
    var d, all := Copy(net, c, RelayOnce.Opening(c), u), net.servers.Keys;
    var s' := Receive(net, s, d, all);
    CopyReady(net, c, s.flight, on, u);
    assert Enough(net, c, s.flight, on) && AllGo(net, c, on) && OnlyUnknown(net, s.blocked);
    Heeded(net, s, c, must, d, u);
    ReceiveEffect(net, s, d, all);
    EntriesStayBy(net, s, c, must, d, u, s');
    hide Receive, Heeds, AllOnward, Taken, Is, Goes, End, Copy, AccountedBy, ContinuedBy, Enough, AllGo, OnlyUnknown,
      Front, Fed, Copies, EntriesBy, Plan, Source, RelayTargets, Steered;
    BlockedStays(net, s, d, all);
    EnoughStays(net, s, c, on, u, d);
    SteeredOn(net, s, c, must, on, done, u, d, u == [] || net.servers[d.dst].hub, s');
  }

  predicate IsRelaying(net: Net, n: Ip)
  {
    n in net.servers && net.servers[n].hub
  }

  lemma Heeded(net: Net, s: State, c: Callsign, must: iset<Way>, d: Datagram, u: Way)
    requires Plan(net, c, must) && EntriesBy(net, s, c, must) && OnlyUnknown(net, s.blocked)
    requires d == Copy(net, c, RelayOnce.Opening(c), u) && d.dst == End(net, c, u) && d.dst in net.servers
    requires d.src == Source(net, c, u) && d.relayed == (u != []) && (u == [] ==> d.src !in net.servers)
    requires u in must
    ensures Heeds(net, s, d) && Taken(net, c, u)
  {
    if (d.dst, c) in s.entries {
      var t :| MadeBy(net, s, c, must, d.dst, t);
    }
  }

  lemma EntriesStayBy(net: Net, s: State, c: Callsign, must: iset<Way>, d: Datagram, u: Way, s': State)
    requires Sane(net) && Plan(net, c, must) && EntriesBy(net, s, c, must)
    requires d.dst == End(net, c, u) && d.src == Source(net, c, u) && d.relayed == (u != [])
    requires u in must && Goes(net, c, u)
    requires var k := (d.dst, c);
      if k in s.entries then s'.entries == s.entries else s'.entries == s.entries[k := Entry(d.src, !d.relayed)]
    ensures EntriesBy(net, s', c, must)
    ensures (d.dst, c) in s'.entries && (s'.entries[(d.dst, c)].isLocal <==> u == [])
  {
    forall n: Ip | (n, c) in s'.entries
      ensures exists t :: MadeBy(net, s', c, must, n, t)
    {
      if (n, c) in s.entries {
        var t :| MadeBy(net, s, c, must, n, t);
        assert MadeBy(net, s', c, must, n, t);
      } else {
        assert MadeBy(net, s', c, must, n, u);
      }
    }
    var t :| MadeBy(net, s', c, must, d.dst, t);
    SidesDiffer(net, c, t);
    SidesDiffer(net, c, u);
  }

  lemma SidesDiffer(net: Net, c: Callsign, u: Way)
    requires Sane(net) && Goes(net, c, u)
    ensures Source(net, c, u) in net.servers <==> u != []
  {
    if u != [] {
      GoesToServer(net, c, Front(u));
    }
  }

  /** Where the packet is not to be accepted, the server does not take it: the blacklist
      stops it, but not its crossfeed copies. */
  lemma DeliverBlocked(net: Net, s: State, c: Callsign, must: iset<Way>, on: multiset<Way>, done: set<Way>, u: Way, s': State)
    requires Sane(net) && c in net.clients && Steered(net, s, c, must, on, done) && u in on && u !in done && u !in must
    requires var d := Copy(net, c, RelayOnce.Opening(c), u);
      d in s.flight && d.dst in net.servers ==>
        var barred := s.(blocked := s.blocked + {(d.dst, d.src)});
        var after := Receive(net, barred, d, net.servers.Keys);
        s' == after.(blocked := after.blocked - {(d.dst, d.src)})
    ensures var d := Copy(net, c, RelayOnce.Opening(c), u);
      && d in s.flight && d.dst in net.servers
      && Steered(net, s', c, must, on - multiset{u} + AllOnward(net, u, d.dst, d.src, false), done + {u})
  {
    var d, all := Copy(net, c, RelayOnce.Opening(c), u), net.servers.Keys;
    CopyReady(net, c, s.flight, on, u);
    assert Enough(net, c, s.flight, on) && AllGo(net, c, on) && OnlyUnknown(net, s.blocked) && EntriesBy(net, s, c, must);
    var barred := s.(blocked := s.blocked + {(d.dst, d.src)});
    Barred(net, s, d, all);
    hide Receive, Heeds, AllOnward, Taken, Is, Goes, End, Copy, AccountedBy, ContinuedBy, Enough, AllGo, OnlyUnknown,
      Front, Fed, Copies, EntriesBy, Source, Steered;
    EnoughStays(net, barred, c, on, u, d);
    SameEntriesBy(net, s, c, must, s');
    FewerBlocked(net, s.blocked, s'.blocked);
    SteeredOn(net, s, c, must, on, done, u, d, false, s');
  }

  lemma FewerBlocked(net: Net, blocked: set<(Ip, Ip)>, blocked': set<(Ip, Ip)>)
    requires OnlyUnknown(net, blocked) && blocked' <= blocked
    ensures OnlyUnknown(net, blocked')
  {
  }

  lemma SameEntriesBy(net: Net, s: State, c: Callsign, must: iset<Way>, s': State)
    requires c in net.clients && EntriesBy(net, s, c, must) && s'.entries == s.entries
    ensures EntriesBy(net, s', c, must)
  {
    forall n: Ip | (n, c) in s'.entries
      ensures exists u :: MadeBy(net, s', c, must, n, u)
    {
      var u :| MadeBy(net, s, c, must, n, u);
      assert MadeBy(net, s', c, must, n, u);
    }
  }

  lemma Barred(net: Net, s: State, d: Datagram, wanted: set<Ip>)
    requires d in s.flight && d.dst in net.servers
    ensures var barred := s.(blocked := s.blocked + {(d.dst, d.src)});
      var after := Receive(net, barred, d, wanted);
      && !Heeds(net, barred, d)
      && after.entries == s.entries && after.accepted == s.accepted && after.handled == s.handled + [d]
      && after.blocked - {(d.dst, d.src)} <= s.blocked
  {
  }

  /** One way is gone to its end. */
  lemma GoOn(net: Net, c: Callsign, before: seq<Step>, must: iset<Way>, on: multiset<Way>, done: set<Way>, u: Way)
      returns (steps: seq<Step>, on': multiset<Way>, done': set<Way>)
    requires Sane(net) && Plan(net, c, must) && NeverExpires(before, c)
    requires Steered(net, Exec(net, before), c, must, on, done) && u in on && u !in done
    ensures NeverExpires(steps, c) && Steered(net, Exec(net, steps), c, must, on', done') && done' == done + {u}
  {
    hide Steered, Receive, Exec, AllOnward, Copy;
    var s, d := Exec(net, before), Copy(net, c, RelayOnce.Opening(c), u);
    var step := Deliver(d, net.servers.Keys);
    done' := done + {u};
    if u in must {
      DeliverMust(net, s, c, must, on, done, u);
      ExecSnoc(net, before, step);
      steps := before + [step];
      on' := on - multiset{u} + AllOnward(net, u, d.dst, d.src, u == [] || IsRelaying(net, d.dst));
    } else {
      steps := before + [SetBlocked(d.dst, d.src, true)] + [step] + [SetBlocked(d.dst, d.src, false)];
      ExecSnoc(net, before, SetBlocked(d.dst, d.src, true));
      ExecSnoc(net, before + [SetBlocked(d.dst, d.src, true)], step);
      ExecSnoc(net, before + [SetBlocked(d.dst, d.src, true)] + [step], SetBlocked(d.dst, d.src, false));
      DeliverBlocked(net, s, c, must, on, done, u, Exec(net, steps));
      on' := on - multiset{u} + AllOnward(net, u, d.dst, d.src, false);
    }
  }

  /** A way can be gone to its end, if the packet is to be accepted where it must be. */
  lemma {:induction false} GoTo(net: Net, c: Callsign, before: seq<Step>, must: iset<Way>, on: multiset<Way>, done: set<Way>, u: Way)
      returns (steps: seq<Step>, on': multiset<Way>, done': set<Way>)
    requires Sane(net) && Plan(net, c, must) && NeverExpires(before, c)
    requires Steered(net, Exec(net, before), c, must, on, done)
    requires Goes(net, c, u) && forall t :: Inner(u, t) ==> t in must
    ensures NeverExpires(steps, c) && Steered(net, Exec(net, steps), c, must, on', done')
    ensures done <= done' && forall t :: t <= u ==> t in done'
    decreases |u|
  {
    steps, on', done' := before, on, done;
    if u != [] {
      forall t | Inner(Front(u), t)
        ensures t in must
      {
        assert Inner(u, t);
      }
      steps, on', done' := GoTo(net, c, before, must, on, done, Front(u));
      OnItsWay(net, c, Exec(net, steps), must, on', done', u);
    }
    hide Plan, Exec, Steered, Goes;
    if u !in done' {
      steps, on', done' := GoOn(net, c, steps, must, on', done', u);
    }
    forall t | t <= u
      ensures t in done'
    {
      if t != u {
        assert t <= Front(u);
      }
    }
  }

  lemma OnItsWay(net: Net, c: Callsign, s: State, must: iset<Way>, on: multiset<Way>, done: set<Way>, u: Way)
    requires c in net.clients && Steered(net, s, c, must, on, done)
    requires Goes(net, c, u) && u != [] && Front(u) in done && (Inner(u, Front(u)) ==> Front(u) in must)
    ensures u in on || u in done
  {
    var front, h := Front(u), u[|u| - 1];
    assert front + [h] == u;
    hide Goes;
    assert GoneOn(net, c, must, on, done, front, h);
  }

  lemma StartSteered(net: Net, c: Callsign, must: iset<Way>, steps: seq<Step>)
    requires c in net.clients
    requires var cl := net.clients[c];
      Exec(net, steps) == INITIAL.(flight := multiset{Datagram(cl.addr, cl.home, false, RelayOnce.Opening(c))},
                                   issued := {RelayOnce.Opening(c)})
    ensures Steered(net, Exec(net, steps), c, must, multiset{[]}, {})
  {
    SentTrailed(net, c, steps);
    assert Kept({}, must) == {};
  }

  /** Two compatible ways to a server make it accept twice, and no entry expires. */
  lemma HeardAgainDuplicates(net: Net, c: Callsign) returns (steps: seq<Step>, n: Ip)
    requires Sane(net) && HeardAgain(net, c)
    ensures NeverExpires(steps, c) && Exec(net, steps).accepted[(n, RelayOnce.Opening(c))] >= 2
  {
    var v, w :| Pair(net, c, v, w);
    n := End(net, c, v);
    steps := PairDuplicates(net, c, v, w);
  }

  lemma PairPlan(net: Net, c: Callsign, v: Way, w: Way)
    requires Pair(net, c, v, w)
    ensures Plan(net, c, iset u | Needs(v, u) || Needs(w, u))
  {
    forall u | Needs(v, u) || Needs(w, u)
      ensures Goes(net, c, u) && Taken(net, c, u)
    {
      if u !in {v, w} {
        InnerGoes(net, c, if Inner(v, u) then v else w, u);
      }
    }
  }

  lemma PairDuplicates(net: Net, c: Callsign, v: Way, w: Way) returns (steps: seq<Step>)
    requires Sane(net) && c in net.clients && Pair(net, c, v, w)
    ensures NeverExpires(steps, c) && Exec(net, steps).accepted[(End(net, c, v), RelayOnce.Opening(c))] >= 2
  {
    PairPlan(net, c, v, w);
    hide Plan, Exec, Goes, End, Compatible, Taken;
    var must := iset u | Needs(v, u) || Needs(w, u);
    steps := RelayOnce.SendOpening(net, c);
    var on, done := multiset{[]}, {};
    StartSteered(net, c, must, steps);
    steps, on, done := GoTo(net, c, steps, must, on, done, v);
    assert v in done;
    steps, on, done := GoTo(net, c, steps, must, on, done, w);
    assert w in done;
    TwoAccepted(net, Exec(net, steps), c, must, done, v, w);
  }

  lemma TwoAccepted(net: Net, s: State, c: Callsign, must: iset<Way>, done: set<Way>, v: Way, w: Way)
    requires c in net.clients && AccountedBy(net, s, c, must, done) && v != w && End(net, c, v) == End(net, c, w)
    requires v in done && w in done && v in must && w in must
    ensures s.accepted[(End(net, c, v), RelayOnce.Opening(c))] >= 2
  {
    var at := AcceptedAt(net, c, Kept(done, must), End(net, c, v));
    assert {v, w} <= at;
    FewerOf({v, w}, at);
  }

  /** Packets are accepted at most once in all runs with quiet expiries, in any network,
      exactly when no server can hear them again from the side it listens to. */
  lemma AtMostOnceIff(net: Net, c: Callsign)
    requires Sane(net)
    ensures !HeardAgain(net, c) <==>
      forall steps, n, pkt: Packet :: QuietExpiry(net, steps, c) && pkt.call == c ==>
        Exec(net, steps).accepted[(n, pkt)] <= 1
  {
    if HeardAgain(net, c) {
      var steps, n := HeardAgainDuplicates(net, c);
      NeverIsQuiet(net, steps, c);
      assert Exec(net, steps).accepted[(n, RelayOnce.Opening(c))] > 1;
    } else {
      forall steps, n, pkt: Packet | QuietExpiry(net, steps, c) && pkt.call == c
        ensures Exec(net, steps).accepted[(n, pkt)] <= 1
      {
        AtMostOnce(net, steps, n, pkt);
      }
    }
  }
}
