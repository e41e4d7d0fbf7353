/** When is the number of copies of a packet bounded, in any network? Exactly when the ways
    that a copy can go are, and these may be the ones gone while entries stay, or all. */
module RelayBounds {
  import opened RelayRules
  import opened RelayNetwork
  import RelayOnce
  import opened RelayExpiry
  import opened RelayQuiet
  import RelayTermination
  import opened Sums

  /** No server would have to accept the packet from two sides for a copy to come this way. */
  ghost predicate Passable(net: Net, c: Callsign, w: Way)
  {
    && Goes(net, c, w)
    && forall t, u :: Inner(w, t) && Inner(w, u) && End(net, c, t) == End(net, c, u) ==>
         Source(net, c, t) == Source(net, c, u)
  }

  ghost predicate WaysEnd(net: Net, c: Callsign, b: nat)
  {
    forall w :: Goes(net, c, w) ==> |w| <= b
  }

  ghost predicate PassableWaysEnd(net: Net, c: Callsign, b: nat)
  {
    forall w :: Passable(net, c, w) ==> |w| <= b
  }

  /** Whatever expires, there are at most so many deliveries and losses of a packet. */
  ghost predicate AlwaysBounded(net: Net, c: Callsign, bound: nat)
  {
    forall steps, pkt: Packet :: pkt.call == c ==> |Hops(Exec(net, steps).handled, pkt)| <= bound
  }

  // ---------------------------------------------------------------------
  // There are finitely many ways of a length

  function Lengths(net: Net): Ip -> nat
  {
    n => if n in net.servers then |net.servers[n].relays| + |net.servers[n].crossfeeds| else 0
  }

  ghost function AllHops(net: Net): set<Hop>
  {
    var most := Sum(multiset(net.servers.Keys), Lengths(net));
    (set j: nat | j < most :: Relay(j)) + (set j: nat | j < most :: Feed(j))
  }

  ghost function Strings(hops: set<Hop>, b: nat): set<Way>
  {
    if b == 0 then {[]} else {[]} + set w, h | w in Strings(hops, b - 1) && h in hops :: w + [h]
  }

  lemma {:induction false} StringsHold(hops: set<Hop>, b: nat, w: Way)
    requires |w| <= b && forall h :: h in w ==> h in hops
    ensures w in Strings(hops, b)
  {
    if w != [] {
      var h := w[|w| - 1];
      StringsHold(hops, b - 1, Front(w));
      assert w == Front(w) + [h] && h in hops;
    }
  }

  lemma {:induction false} GoesInHops(net: Net, c: Callsign, w: Way)
    requires Goes(net, c, w)
    ensures forall h :: h in w ==> h in AllHops(net)
    decreases |w|
  {
    if w != [] {
      var h, u := w[|w| - 1], End(net, c, Front(w));
      GoesInHops(net, c, Front(w));
      SumTake(multiset(net.servers.Keys), Lengths(net), u);
      assert h in AllHops(net);
      assert w == Front(w) + [h];
    }
  }

  lemma {:induction false} HopsBelow(net: Net, c: Callsign, log: seq<Datagram>, p: Packet, ways: multiset<Way>)
    requires c in net.clients
    requires forall d: Datagram :: d.pkt == p ==> multiset(log)[d] <= Sum(ways, Is(net, c, p, d))
    ensures |Hops(log, p)| <= |ways|
    decreases |log|
  {
    if log != [] {
      var front, d := log[..|log| - 1], log[|log| - 1];
      assert log == front + [d] && multiset(log) == multiset(front) + multiset{d};
      if d.pkt == p {
        assert multiset(log)[d] >= 1;
        var w := SumPositive(ways, net, c, p, d);
        forall x: Datagram | x.pkt == p
          ensures multiset(front)[x] <= Sum(ways - multiset{w}, Is(net, c, p, x))
        {
          SumTake(ways, Is(net, c, p, x), w);
        }
        HopsBelow(net, c, front, p, ways - multiset{w});
      } else {
        HopsBelow(net, c, front, p, ways);
      }
    }
  }

  ghost function All(on: multiset<Way>, done: set<Way>): set<Way>
  {
    (set w | w in on) + done
  }

  /** As many copies as ways. */
  lemma HopsAreWays(net: Net, s: State, c: Callsign, p: Packet, on: multiset<Way>, done: set<Way>)
    requires Traced(net, s, c, p, on, done)
    ensures |Hops(s.handled, p)| <= |All(on, done)|
    ensures forall w :: w in All(on, done) ==> Goes(net, c, w)
  {
    hide Is, Goes;
    forall w
      ensures multiset(All(on, done))[w] == (on + multiset(done))[w]
    {
      assert w in on ==> OnWay(net, c, on, done, w);
    }
    assert multiset(All(on, done)) == on + multiset(done);
    forall d: Datagram | d.pkt == p
      ensures multiset(s.handled)[d] <= Sum(on + multiset(done), Is(net, c, p, d))
    {
      assert Traffic(s, d) <= Sum(on + multiset(done), Is(net, c, p, d));
    }
    HopsBelow(net, c, s.handled, p, on + multiset(done));
    forall w | w in on
      ensures Goes(net, c, w)
    {
      assert OnWay(net, c, on, done, w);
    }
  }

  lemma FewWays(net: Net, c: Callsign, ways: set<Way>, b: nat)
    requires forall w :: w in ways ==> Goes(net, c, w) && |w| <= b
    ensures |ways| <= |Strings(AllHops(net), b)|
  {
    forall w | w in ways
      ensures w in Strings(AllHops(net), b)
    {
      GoesInHops(net, c, w);
      StringsHold(AllHops(net), b, w);
    }
    FewerOf(ways, Strings(AllHops(net), b));
  }

  lemma {:induction false} PartsCount(done: set<Way>, w: Way)
    requires forall t :: t <= w ==> t in done
    ensures |done| > |w|
    decreases |w|
  {
    assert w in done;
    if w != [] {
      forall t | t <= Front(w)
        ensures t in done - {w}
      {
        assert t <= w;
      }
      PartsCount(done - {w}, Front(w));
    }
  }

  // ---------------------------------------------------------------------
  // Whenever entries expire

  lemma WayIsGone(net: Net, c: Callsign, w: Way) returns (steps: seq<Step>)
    requires Sane(net) && Goes(net, c, w)
    ensures |Hops(Exec(net, steps).handled, RelayOnce.Opening(c))| > |w|
  {
    steps := RelayOnce.SendOpening(net, c);
    var on, done := multiset{[]}, {};
    SentTrailed(net, c, steps);
    hide Goes, Exec, Hops, Enough, AllGo, OnlyUnknown, Accounted, Continued;
    steps, on, done := Go(net, c, steps, on, done, w);
    PartsCount(done, w);
  }

  /** The copies of a packet are bounded in all runs, whatever expires, exactly when the
      ways that copies can go are. */
  lemma AlwaysBoundedIff(net: Net, c: Callsign)
    requires Sane(net) && c in net.clients
    ensures (exists bound: nat :: AlwaysBounded(net, c, bound)) <==> (exists b: nat :: WaysEnd(net, c, b))
  {
    if bound: nat :| AlwaysBounded(net, c, bound) {
      forall w | Goes(net, c, w)
        ensures |w| <= bound
      {
        var steps := WayIsGone(net, c, w);
        assert RelayOnce.Opening(c).call == c;
      }
      assert WaysEnd(net, c, bound);
    }
    if b: nat :| WaysEnd(net, c, b) {
      forall steps, pkt: Packet | pkt.call == c
        ensures |Hops(Exec(net, steps).handled, pkt)| <= |Strings(AllHops(net), b)|
      {
        var on, done := RunTraced(net, steps, c, pkt);
        HopsAreWays(net, Exec(net, steps), c, pkt, on, done);
        FewWays(net, c, All(on, done), b);
      }
      assert AlwaysBounded(net, c, |Strings(AllHops(net), b)|);
    }
  }

  // ---------------------------------------------------------------------
  // When entries expire in quiet times only

  lemma PassablePlan(net: Net, c: Callsign, w: Way)
    requires Passable(net, c, w)
    ensures Plan(net, c, iset u | Inner(w, u))
  {
    forall u | Inner(w, u)
      ensures Goes(net, c, u) && Taken(net, c, u)
    {
      InnerGoes(net, c, w, u);
    }
  }

  lemma PassableWayIsGone(net: Net, c: Callsign, w: Way) returns (steps: seq<Step>)
    requires Sane(net) && Passable(net, c, w)
    ensures NeverExpires(steps, c) && |Hops(Exec(net, steps).handled, RelayOnce.Opening(c))| > |w|
  {
    PassablePlan(net, c, w);
    var must := iset u | Inner(w, u);
    steps := RelayOnce.SendOpening(net, c);
    var on, done := multiset{[]}, {};
    StartSteered(net, c, must, steps);
    hide Plan, Exec, Goes, Hops, Enough, AllGo, OnlyUnknown, AccountedBy, ContinuedBy, EntriesBy;
    steps, on, done := GoTo(net, c, steps, must, on, done, w);
    PartsCount(done, w);
  }

  lemma HeardPassable(net: Net, s: State, c: Callsign, p: Packet, on: multiset<Way>, done: set<Way>, taken: set<Way>, w: Way)
    requires Heard(net, s, c, p, on, done, taken) && w in All(on, done)
    ensures Passable(net, c, w)
  {
    HopsAreWays(net, s, c, p, on, done);
    forall x | (x in done || x in on) && x != []
      ensures Front(x) in done
    {
      assert x in on ==> OnWay(net, c, on, done, x);
    }
    forall t | Inner(w, t)
      ensures t in taken
    {
      InnerTaken(on, done, taken, w, t);
    }
  }

  /** The copies of a packet are bounded in all runs with quiet expiries exactly when the
      ways are that copies can go while every server listens to one side. */
  lemma BoundedIff(net: Net, c: Callsign)
    requires Sane(net) && c in net.clients
    ensures (exists bound: nat :: RelayTermination.Bounded(net, c, bound)) <==>
            (exists b: nat :: PassableWaysEnd(net, c, b))
  {
    if bound: nat :| RelayTermination.Bounded(net, c, bound) {
      BoundedEnds(net, c, bound);
    }
    if b: nat :| PassableWaysEnd(net, c, b) {
      EndsBounded(net, c, b);
    }
  }

  lemma BoundedEnds(net: Net, c: Callsign, bound: nat)
    requires Sane(net) && c in net.clients && RelayTermination.Bounded(net, c, bound)
    ensures PassableWaysEnd(net, c, bound)
  {
    forall w | Passable(net, c, w)
      ensures |w| <= bound
    {
      var steps := PassableWayIsGone(net, c, w);
      NeverIsQuiet(net, steps, c);
      assert RelayOnce.Opening(c).call == c;
    }
  }

  lemma EndsBounded(net: Net, c: Callsign, b: nat)
    requires Sane(net) && c in net.clients && PassableWaysEnd(net, c, b)
    ensures RelayTermination.Bounded(net, c, |Strings(AllHops(net), b)|)
  {
    forall steps, pkt: Packet | QuietExpiry(net, steps, c) && pkt.call == c
      ensures |Hops(Exec(net, steps).handled, pkt)| <= |Strings(AllHops(net), b)|
    {
      var on, done, taken := RunHeard(net, steps, c, pkt);
      HopsAreWays(net, Exec(net, steps), c, pkt, on, done);
      forall w | w in All(on, done)
        ensures |w| <= b
      {
        HeardPassable(net, Exec(net, steps), c, pkt, on, done, taken, w);
      }
      FewWays(net, c, All(on, done), b);
    }
  }
}
