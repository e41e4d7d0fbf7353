/** When is a packet accepted at most once although entries expire at any time? Exactly when
    there is one way only for it to come to a server that takes it. */
module RelayExpiry {
  import opened RelayRules
  import opened RelayNetwork
  import opened RelayOnce
  import opened Sums

  /** A copy sent for a place in the relay list, or in the crossfeed list. */
  datatype Hop = Relay(j: nat) | Feed(j: nat)

  /** The way of a copy from the client's server on. */
  type Way = seq<Hop>

  function Front(w: Way): Way
    requires w != []
  {
    w[..|w| - 1]
  }

  function ListOf(net: Net, u: Ip, h: Hop): seq<Ip>
  {
    if u !in net.servers then [] else if h.Relay? then net.servers[u].relays else net.servers[u].crossfeeds
  }

  /** Where a way leads. */
  function End(net: Net, c: Callsign, w: Way): Ip
    requires c in net.clients
  {
    if w == [] then net.clients[c].home
    else
      var h, u := w[|w| - 1], End(net, c, Front(w));
      var list := ListOf(net, u, h);
      if h.j < |list| then list[h.j] else u
  }

  /** The server at the end takes the copy. */
  predicate Taken(net: Net, c: Callsign, w: Way)
    requires c in net.clients
  {
    w == [] || (End(net, c, w) in net.servers && Knows(net, End(net, c, w), End(net, c, Front(w))))
  }

  /** Crossfeed copies are made of whatever arrives. Relays are sent what is taken, by hubs
      and by the client's server, and never what they sent themselves. */
  predicate Goes(net: Net, c: Callsign, w: Way)
  {
    c in net.clients && (w == [] || (Goes(net, c, Front(w)) && GoesOn(net, c, Front(w), w[|w| - 1])))
  }

  predicate GoesOn(net: Net, c: Callsign, w: Way, h: Hop)
    requires c in net.clients
  {
    var u := End(net, c, w);
    var list := ListOf(net, u, h);
    && u in net.servers && h.j < |list| && list[h.j] in net.servers
    && (h.Relay? ==>
          && Taken(net, c, w)
          && (w == [] || (net.servers[u].hub && list[h.j] != End(net, c, Front(w)))))
  }

  /** Two ways lead to a server that takes what comes on either. */
  ghost predicate HeardTwice(net: Net, c: Callsign)
  {
    exists v, w :: Goes(net, c, v) && Goes(net, c, w) && Rival(net, c, v, w)
  }

  predicate Rival(net: Net, c: Callsign, v: Way, w: Way)
    requires c in net.clients
  {
    v != w && Taken(net, c, v) && Taken(net, c, w) && End(net, c, v) == End(net, c, w)
  }

  /** The copy of a packet that comes on a way. */
  function Copy(net: Net, c: Callsign, p: Packet, w: Way): Datagram
    requires c in net.clients
  {
    if w == [] then Datagram(net.clients[c].addr, net.clients[c].home, false, p)
    else Datagram(End(net, c, Front(w)), End(net, c, w), true, p)
  }

  lemma GoesSnoc(net: Net, c: Callsign, w: Way, h: Hop)
    requires Goes(net, c, w)
    ensures Goes(net, c, w + [h]) <==> GoesOn(net, c, w, h)
    ensures Front(w + [h]) == w
    ensures GoesOn(net, c, w, h) ==> End(net, c, w + [h]) == ListOf(net, End(net, c, w), h)[h.j]
  {
    assert Front(w + [h]) == w;
  }

  lemma GoesToServer(net: Net, c: Callsign, w: Way)
    requires Sane(net) && Goes(net, c, w)
    ensures End(net, c, w) in net.servers
  {
  }

  // ---------------------------------------------------------------------
  // Counting copies by the ways they come

  function Is(net: Net, c: Callsign, p: Packet, d: Datagram): Way -> nat
    requires c in net.clients
  {
    (w: Way) => if Copy(net, c, p, w) == d then 1 else 0
  }

  /** The ways on from `w` over a list, from place `k` on, to servers other than `but`. */
  function Onward(net: Net, w: Way, list: seq<Ip>, feed: bool, but: set<Ip>, k: nat): multiset<Way>
    requires k <= |list|
    decreases |list| - k
  {
    if k == |list| then multiset{}
    else
      (if list[k] in net.servers && list[k] !in but then multiset{w + [if feed then Feed(k) else Relay(k)]} else multiset{})
      + Onward(net, w, list, feed, but, k + 1)
  }

  lemma {:induction false} OnwardContains(net: Net, w: Way, list: seq<Ip>, feed: bool, but: set<Ip>, k: nat, x: Way)
    requires k <= |list|
    ensures Onward(net, w, list, feed, but, k)[x] ==
      if x != [] && Front(x) == w && x[|x| - 1].Feed? == feed && k <= x[|x| - 1].j < |list|
         && list[x[|x| - 1].j] in net.servers && list[x[|x| - 1].j] !in but then 1 else 0
    decreases |list| - k
  {
    if k < |list| {
      OnwardContains(net, w, list, feed, but, k + 1, x);
      var h := if feed then Feed(k) else Relay(k);
      assert Front(w + [h]) == w;
      if x != [] && Front(x) == w {
        assert x == w + [x[|x| - 1]];
      }
    }
  }

  lemma OneOnward(net: Net, c: Callsign, p: Packet, w: Way, h: Hop, d: Datagram)
    requires c in net.clients
    requires h.j < |ListOf(net, End(net, c, w), h)|
    ensures var u := End(net, c, w);
      Sum(multiset{w + [h]}, Is(net, c, p, d)) == if d == Datagram(u, ListOf(net, u, h)[h.j], true, p) then 1 else 0
  {
    assert Front(w + [h]) == w;
    SumOne(w + [h], Is(net, c, p, d));
  }

  /** As many ways on to a server as it is listed times. */
  lemma {:induction false} OnwardCount(net: Net, c: Callsign, p: Packet, w: Way, list: seq<Ip>, feed: bool, but: set<Ip>, k: nat, d: Datagram)
    requires c in net.clients && End(net, c, w) in net.servers && k <= |list|
    requires list == ListOf(net, End(net, c, w), if feed then Feed(0) else Relay(0))
    ensures Sum(Onward(net, w, list, feed, but, k), Is(net, c, p, d)) ==
      if d == Datagram(End(net, c, w), d.dst, true, p) && d.dst in net.servers && d.dst !in but
      then CountOf(list[k..], d.dst) else 0
    decreases |list| - k
  {
    if k < |list| {
      OnwardCount(net, c, p, w, list, feed, but, k + 1, d);
      assert list[k..][1..] == list[k + 1..];
      var rest := Onward(net, w, list, feed, but, k + 1);
      var h := if feed then Feed(k) else Relay(k);
      hide End, ListOf, Is;
      if list[k] in net.servers && list[k] !in but {
        assert ListOf(net, End(net, c, w), h) == list by { SameList(net, End(net, c, w), h, if feed then Feed(0) else Relay(0)); }
        OneOnward(net, c, p, w, h, d);
        SumAdd(multiset{w + [h]}, rest, Is(net, c, p, d));
      } else {
        assert multiset{} + rest == rest;
      }
    }
  }

  lemma SameList(net: Net, u: Ip, g: Hop, h: Hop)
    requires g.Relay? == h.Relay?
    ensures ListOf(net, u, g) == ListOf(net, u, h)
  {
  }

  lemma {:induction false} SumPositive(m: multiset<Way>, net: Net, c: Callsign, p: Packet, d: Datagram) returns (w: Way)
    requires c in net.clients && Sum(m, Is(net, c, p, d)) > 0
    ensures w in m && Copy(net, c, p, w) == d
    decreases |m|
  {
    var x :| x in m;
    SumTake(m, Is(net, c, p, d), x);
    if Copy(net, c, p, x) == d {
      w := x;
    } else {
      w := SumPositive(m - multiset{x}, net, c, p, d);
    }
  }

  // ---------------------------------------------------------------------
  // Every copy comes some way

  /** An entry made by a client names no server. */
  predicate EntryInv(net: Net, s: State, c: Callsign)
  {
    forall k :: k in s.entries && k.1 == c && s.entries[k].isLocal ==> s.entries[k].from !in net.servers
  }

  /** The ways that lead to `n` for a copy that `n` takes. */
  ghost function TakenAt(net: Net, c: Callsign, done: set<Way>, n: Ip): set<Way>
    requires c in net.clients
  {
    set w | w in done && Taken(net, c, w) && End(net, c, w) == n
  }

  ghost predicate OnWay(net: Net, c: Callsign, on: multiset<Way>, done: set<Way>, w: Way)
  {
    on[w] == 1 && w !in done && Goes(net, c, w) && (w != [] ==> Front(w) in done)
  }

  /** Each way starts where another has been gone to its end, and none is gone twice. */
  ghost predicate Ways(net: Net, c: Callsign, on: multiset<Way>, done: set<Way>)
  {
    && (forall w :: w in on ==> OnWay(net, c, on, done, w))
    && (forall w :: w in done ==> Goes(net, c, w) && (w != [] ==> Front(w) in done))
  }

  /** Ways that have been gone to their end, and the others, that copies are on. */
  ghost predicate Traced(net: Net, s: State, c: Callsign, p: Packet, on: multiset<Way>, done: set<Way>)
  {
    && c in net.clients
    && Ways(net, c, on, done)
    && (p !in s.issued ==> on == multiset{} && done == {})
    && (forall d: Datagram :: d.pkt == p ==> s.flight[d] <= Sum(on, Is(net, c, p, d)))
    && (forall n: Ip :: s.accepted[(n, p)] <= |TakenAt(net, c, done, n)|)
    && Numbered(net, s, c, p, on, done)
  }

  /** No more copies have been on the wire than there were ways. */
  ghost predicate Numbered(net: Net, s: State, c: Callsign, p: Packet, on: multiset<Way>, done: set<Way>)
    requires c in net.clients
  {
    forall d: Datagram :: d.pkt == p ==> Traffic(s, d) <= Sum(on + multiset(done), Is(net, c, p, d))
  }

  /** The datagram that is taken off the wire has come one of the ways. */
  lemma PickWay(net: Net, s: State, d: Datagram, c: Callsign, on: multiset<Way>, done: set<Way>) returns (w: Way)
    requires Sane(net) && Traced(net, s, c, d.pkt, on, done) && d in s.flight
    ensures w in on && Copy(net, c, d.pkt, w) == d && End(net, c, w) == d.dst
    ensures if w == [] then !d.relayed && d.src !in net.servers
            else d.relayed && d.src == End(net, c, Front(w)) && d.src in net.servers
  {
    assert s.flight[d] <= Sum(on, Is(net, c, d.pkt, d));
    w := SumPositive(on, net, c, d.pkt, d);
    assert OnWay(net, c, on, done, w);
    if w != [] {
      GoesToServer(net, c, Front(w));
    }
  }

  /** The ways on from the end of `w`: those of crossfeed copies, and those of the copies
      for relays when the packet is accepted and may be sent on. */
  function AllOnward(net: Net, w: Way, u: Ip, from: Ip, relays: bool): multiset<Way>
    requires u in net.servers
  {
    Onward(net, w, net.servers[u].crossfeeds, true, {}, 0)
    + if relays then Onward(net, w, net.servers[u].relays, false, {from}, 0) else multiset{}
  }

  lemma AllOnwardContains(net: Net, w: Way, u: Ip, from: Ip, relays: bool, x: Way)
    requires u in net.servers
    ensures AllOnward(net, w, u, from, relays)[x] <= 1
    ensures x in AllOnward(net, w, u, from, relays) <==>
      && x != [] && Front(x) == w && (x[|x| - 1].Relay? ==> relays)
      && var list := ListOf(net, u, x[|x| - 1]);
      && x[|x| - 1].j < |list| && list[x[|x| - 1].j] in net.servers && (x[|x| - 1].Relay? ==> list[x[|x| - 1].j] != from)
  {
    OnwardContains(net, w, net.servers[u].crossfeeds, true, {}, 0, x);
    OnwardContains(net, w, net.servers[u].relays, false, {from}, 0, x);
  }

  lemma AllOnwardCount(net: Net, c: Callsign, p: Packet, w: Way, from: Ip, relays: bool, d: Datagram)
    requires c in net.clients && End(net, c, w) in net.servers
    ensures var u := End(net, c, w);
      Sum(AllOnward(net, w, u, from, relays), Is(net, c, p, d)) ==
        if d == Datagram(u, d.dst, true, p) && d.dst in net.servers then
          CountOf(net.servers[u].crossfeeds, d.dst)
          + if relays && d.dst != from then CountOf(net.servers[u].relays, d.dst) else 0
        else 0
  {
    var u := End(net, c, w);
    var srv := net.servers[u];
    assert srv.crossfeeds[0..] == srv.crossfeeds && srv.relays[0..] == srv.relays;
    OnwardCount(net, c, p, w, srv.crossfeeds, true, {}, 0, d);
    OnwardCount(net, c, p, w, srv.relays, false, {from}, 0, d);
    var feeds, on := Onward(net, w, srv.crossfeeds, true, {}, 0), Onward(net, w, srv.relays, false, {from}, 0);
    SumAdd(feeds, if relays then on else multiset{}, Is(net, c, p, d));
  }

  /** Whether a server accepts the datagram that arrives. */
  predicate Heeds(net: Net, s: State, d: Datagram)
    requires d.dst in net.servers
  {
    Admits(net, s, d) && Judge(Lookup(s, d.dst, d.pkt.call), d.src, d.pkt.body) != Ignore
  }

  lemma ReceiveEffect(net: Net, s: State, d: Datagram, wanted: set<Ip>)
    requires d.dst in net.servers
    ensures var s', srv, k := Receive(net, s, d, wanted), net.servers[d.dst], (d.dst, d.pkt.call);
      && s'.issued == s.issued && s'.handled == s.handled + [d]
      && if Heeds(net, s, d) then
           && k in s'.entries && s'.entries[k].from == d.src
           && (if k in s.entries then s'.entries == s.entries else s'.entries == s.entries[k := Entry(d.src, !d.relayed)])
           && s'.accepted == s.accepted + multiset{(d.dst, d.pkt)}
           && s'.flight == Fed(net, s, d).flight
              + Copies(net, d.dst, RelayTargets(srv.relays, srv.hub, s'.entries[k], wanted), d.pkt)
         else s'.accepted == s.accepted && s'.flight == Fed(net, s, d).flight && s'.entries == s.entries
  {
    ReceiveCases(net, s, d, wanted);
  }

  /** What a datagram that arrives brings onto the wire, at most. */
  lemma ReceiveOnward(net: Net, s: State, d: Datagram, wanted: set<Ip>, c: Callsign, w: Way, x: Datagram)
    requires EntryInv(net, s, c) && d in s.flight && d.dst in net.servers && d.pkt.call == c && x.pkt == d.pkt
    requires c in net.clients && End(net, c, w) == d.dst
    requires if w == [] then d.src !in net.servers else d.relayed && d.src in net.servers
    ensures var relays := Heeds(net, s, d) && (w == [] || net.servers[d.dst].hub);
      Receive(net, s, d, wanted).flight[x] + (if x == d then 1 else 0) <=
        s.flight[x] + Sum(AllOnward(net, w, d.dst, d.src, relays), Is(net, c, d.pkt, x))
  {
    var srv, s', k := net.servers[d.dst], Receive(net, s, d, wanted), (d.dst, d.pkt.call);
    ReceiveEffect(net, s, d, wanted);
    CopiesCount(net, d.dst, srv.crossfeeds, d.pkt, x);
    assert Fed(net, s, d).flight[x] + (if x == d then 1 else 0) == s.flight[x] + Copies(net, d.dst, srv.crossfeeds, d.pkt)[x];
    AllOnwardCount(net, c, d.pkt, w, d.src, Heeds(net, s, d) && (w == [] || srv.hub), x);
    hide Receive, Fed, Copies, Heeds, AllOnward, Is, End;
    if Heeds(net, s, d) {
      var e := s'.entries[k];
      CopiesCount(net, d.dst, RelayTargets(srv.relays, srv.hub, e, wanted), d.pkt, x);
      WantedCount(srv.relays, e.from, wanted, x.dst);
    }
  }

  /** One way is gone to its end, and there it goes on. */
  lemma WaysOnward(net: Net, c: Callsign, on: multiset<Way>, done: set<Way>, w: Way, from: Ip, relays: bool)
    requires Sane(net) && c in net.clients && w in on && End(net, c, w) in net.servers
    requires Ways(net, c, on, done)
    requires relays ==> Taken(net, c, w) && (w != [] ==> net.servers[End(net, c, w)].hub && from == End(net, c, Front(w)))
    ensures Ways(net, c, on - multiset{w} + AllOnward(net, w, End(net, c, w), from, relays), done + {w})
  {
    var more := AllOnward(net, w, End(net, c, w), from, relays);
    assert OnWay(net, c, on, done, w);
    forall x
      ensures more[x] <= 1 && (x in more ==> x != [] && Front(x) == w && Goes(net, c, x))
    {
      MoreWay(net, c, w, from, relays, x);
    }
    hide AllOnward, Goes, End, Taken, Front;
    AddWays(net, c, on, done, w, more);
  }

  lemma AddWays(net: Net, c: Callsign, on: multiset<Way>, done: set<Way>, w: Way, more: multiset<Way>)
    requires Ways(net, c, on, done) && w in on
    requires forall x :: more[x] <= 1 && (x in more ==> x != [] && Front(x) == w && Goes(net, c, x))
    ensures Ways(net, c, on - multiset{w} + more, done + {w})
  {
    hide Goes, Front;
    var on', done' := on - multiset{w} + more, done + {w};
    assert OnWay(net, c, on, done, w);
    forall x | x in on'
      ensures OnWay(net, c, on', done', x)
    {
      OneWay(net, c, on, done, w, more, x);
    }
  }

  lemma OneWay(net: Net, c: Callsign, on: multiset<Way>, done: set<Way>, w: Way, more: multiset<Way>, x: Way)
    requires Ways(net, c, on, done) && w in on
    requires more[x] <= 1 && (x in more ==> x != [] && Front(x) == w && Goes(net, c, x))
    requires x in on - multiset{w} + more
    ensures OnWay(net, c, on - multiset{w} + more, done + {w}, x)
  {
    hide Goes, Front;
    assert OnWay(net, c, on, done, w);
    if x in on {
      assert OnWay(net, c, on, done, x);
    }
  }

  lemma MoreWay(net: Net, c: Callsign, w: Way, from: Ip, relays: bool, x: Way)
    requires c in net.clients && Goes(net, c, w) && End(net, c, w) in net.servers
    requires relays ==> Taken(net, c, w) && (w != [] ==> net.servers[End(net, c, w)].hub && from == End(net, c, Front(w)))
    ensures var more := AllOnward(net, w, End(net, c, w), from, relays);
      more[x] <= 1 && (x in more ==> x != [] && Front(x) == w && Goes(net, c, x))
  {
    hide AllOnward, Goes, End, Taken;
    AllOnwardContains(net, w, End(net, c, w), from, relays, x);
    if x in AllOnward(net, w, End(net, c, w), from, relays) {
      assert x == w + [x[|x| - 1]];
      OnwardGoes(net, c, w, x[|x| - 1], from);
    }
  }

  lemma OnwardGoes(net: Net, c: Callsign, w: Way, h: Hop, from: Ip)
    requires c in net.clients && Goes(net, c, w) && End(net, c, w) in net.servers
    requires var list := ListOf(net, End(net, c, w), h);
      && h.j < |list| && list[h.j] in net.servers
      && (h.Relay? ==>
            && Taken(net, c, w)
            && (w != [] ==> net.servers[End(net, c, w)].hub && from == End(net, c, Front(w)) && list[h.j] != from))
    ensures Goes(net, c, w + [h])
  {
    GoesSnoc(net, c, w, h);
  }

  lemma DeliverTraced(net: Net, s: State, d: Datagram, wanted: set<Ip>, c: Callsign, on: multiset<Way>, done: set<Way>)
      returns (w: Way, on': multiset<Way>, done': set<Way>)
    requires Sane(net) && EntryInv(net, s, c) && Traced(net, s, c, d.pkt, on, done)
    requires d in s.flight && d.dst in net.servers && d.pkt.call == c
    ensures Traced(net, Receive(net, s, d, wanted), c, d.pkt, on', done')
    ensures w in on && w !in done && Copy(net, c, d.pkt, w) == d && End(net, c, w) == d.dst
    ensures Heeds(net, s, d) ==> Taken(net, c, w)
    ensures var relays := Heeds(net, s, d) && (w == [] || net.servers[d.dst].hub);
      on' == on - multiset{w} + AllOnward(net, w, d.dst, d.src, relays) && done' == done + {w}
  {
    hide Receive, Heeds, AllOnward, Ways, Is, Fed, Copies, Taken, TakenAt, End, Copy, EntryInv, RelayTargets, Numbered;
    var s' := Receive(net, s, d, wanted);
    w := PickWay(net, s, d, c, on, done);
    var relays := Heeds(net, s, d) && (w == [] || net.servers[d.dst].hub);
    var more := AllOnward(net, w, d.dst, d.src, relays);
    on', done' := on - multiset{w} + more, done + {w};
    ReceiveEffect(net, s, d, wanted);
    HeedsTaken(net, s, d, c, w);
    WaysOnward(net, c, on, done, w, d.src, relays);
    forall x: Datagram | x.pkt == d.pkt
      ensures s'.flight[x] <= Sum(on', Is(net, c, d.pkt, x))
    {
      DeliverCount(net, s, d, wanted, c, w, x, on, done);
    }
    WayIsNew(net, c, on, done, w);
    NumberedOnward(net, s, d, wanted, c, w, on, done);
    forall n: Ip
      ensures s'.accepted[(n, d.pkt)] <= |TakenAt(net, c, done', n)|
    {
      TakenGrows(net, c, done, w, n);
    }
  }

  lemma HeedsTaken(net: Net, s: State, d: Datagram, c: Callsign, w: Way)
    requires c in net.clients && d.dst in net.servers && End(net, c, w) == d.dst
    requires w == [] || (d.relayed && d.src == End(net, c, Front(w)))
    ensures Heeds(net, s, d) ==> Taken(net, c, w)
  {
  }

  lemma DeliverCount(net: Net, s: State, d: Datagram, wanted: set<Ip>, c: Callsign, w: Way, x: Datagram, on: multiset<Way>, done: set<Way>)
    requires EntryInv(net, s, c) && Traced(net, s, c, d.pkt, on, done)
    requires d in s.flight && d.dst in net.servers && d.pkt.call == c && x.pkt == d.pkt
    requires w in on && Copy(net, c, d.pkt, w) == d && End(net, c, w) == d.dst
    requires if w == [] then d.src !in net.servers else d.relayed && d.src in net.servers
    ensures var relays := Heeds(net, s, d) && (w == [] || net.servers[d.dst].hub);
      Receive(net, s, d, wanted).flight[x] <=
        Sum(on - multiset{w} + AllOnward(net, w, d.dst, d.src, relays), Is(net, c, d.pkt, x))
  {
    var more := AllOnward(net, w, d.dst, d.src, Heeds(net, s, d) && (w == [] || net.servers[d.dst].hub));
    var ones := Is(net, c, d.pkt, x);
    IsCopy(net, c, d.pkt, w, x);
    ReceiveOnward(net, s, d, wanted, c, w, x);
    assert s.flight[x] <= Sum(on, ones);
    hide Receive, Heeds, AllOnward, Is, Copy, End, Traced;
    SumTake(on, ones, w);
    SumAdd(on - multiset{w}, more, ones);
  }

  lemma NumberedOnward(net: Net, s: State, d: Datagram, wanted: set<Ip>, c: Callsign, w: Way, on: multiset<Way>, done: set<Way>)
    requires EntryInv(net, s, c) && c in net.clients && Numbered(net, s, c, d.pkt, on, done)
    requires d in s.flight && d.dst in net.servers && d.pkt.call == c
    requires w in on && w !in done && End(net, c, w) == d.dst
    requires if w == [] then d.src !in net.servers else d.relayed && d.src in net.servers
    ensures var relays := Heeds(net, s, d) && (w == [] || net.servers[d.dst].hub);
      Numbered(net, Receive(net, s, d, wanted), c, d.pkt, on - multiset{w} + AllOnward(net, w, d.dst, d.src, relays), done + {w})
  {
    hide Receive, Heeds, AllOnward, Is, End, Fed, Copies, RelayTargets, EntryInv;
    var more := AllOnward(net, w, d.dst, d.src, Heeds(net, s, d) && (w == [] || net.servers[d.dst].hub));
    assert on - multiset{w} + more + multiset(done + {w}) == on + multiset(done) + more;
    ReceiveEffect(net, s, d, wanted);
    forall x: Datagram | x.pkt == d.pkt
      ensures Traffic(Receive(net, s, d, wanted), x) <= Sum(on + multiset(done) + more, Is(net, c, d.pkt, x))
    {
      ReceiveOnward(net, s, d, wanted, c, w, x);
      SumAdd(on + multiset(done), more, Is(net, c, d.pkt, x));
      assert Traffic(s, x) <= Sum(on + multiset(done), Is(net, c, d.pkt, x));
      assert multiset(s.handled + [d]) == multiset(s.handled) + multiset{d};
    }
  }

  lemma IsCopy(net: Net, c: Callsign, p: Packet, w: Way, x: Datagram)
    requires c in net.clients
    ensures Is(net, c, p, x)(w) == if Copy(net, c, p, w) == x then 1 else 0
  {
  }

  lemma WayIsNew(net: Net, c: Callsign, on: multiset<Way>, done: set<Way>, w: Way)
    requires Ways(net, c, on, done) && w in on
    ensures w !in done
  {
    assert OnWay(net, c, on, done, w);
  }

  lemma TakenGrows(net: Net, c: Callsign, done: set<Way>, w: Way, n: Ip)
    requires c in net.clients && w !in done
    ensures |TakenAt(net, c, done + {w}, n)| ==
      |TakenAt(net, c, done, n)| + if Taken(net, c, w) && End(net, c, w) == n then 1 else 0
  {
    assert TakenAt(net, c, done + {w}, n) ==
      TakenAt(net, c, done, n) + if Taken(net, c, w) && End(net, c, w) == n then {w} else {};
  }

  /** Steps that do not concern the packet. */
  lemma SameTraced(net: Net, s: State, s': State, c: Callsign, p: Packet, on: multiset<Way>, done: set<Way>)
    requires Traced(net, s, c, p, on, done)
    requires p in s.issued ==> p in s'.issued
    requires p !in s.issued ==> p !in s'.issued
    requires forall d: Datagram :: d.pkt == p ==> s'.flight[d] <= s.flight[d] && Traffic(s', d) <= Traffic(s, d)
    requires forall n: Ip :: s'.accepted[(n, p)] == s.accepted[(n, p)]
    ensures Traced(net, s', c, p, on, done)
  {
    hide Traffic, Is, Ways;
  }

  lemma OtherTraced(net: Net, s: State, d: Datagram, wanted: set<Ip>, c: Callsign, p: Packet, on: multiset<Way>, done: set<Way>)
    requires Traced(net, s, c, p, on, done) && d.pkt != p && d in s.flight && d.dst in net.servers
    ensures Traced(net, Receive(net, s, d, wanted), c, p, on, done)
  {
    hide Receive, Traced, Heeds, Copies, RelayTargets;
    var srv, s' := net.servers[d.dst], Receive(net, s, d, wanted);
    ReceiveEffect(net, s, d, wanted);
    forall x: Datagram | x.pkt == p
      ensures s'.flight[x] <= s.flight[x] && Traffic(s', x) <= Traffic(s, x)
    {
      CopiesCount(net, d.dst, srv.crossfeeds, d.pkt, x);
      if Heeds(net, s, d) {
        CopiesCount(net, d.dst, RelayTargets(srv.relays, srv.hub, s'.entries[(d.dst, d.pkt.call)], wanted), d.pkt, x);
      }
    }
    SameTraced(net, s, s', c, p, on, done);
  }

  lemma SendTraced(net: Net, s: State, p: Packet, c: Callsign, on: multiset<Way>, done: set<Way>)
      returns (on': multiset<Way>, done': set<Way>)
    requires Sane(net) && Traced(net, s, c, p, on, done) && p.call == c && p !in s.issued
    ensures Traced(net, Apply(net, s, Send(p)), c, p, on', done')
    ensures on' == multiset{[]} && done' == {}
  {
    var s' := Apply(net, s, Send(p));
    on', done' := multiset{[]}, {};
    forall d: Datagram | d.pkt == p
      ensures s'.flight[d] <= Sum(on', Is(net, c, p, d))
    {
      SumOne([], Is(net, c, p, d));
      assert s.flight[d] <= Sum(on, Is(net, c, p, d));
    }
    SentNumbered(net, s, p, c, on, done);
  }

  lemma SentNumbered(net: Net, s: State, p: Packet, c: Callsign, on: multiset<Way>, done: set<Way>)
    requires Sane(net) && Traced(net, s, c, p, on, done) && p.call == c && p !in s.issued
    ensures Numbered(net, Apply(net, s, Send(p)), c, p, multiset{[]}, {})
  {
    var s' := Apply(net, s, Send(p));
    var first: multiset<Way> := multiset{[]};
    assert on + multiset(done) == multiset{} && first + multiset{} == first;
    forall d: Datagram | d.pkt == p
      ensures Traffic(s', d) <= Sum(first, Is(net, c, p, d))
    {
      assert Traffic(s, d) <= Sum(on + multiset(done), Is(net, c, p, d));
      SumOne([], Is(net, c, p, d));
    }
  }

  /** A step that is neither a delivery nor the sending of the packet does not concern it. */
  lemma OtherStep(net: Net, s: State, step: Step, p: Packet)
    requires Enabled(net, s, step) && !step.Deliver? && step != Send(p)
    ensures var s' := Apply(net, s, step);
      && (p in s.issued <==> p in s'.issued)
      && (forall d: Datagram :: d.pkt == p ==> s'.flight[d] <= s.flight[d] && Traffic(s', d) <= Traffic(s, d))
      && (forall n: Ip :: s'.accepted[(n, p)] == s.accepted[(n, p)])
  {
    hide Receive;
  }

  /** A run step keeps the packet traced. */
  lemma StepTraced(net: Net, s: State, step: Step, c: Callsign, p: Packet, on: multiset<Way>, done: set<Way>)
      returns (on': multiset<Way>, done': set<Way>)
    requires Sane(net) && EntryInv(net, s, c) && Traced(net, s, c, p, on, done) && p.call == c && Enabled(net, s, step)
    ensures Traced(net, Apply(net, s, step), c, p, on', done')
  {
    hide Receive, Traced, EntryInv;
    on', done' := on, done;
    if step.Deliver? {
      if step.d.pkt == p {
        var w;
        w, on', done' := DeliverTraced(net, s, step.d, step.wanted, c, on, done);
      } else {
        OtherTraced(net, s, step.d, step.wanted, c, p, on, done);
      }
    } else if step == Send(p) {
      on', done' := SendTraced(net, s, p, c, on, done);
    } else {
      OtherStep(net, s, step, p);
      SameTraced(net, s, Apply(net, s, step), c, p, on, done);
    }
  }

  lemma StepKeepsEntries(net: Net, s: State, step: Step, c: Callsign, on: multiset<Way>, done: set<Way>)
    requires Sane(net) && EntryInv(net, s, c) && Enabled(net, s, step)
    requires step.Deliver? && step.d.pkt.call == c ==> Traced(net, s, c, step.d.pkt, on, done)
    ensures EntryInv(net, Apply(net, s, step), c)
  {
    if step.Deliver? {
      ReceiveEffect(net, s, step.d, step.wanted);
      if step.d.pkt.call == c {
        var w := PickWay(net, s, step.d, c, on, done);
      }
    }
  }

  lemma {:induction false} RunKeepsEntries(net: Net, steps: seq<Step>, c: Callsign)
    requires Sane(net) && c in net.clients
    ensures EntryInv(net, Exec(net, steps), c)
    decreases |steps|, 1
  {
    if steps != [] {
      var before, step := steps[..|steps| - 1], steps[|steps| - 1];
      RunKeepsEntries(net, before, c);
      if Enabled(net, Exec(net, before), step) {
        var on, done := multiset{}, {};
        if step.Deliver? && step.d.pkt.call == c {
          on, done := RunTraced(net, before, c, step.d.pkt);
        }
        StepKeepsEntries(net, Exec(net, before), step, c, on, done);
      }
    }
  }

  /** In every run, every copy of a packet comes some way, and no two come the same. */
  lemma {:induction false} RunTraced(net: Net, steps: seq<Step>, c: Callsign, p: Packet)
      returns (on: multiset<Way>, done: set<Way>)
    requires Sane(net) && c in net.clients && p.call == c
    ensures Traced(net, Exec(net, steps), c, p, on, done)
    decreases |steps|, 0
  {
    on, done := multiset{}, {};
    if steps != [] {
      var before, step := steps[..|steps| - 1], steps[|steps| - 1];
      RunKeepsEntries(net, before, c);
      on, done := RunTraced(net, before, c, p);
      if Enabled(net, Exec(net, before), step) {
        on, done := StepTraced(net, Exec(net, before), step, c, p, on, done);
      }
    }
  }

  lemma OneAtMost<T>(s: set<T>)
    requires forall x, y :: x in s && y in s ==> x == y
    ensures |s| <= 1
  {
    if s != {} {
      var x :| x in s;
      assert s == {x};
    }
  }

  /** A server accepts a packet no more often than there are ways to it, whatever expires. */
  lemma AtMostOnce(net: Net, steps: seq<Step>, n: Ip, pkt: Packet)
    requires Sane(net) && !HeardTwice(net, pkt.call)
    ensures Exec(net, steps).accepted[(n, pkt)] <= 1
  {
    var c := pkt.call;
    if c in net.clients {
      var on, done := RunTraced(net, steps, c, pkt);
      forall v, w | v in TakenAt(net, c, done, n) && w in TakenAt(net, c, done, n)
        ensures v == w
      {
        assert !Rival(net, c, v, w);
      }
      OneAtMost(TakenAt(net, c, done, n));
    } else {
      NeverSent(net, steps, c);
    }
  }

  ghost predicate Unheard(s: State, c: Callsign)
  {
    Idle(s, c) && forall k :: k in s.accepted ==> k.1.call != c
  }

  lemma ReceiveUnheard(net: Net, s: State, d: Datagram, wanted: set<Ip>, c: Callsign)
    requires Unheard(s, c) && d in s.flight && d.dst in net.servers
    ensures Unheard(Receive(net, s, d, wanted), c)
  {
    var srv, s' := net.servers[d.dst], Receive(net, s, d, wanted);
    ReceiveEffect(net, s, d, wanted);
    forall x: Datagram | x in s'.flight
      ensures x.pkt.call != c
    {
      CopiesCount(net, d.dst, srv.crossfeeds, d.pkt, x);
      if Heeds(net, s, d) {
        CopiesCount(net, d.dst, RelayTargets(srv.relays, srv.hub, s'.entries[(d.dst, d.pkt.call)], wanted), d.pkt, x);
      }
    }
  }

  lemma {:induction false} NeverSent(net: Net, steps: seq<Step>, c: Callsign)
    requires c !in net.clients
    ensures Unheard(Exec(net, steps), c)
  {
    if steps != [] {
      var before, step := steps[..|steps| - 1], steps[|steps| - 1];
      NeverSent(net, before, c);
      if Enabled(net, Exec(net, before), step) && step.Deliver? {
        ReceiveUnheard(net, Exec(net, before), step.d, step.wanted, c);
      }
    }
  }

  // ---------------------------------------------------------------------
  // Every way can be gone

  ghost predicate Enough(net: Net, c: Callsign, flight: multiset<Datagram>, on: multiset<Way>)
    requires c in net.clients
  {
    forall d: Datagram :: d.pkt == Opening(c) ==> flight[d] >= Sum(on, Is(net, c, Opening(c), d))
  }

  ghost predicate AllGo(net: Net, c: Callsign, on: multiset<Way>)
  {
    forall w :: w in on ==> Goes(net, c, w)
  }

  /** Only servers that are not known anyway have been blocked. */
  ghost predicate OnlyUnknown(net: Net, blocked: set<(Ip, Ip)>)
  {
    forall b :: b in blocked && b.0 in net.servers ==> !Knows(net, b.0, b.1) && b.1 in net.servers
  }

  /** A run has gone the ways `done` to their ends, and has copies on the ways `on` from
      there; each copy that a server takes has been accepted, if need be after an expiry. */
  ghost predicate Trailed(net: Net, s: State, c: Callsign, on: multiset<Way>, done: set<Way>)
    requires c in net.clients
  {
    && Enough(net, c, s.flight, on)
    && AllGo(net, c, on)
    && ([] in on || [] in done)
    && OnlyUnknown(net, s.blocked)
    && Accounted(net, s, c, done)
    && Continued(net, c, on, done)
    && |Hops(s.handled, Opening(c))| >= |done|
  }

  ghost predicate Accounted(net: Net, s: State, c: Callsign, done: set<Way>)
    requires c in net.clients
  {
    forall n: Ip :: s.accepted[(n, Opening(c))] >= |TakenAt(net, c, done, n)|
  }

  ghost predicate Continued(net: Net, c: Callsign, on: multiset<Way>, done: set<Way>)
  {
    forall w, h :: w in done && Goes(net, c, w + [h]) ==> w + [h] in on || w + [h] in done
  }

  lemma ContinuesOn(net: Net, c: Callsign, on: multiset<Way>, done: set<Way>, w: Way, from: Ip, relays: bool)
    requires c in net.clients && Goes(net, c, w) && End(net, c, w) in net.servers && Continued(net, c, on, done)
    requires relays <==> Taken(net, c, w) && (w == [] || net.servers[End(net, c, w)].hub)
    requires if w == [] then from !in net.servers else from == End(net, c, Front(w))
    ensures Continued(net, c, on - multiset{w} + AllOnward(net, w, End(net, c, w), from, relays), done + {w})
  {
    var more := AllOnward(net, w, End(net, c, w), from, relays);
    forall v, h | v in done + {w} && Goes(net, c, v + [h])
      ensures v + [h] in on - multiset{w} + more || v + [h] in done + {w}
    {
      if v in done {
        assert v + [h] in on || v + [h] in done;
      } else {
        GoesSnoc(net, c, w, h);
        AllOnwardContains(net, w, End(net, c, w), from, relays, w + [h]);
      }
    }
  }

  lemma MoreAccounted(net: Net, s: State, c: Callsign, done: set<Way>, w: Way, s': State)
    requires c in net.clients && Accounted(net, s, c, done) && w !in done
    requires s'.accepted == if Taken(net, c, w) then s.accepted + multiset{(End(net, c, w), Opening(c))} else s.accepted
    ensures Accounted(net, s', c, done + {w})
  {
    hide End, Taken, TakenAt;
    forall n: Ip
      ensures s'.accepted[(n, Opening(c))] >= |TakenAt(net, c, done + {w}, n)|
    {
      TakenGrows(net, c, done, w, n);
    }
  }

  /** Delivering the copy on a way to a server that has nothing listed. */
  lemma DeliverWay(net: Net, s: State, c: Callsign, on: multiset<Way>, done: set<Way>, w: Way)
    requires Sane(net) && c in net.clients && Trailed(net, s, c, on, done) && w in on && w !in done
    requires (End(net, c, w), c) !in s.entries
    ensures var d, src := Copy(net, c, Opening(c), w), Copy(net, c, Opening(c), w).src;
      var relays := Taken(net, c, w) && (w == [] || IsHub(net, End(net, c, w)));
      && d in s.flight && d.dst == End(net, c, w) && d.dst in net.servers
      && Trailed(net, Receive(net, s, d, net.servers.Keys), c,
                 on - multiset{w} + AllOnward(net, w, d.dst, src, relays), done + {w})
  {
    var p, all := Opening(c), net.servers.Keys;
    var d := Copy(net, c, p, w);
    var s' := Receive(net, s, d, all);
    ReadyWay(net, s, c, on, done, w);
    var relays := Taken(net, c, w) && (w == [] || net.servers[d.dst].hub);
    var more := AllOnward(net, w, d.dst, d.src, relays);
    ReceiveEffect(net, s, d, all);
    assert Heeds(net, s, d) ==> s'.entries[(d.dst, c)] == Entry(d.src, !d.relayed);
    hide Receive, Heeds, AllOnward, Taken, Is, Goes, End, Copy, Accounted, Continued, Enough, AllGo, OnlyUnknown, Front, Fed,
      Copies, Hops;
    HopsSnoc(s.handled, d, p);
    BlockedStays(net, s, d, all);
    ContinuesOn(net, c, on, done, w, d.src, relays);
    MoreAccounted(net, s, c, done, w, s');
    EnoughStays(net, s, c, on, w, d);
    AllGoOn(net, c, on, w, d.src, relays);
  }

  lemma AllGoOn(net: Net, c: Callsign, on: multiset<Way>, w: Way, from: Ip, relays: bool)
    requires c in net.clients && AllGo(net, c, on) && w in on && End(net, c, w) in net.servers
    requires relays ==> Taken(net, c, w) && (w != [] ==> net.servers[End(net, c, w)].hub && from == End(net, c, Front(w)))
    ensures AllGo(net, c, on - multiset{w} + AllOnward(net, w, End(net, c, w), from, relays))
  {
    hide Goes, End, AllOnward, Taken, Front;
    forall v | v in on - multiset{w} + AllOnward(net, w, End(net, c, w), from, relays)
      ensures Goes(net, c, v)
    {
      if v !in on {
        MoreWay(net, c, w, from, relays, v);
      }
    }
  }

  /** Copies are under way for all the ways on from the end of one that is gone. */
  lemma EnoughStays(net: Net, s: State, c: Callsign, on: multiset<Way>, w: Way, d: Datagram)
    requires Sane(net) && c in net.clients && Enough(net, c, s.flight, on) && w in on
    requires d == Copy(net, c, Opening(c), w) && d in s.flight && End(net, c, w) == d.dst && d.dst in net.servers
    requires var s' := Receive(net, s, d, net.servers.Keys);
      Heeds(net, s, d) ==> (d.dst, c) in s'.entries && (s'.entries[(d.dst, c)].isLocal <==> w == [])
    ensures var relays := Heeds(net, s, d) && (w == [] || net.servers[d.dst].hub);
      Enough(net, c, Receive(net, s, d, net.servers.Keys).flight, on - multiset{w} + AllOnward(net, w, d.dst, d.src, relays))
  {
    var more := AllOnward(net, w, d.dst, d.src, Heeds(net, s, d) && (w == [] || net.servers[d.dst].hub));
    hide Receive, Heeds, AllOnward, End, Copy;
    forall x: Datagram | x.pkt == Opening(c)
      ensures Receive(net, s, d, net.servers.Keys).flight[x] >= Sum(on - multiset{w} + more, Is(net, c, Opening(c), x))
    {
      CountStays(net, s, c, on, w, d, x);
    }
  }

  lemma CountStays(net: Net, s: State, c: Callsign, on: multiset<Way>, w: Way, d: Datagram, x: Datagram)
    requires Sane(net) && c in net.clients && Enough(net, c, s.flight, on) && w in on
    requires d == Copy(net, c, Opening(c), w) && d in s.flight && x.pkt == Opening(c)
    requires End(net, c, w) == d.dst && d.dst in net.servers
    requires var s' := Receive(net, s, d, net.servers.Keys);
      Heeds(net, s, d) ==> (d.dst, c) in s'.entries && (s'.entries[(d.dst, c)].isLocal <==> w == [])
    ensures var relays := Heeds(net, s, d) && (w == [] || net.servers[d.dst].hub);
      Receive(net, s, d, net.servers.Keys).flight[x] >=
        Sum(on - multiset{w} + AllOnward(net, w, d.dst, d.src, relays), Is(net, c, Opening(c), x))
  {
    var ones := Is(net, c, Opening(c), x);
    var more := AllOnward(net, w, d.dst, d.src, Heeds(net, s, d) && (w == [] || net.servers[d.dst].hub));
    assert d.pkt == Opening(c);
    assert s.flight[x] >= Sum(on, ones);
    DeliveredCount(net, s, c, w, d, x);
    IsCopy(net, c, Opening(c), w, x);
    hide Receive, Heeds, AllOnward, Is, Copy, End, Enough;
    SumTake(on, ones, w);
    SumAdd(on - multiset{w}, more, ones);
  }

  /** The copy on a way is under way, and is taken as the way says. */
  lemma ReadyWay(net: Net, s: State, c: Callsign, on: multiset<Way>, done: set<Way>, w: Way)
    requires Sane(net) && c in net.clients && Trailed(net, s, c, on, done) && w in on
    requires (End(net, c, w), c) !in s.entries
    ensures var d := Copy(net, c, Opening(c), w);
      && d in s.flight && d.dst == End(net, c, w) && d.dst in net.servers
      && d.pkt == Opening(c)
      && (if w == [] then !d.relayed && d.src !in net.servers
          else d.relayed && d.src in net.servers && d.src == End(net, c, Front(w)))
      && Goes(net, c, w)
      && (Heeds(net, s, d) <==> Taken(net, c, w))
  {
    var d := Copy(net, c, Opening(c), w);
    GoesToServer(net, c, w);
    if w != [] {
      GoesToServer(net, c, Front(w));
    }
    SumTake(on, Is(net, c, Opening(c), d), w);
    assert s.flight[d] >= Sum(on, Is(net, c, Opening(c), d));
  }

  lemma BlockedStays(net: Net, s: State, d: Datagram, wanted: set<Ip>)
    requires d.dst in net.servers && (d.relayed ==> d.src in net.servers)
    requires OnlyUnknown(net, s.blocked)
    ensures OnlyUnknown(net, Receive(net, s, d, wanted).blocked)
  {
  }

  /** When all relays want the packet, a server that accepts it sends all copies there are. */
  lemma DeliveredCount(net: Net, s: State, c: Callsign, w: Way, d: Datagram, x: Datagram)
    requires Sane(net) && c in net.clients && d == Copy(net, c, Opening(c), w) && d in s.flight && x.pkt == d.pkt
    requires End(net, c, w) == d.dst && d.dst in net.servers
    requires var s' := Receive(net, s, d, net.servers.Keys);
      Heeds(net, s, d) ==> (d.dst, c) in s'.entries && (s'.entries[(d.dst, c)].isLocal <==> w == [])
    ensures var relays := Heeds(net, s, d) && (w == [] || net.servers[d.dst].hub);
      Receive(net, s, d, net.servers.Keys).flight[x] + (if x == d then 1 else 0) >=
        s.flight[x] + Sum(AllOnward(net, w, d.dst, d.src, relays), Is(net, c, Opening(c), x))
  {
    var all, srv := net.servers.Keys, net.servers[d.dst];
    var s' := Receive(net, s, d, all);
    ReceiveEffect(net, s, d, all);
    CopiesCount(net, d.dst, srv.crossfeeds, d.pkt, x);
    assert Fed(net, s, d).flight[x] + (if x == d then 1 else 0) == s.flight[x] + Copies(net, d.dst, srv.crossfeeds, d.pkt)[x];
    AllOnwardCount(net, c, d.pkt, w, d.src, Heeds(net, s, d) && (w == [] || srv.hub), x);
    hide Receive, Fed, Copies, Heeds, AllOnward, Is, End;
    if Heeds(net, s, d) {
      var e := s'.entries[(d.dst, c)];
      CopiesCount(net, d.dst, RelayTargets(srv.relays, srv.hub, e, all), d.pkt, x);
      WantedCount(srv.relays, e.from, all, x.dst);
    }
  }

  /** Any way can be gone in some run, whatever has been gone before. */
  lemma {:induction false} Go(net: Net, c: Callsign, before: seq<Step>, on: multiset<Way>, done: set<Way>, w: Way)
      returns (steps: seq<Step>, on': multiset<Way>, done': set<Way>)
    requires Sane(net) && Goes(net, c, w) && Trailed(net, Exec(net, before), c, on, done)
    ensures Trailed(net, Exec(net, steps), c, on', done') && done <= done' && forall t :: t <= w ==> t in done'
    decreases |w|
  {
    steps, on', done' := before, on, done;
    if w != [] {
      steps, on', done' := Go(net, c, before, on, done, Front(w));
      assert Front(w) + [w[|w| - 1]] == w;
    }
    if w !in done' {
      assert w in on' by { assert Continued(net, c, on', done'); }
      steps, on', done' := GoOn(net, c, steps, on', done', w);
    }
    forall t | t <= w
      ensures t in done'
    {
      if t != w {
        assert t <= Front(w);
      }
    }
  }

  lemma GoOn(net: Net, c: Callsign, before: seq<Step>, on: multiset<Way>, done: set<Way>, w: Way)
      returns (steps: seq<Step>, on': multiset<Way>, done': set<Way>)
    requires Sane(net) && c in net.clients && Trailed(net, Exec(net, before), c, on, done) && w in on && w !in done
    ensures Trailed(net, Exec(net, steps), c, on', done') && done' == done + {w}
  {
    hide Trailed, Receive, End, Taken, Copy, AllOnward, Exec;
    var n, ready := End(net, c, w), before;
    if (n, c) in Exec(net, before).entries {
      ready := before + [Expire(n, c)];
      ExecSnoc(net, before, Expire(n, c));
      ExpiryTrailed(net, Exec(net, before), c, on, done, n);
    }
    var s, d := Exec(net, ready), Copy(net, c, Opening(c), w);
    DeliverWay(net, s, c, on, done, w);
    var step := Deliver(d, net.servers.Keys);
    ExecSnoc(net, ready, step);
    steps := ready + [step];
    done' := done + {w};
    on' := on - multiset{w} + AllOnward(net, w, d.dst, d.src, Taken(net, c, w) && (w == [] || IsHub(net, n)));
  }

  lemma ExpiryTrailed(net: Net, s: State, c: Callsign, on: multiset<Way>, done: set<Way>, n: Ip)
    requires c in net.clients && Trailed(net, s, c, on, done) && (n, c) in s.entries
    ensures Trailed(net, Apply(net, s, Expire(n, c)), c, on, done)
  {
  }

  /** Where two ways lead to a server, some run with an expiry makes it accept twice. */
  lemma HeardTwiceDuplicates(net: Net, c: Callsign) returns (steps: seq<Step>, n: Ip)
    requires Sane(net) && HeardTwice(net, c)
    ensures Exec(net, steps).accepted[(n, Opening(c))] >= 2
  {
    var v, w :| Goes(net, c, v) && Goes(net, c, w) && Rival(net, c, v, w);
    n := End(net, c, v);
    steps := RivalsDuplicate(net, c, v, w);
  }

  lemma RivalsDuplicate(net: Net, c: Callsign, v: Way, w: Way) returns (steps: seq<Step>)
    requires Sane(net) && c in net.clients && Goes(net, c, v) && Goes(net, c, w) && Rival(net, c, v, w)
    ensures Exec(net, steps).accepted[(End(net, c, v), Opening(c))] >= 2
  {
    hide Exec, Goes, End, Taken, Trailed;
    steps := SendOpening(net, c);
    var on, done := multiset{[]}, {};
    SentTrailed(net, c, steps);
    steps, on, done := Go(net, c, steps, on, done, v);
    assert v in done;
    steps, on, done := Go(net, c, steps, on, done, w);
    assert w in done;
    TwoTaken(net, Exec(net, steps), c, on, done, v, w);
  }

  lemma TwoTaken(net: Net, s: State, c: Callsign, on: multiset<Way>, done: set<Way>, v: Way, w: Way)
    requires c in net.clients && Trailed(net, s, c, on, done) && v in done && w in done && Rival(net, c, v, w)
    ensures s.accepted[(End(net, c, v), Opening(c))] >= 2
  {
    hide Taken, End;
    FewerOf({v, w}, TakenAt(net, c, done, End(net, c, v)));
  }

  lemma FewerOf<T>(a: set<T>, b: set<T>)
    requires a <= b
    ensures |a| <= |b|
  {
    assert b == a + (b - a);
  }

  lemma SentTrailed(net: Net, c: Callsign, steps: seq<Step>)
    requires c in net.clients
    requires var cl := net.clients[c];
      Exec(net, steps) == INITIAL.(flight := multiset{Datagram(cl.addr, cl.home, false, Opening(c))}, issued := {Opening(c)})
    ensures Trailed(net, Exec(net, steps), c, multiset{[]}, {})
  {
    var on: multiset<Way> := multiset{[]};
    forall d: Datagram
      ensures Sum(on, Is(net, c, Opening(c), d)) == if d == Copy(net, c, Opening(c), []) then 1 else 0
    {
      SumOne([], Is(net, c, Opening(c), d));
    }
  }

  /** Packets are accepted at most once in all runs, whenever entries expire, exactly when
      no two ways lead to a server that takes what comes on them. */
  lemma AtMostOnceIff(net: Net, c: Callsign)
    requires Sane(net)
    ensures !HeardTwice(net, c) <==>
      forall steps, n, pkt: Packet :: pkt.call == c ==> Exec(net, steps).accepted[(n, pkt)] <= 1
  {
    if HeardTwice(net, c) {
      var steps, n := HeardTwiceDuplicates(net, c);
      assert Opening(c).call == c && Exec(net, steps).accepted[(n, Opening(c))] > 1;
    } else {
      forall steps, n, pkt: Packet | pkt.call == c
        ensures Exec(net, steps).accepted[(n, pkt)] <= 1
      {
        AtMostOnce(net, steps, n, pkt);
      }
    }
  }
}
