/** A network of relay servers as a step system. Packets carry no sequence
    number and no hop count, so that forwarding does not loop is a property of
    the accept rule and the forward rule taken over all servers together. */
module RelayNetwork {
  import opened Wrappers
  import opened RelayRules

  type Callsign = string

  /** One packet sent by a client. The serial number is not on the wire; it
      only tells two packets with the same contents apart. */
  datatype Packet = Packet(call: Callsign, body: Body, serial: nat)

  /** A copy of a packet under way; `relayed` is the relay magic. */
  datatype Datagram = Datagram(src: Ip, dst: Ip, relayed: bool, pkt: Packet)

  datatype Server = Server(hub: bool, relays: seq<Ip>, whitelist: set<Ip>, crossfeeds: seq<Ip>)
  datatype Client = Client(addr: Ip, home: Ip)
  datatype Net = Net(servers: map<Ip, Server>, clients: map<Callsign, Client>)

  /** `depth`, `accepted`, `handled` and `issued` are history: how far a server
      is from the client along the introductions, which packets each server
      accepted, which datagrams have left the wire, what the clients sent. */
  datatype State = State(
    entries: map<(Ip, Callsign), Entry>,
    blocked: set<(Ip, Ip)>,
    flight: multiset<Datagram>,
    depth: map<(Ip, Callsign), nat>,
    accepted: multiset<(Ip, Packet)>,
    handled: seq<Datagram>,
    issued: set<Packet>)

  const INITIAL := State(map[], {}, multiset{}, map[], multiset{}, [], {})

  /** Any datagram in flight may be picked, so delivery is in any order.
      `wanted` are the relays in range at that moment or due for an update. */
  datatype Step =
    | Send(pkt: Packet)
    | Lose(lost: Datagram)
    | Deliver(d: Datagram, wanted: set<Ip>)
    | SetBlocked(at: Ip, ip: Ip, on: bool)
    | Expire(at: Ip, call: Callsign)

  function Lookup(s: State, n: Ip, call: Callsign): Option<Entry>
  {
    if (n, call) in s.entries then Some(s.entries[(n, call)]) else None
  }

  /** Copies that server `n` puts on the wire; a copy for an address that is
      no server of the network leaves the model. */
  function Copies(net: Net, n: Ip, targets: seq<Ip>, pkt: Packet): multiset<Datagram>
  {
    if targets == [] then multiset{}
    else
      (if targets[0] in net.servers then multiset{Datagram(n, targets[0], true, pkt)} else multiset{})
      + Copies(net, n, targets[1..], pkt)
  }

  /** Taking one datagram off the wire, whatever becomes of it. */
  function TakeOff(s: State, d: Datagram): State
  {
    s.(flight := s.flight - multiset{d}, handled := s.handled + [d])
  }

  /** A server takes datagram `d` off the wire. Crossfeed copies go out before
      any check; then come the blacklist and the relay check. */
  function Receive(net: Net, s: State, d: Datagram, wanted: set<Ip>): State
    requires d.dst in net.servers
  {
    var srv := net.servers[d.dst];
    var taken := TakeOff(s, d);
    var s0 := taken.(flight := taken.flight + Copies(net, d.dst, srv.crossfeeds, d.pkt));
    if (d.dst, d.src) in s.blocked then s0
    else if d.relayed && d.src !in srv.whitelist && d.src !in srv.relays then
      s0.(blocked := s.blocked + {(d.dst, d.src)})
    else Process(net, s0, d, wanted)
  }

  /** The accept rule and then the forward rule. */
  function Process(net: Net, s: State, d: Datagram, wanted: set<Ip>): State
    requires d.dst in net.servers
  {
    match Judge(Lookup(s, d.dst, d.pkt.call), d.src, d.pkt.body)
    case Ignore => s
    case Introduce => Forward(net, Introduced(s, d), d.dst, Entry(d.src, !d.relayed), d.pkt, wanted)
    case Update => Forward(net, s, d.dst, s.entries[(d.dst, d.pkt.call)], d.pkt, wanted)
  }

  function Introduced(s: State, d: Datagram): State
  {
    var k := (d.src, d.pkt.call);
    s.(entries := s.entries[(d.dst, d.pkt.call) := Entry(d.src, !d.relayed)],
       depth := s.depth[(d.dst, d.pkt.call) := if d.relayed && k in s.depth then s.depth[k] + 1 else 0])
  }

  function Forward(net: Net, s: State, n: Ip, e: Entry, pkt: Packet, wanted: set<Ip>): State
    requires n in net.servers
  {
    var srv := net.servers[n];
    s.(accepted := s.accepted + multiset{(n, pkt)},
       flight := s.flight + Copies(net, n, RelayTargets(srv.relays, srv.hub, e, wanted), pkt))
  }

  predicate Enabled(net: Net, s: State, step: Step)
  {
    match step
    case Send(pkt) => pkt.call in net.clients && pkt !in s.issued
    case Lose(d) => d in s.flight
    case Deliver(d, _) => d in s.flight && d.dst in net.servers
    case SetBlocked(_, _, _) => true
    case Expire(n, call) => (n, call) in s.entries
  }

  function Apply(net: Net, s: State, step: Step): State
    requires Enabled(net, s, step)
  {
    match step
    case Send(pkt) =>
      var c := net.clients[pkt.call];
      s.(flight := s.flight + multiset{Datagram(c.addr, c.home, false, pkt)}, issued := s.issued + {pkt})
    case Lose(d) => s.(flight := s.flight - multiset{d}, handled := s.handled + [d])
    case Deliver(d, wanted) => Receive(net, s, d, wanted)
    case SetBlocked(n, ip, on) =>
      s.(blocked := if on then s.blocked + {(n, ip)} else s.blocked - {(n, ip)})
    case Expire(n, call) => s.(entries := s.entries - {(n, call)}, depth := s.depth - {(n, call)})
  }

  /** The state after a run; a step that is not enabled is skipped. */
  function Exec(net: Net, steps: seq<Step>): State
  {
    if steps == [] then INITIAL
    else
      var s := Exec(net, steps[..|steps| - 1]);
      var step := steps[|steps| - 1];
      if Enabled(net, s, step) then Apply(net, s, step) else s
  }

  // ---------------------------------------------------------------------
  // Assumptions

  /** Clients send to a server, and no client shares its address with a server. */
  predicate Sane(net: Net)
  {
    forall c :: c in net.clients ==> net.clients[c].home in net.servers && net.clients[c].addr !in net.servers
  }

  /** Server `x` takes relayed packets from `u`. */
  predicate Knows(net: Net, x: Ip, u: Ip)
    requires x in net.servers
  {
    u in net.servers[x].whitelist || u in net.servers[x].relays
  }

  /** Crossfeed targets get every packet unconditionally. One that is itself a server of
      the network must not take them from the server that feeds it. */
  ghost predicate FeedersUnknown(net: Net)
  {
    forall n, x :: n in net.servers && x in net.servers && x in net.servers[n].crossfeeds ==> !Knows(net, x, n)
  }

  ghost predicate NeverExpires(steps: seq<Step>, call: Callsign)
  {
    forall i :: 0 <= i < |steps| ==> !(steps[i].Expire? && steps[i].call == call)
  }

  /** Nothing of the callsign is under way. */
  ghost predicate Idle(s: State, call: Callsign)
  {
    forall d :: d in s.flight ==> d.pkt.call != call
  }

  /** Entries of the callsign expire only while nothing of it is under way. */
  ghost predicate QuietExpiry(net: Net, steps: seq<Step>, call: Callsign)
  {
    forall i :: 0 <= i < |steps| && steps[i].Expire? && steps[i].call == call ==> Idle(Exec(net, steps[..i]), call)
  }

  lemma NeverIsQuiet(net: Net, steps: seq<Step>, call: Callsign)
    requires NeverExpires(steps, call)
    ensures QuietExpiry(net, steps, call)
  {
  }

  // ---------------------------------------------------------------------
  // Runs and copies

  lemma ExecSnoc(net: Net, steps: seq<Step>, step: Step)
    ensures Exec(net, steps + [step]) ==
            var s := Exec(net, steps); if Enabled(net, s, step) then Apply(net, s, step) else s
  {
    assert (steps + [step])[..|steps|] == steps;
  }

  lemma {:induction false} CopiesCount(net: Net, n: Ip, targets: seq<Ip>, pkt: Packet, d: Datagram)
    ensures Copies(net, n, targets, pkt)[d] ==
            if d == Datagram(n, d.dst, true, pkt) && d.dst in net.servers then CountOf(targets, d.dst) else 0
  {
    if targets != [] {
      CopiesCount(net, n, targets[1..], pkt, d);
    }
  }

  /** How many times `d` has been on the wire so far. */
  function Traffic(s: State, d: Datagram): nat
  {
    s.flight[d] + multiset(s.handled)[d]
  }

  /** The links over which copies of `pkt` have been delivered or lost. */
  function Hops(log: seq<Datagram>, pkt: Packet): seq<(Ip, Ip)>
  {
    if log == [] then []
    else
      var d := log[|log| - 1];
      Hops(log[..|log| - 1], pkt) + if d.pkt == pkt then [(d.src, d.dst)] else []
  }

  lemma HopsSnoc(log: seq<Datagram>, d: Datagram, pkt: Packet)
    ensures Hops(log + [d], pkt) == Hops(log, pkt) + if d.pkt == pkt then [(d.src, d.dst)] else []
  {
    assert (log + [d])[..|log|] == log;
  }

  /** The state in which the accept rule is applied to `d`. */
  function Fed(net: Net, s: State, d: Datagram): State
    requires d.dst in net.servers
  {
    var taken := TakeOff(s, d);
    taken.(flight := taken.flight + Copies(net, d.dst, net.servers[d.dst].crossfeeds, d.pkt))
  }

  /** Whether a server looks at `d` at all. */
  predicate Admits(net: Net, s: State, d: Datagram)
    requires d.dst in net.servers
  {
    (d.dst, d.src) !in s.blocked && (d.relayed ==> Knows(net, d.dst, d.src))
  }

  lemma ReceiveCases(net: Net, s: State, d: Datagram, wanted: set<Ip>)
    requires d.dst in net.servers
    ensures Admits(net, s, d) ==> Receive(net, s, d, wanted) == Process(net, Fed(net, s, d), d, wanted)
    ensures !Admits(net, s, d) ==>
      exists b :: Receive(net, s, d, wanted) == Fed(net, s, d).(blocked := s.blocked + b)
  {
    var s0, srv := Fed(net, s, d), net.servers[d.dst];
    if !Admits(net, s, d) {
      var b := if (d.dst, d.src) in s.blocked then {} else {(d.dst, d.src)};
      assert s.blocked + {} == s.blocked && s0.(blocked := s.blocked) == s0;
      assert Receive(net, s, d, wanted) == s0.(blocked := s.blocked + b);
    }
  }

  /** Taking a datagram off the wire changes the traffic of none. */
  lemma FedTraffic(net: Net, s: State, d: Datagram, x: Datagram)
    requires d in s.flight && d.dst in net.servers
    ensures multiset(Fed(net, s, d).handled) == multiset(s.handled) + multiset{d}
    ensures Traffic(Fed(net, s, d), x) ==
      Traffic(s, x) + Copies(net, d.dst, net.servers[d.dst].crossfeeds, d.pkt)[x]
  {
    assert multiset(s.handled + [d]) == multiset(s.handled) + multiset{d};
  }

  // ---------------------------------------------------------------------
  // Introductions

  /** Introductions lead back to the client, one level at a time. */
  ghost predicate Rooted(net: Net, s: State, c: Callsign, n: Ip)
    requires c in net.clients && (n, c) in s.entries
  {
    var e := s.entries[(n, c)];
    && n in net.servers
    && (n, c) in s.depth
    && if e.isLocal then
         e.from == net.clients[c].addr && n == net.clients[c].home && s.depth[(n, c)] == 0
       else
         && (e.from, c) in s.entries
         && (e.from, c) in s.depth
         && e.from in net.servers
         && s.depth[(n, c)] == s.depth[(e.from, c)] + 1
         && (net.servers[e.from].hub || e.from == net.clients[c].home)
  }

  /** Where a datagram under way comes from: the client, for its own server, or a server
      that has the callsign listed, unless its receiver will not take it anyway. */
  ghost predicate OnLink(net: Net, s: State, d: Datagram)
  {
    && d.pkt.call in net.clients
    && d.dst in net.servers
    && if d.relayed then
         Knows(net, d.dst, d.src) ==>
           && d.src in net.servers
           && (d.src, d.pkt.call) in s.entries
           && (net.servers[d.src].hub || d.src == net.clients[d.pkt.call].home)
       else
         d.src == net.clients[d.pkt.call].addr && d.dst == net.clients[d.pkt.call].home
  }

  ghost predicate TreeInv(net: Net, s: State, c: Callsign)
  {
    && s.entries.Keys == s.depth.Keys
    && (forall n: Ip :: (n, c) in s.entries ==>
          && c in net.clients
          && Rooted(net, s, c, n)
          && var h := net.clients[c].home; (h, c) in s.entries && s.entries[(h, c)].isLocal)
    && (forall d: Datagram :: d in s.flight && d.pkt.call == c ==> OnLink(net, s, d))
  }

  /** The invariant does not look at the rest of the state, and fewer datagrams do no harm. */
  lemma SameTree(net: Net, s: State, s': State, c: Callsign)
    requires TreeInv(net, s, c)
    requires s'.entries.Keys == s'.depth.Keys
    requires forall n: Ip ::
      && ((n, c) in s'.entries <==> (n, c) in s.entries)
      && ((n, c) in s.entries ==>
            s'.entries[(n, c)] == s.entries[(n, c)] && (n, c) in s'.depth && s'.depth[(n, c)] == s.depth[(n, c)])
    requires forall d: Datagram :: d in s'.flight && d.pkt.call == c ==> d in s.flight || OnLink(net, s, d)
    ensures TreeInv(net, s', c)
  {
    forall n: Ip | (n, c) in s'.entries
      ensures Rooted(net, s', c, n)
    {
      assert Rooted(net, s, c, n);
    }
    forall d: Datagram | d in s'.flight && d.pkt.call == c
      ensures OnLink(net, s', d)
    {
      assert OnLink(net, s, d);
    }
  }

  lemma FeedKeepsTree(net: Net, s: State, d: Datagram, c: Callsign)
    requires FeedersUnknown(net) && TreeInv(net, s, c) && d in s.flight && d.dst in net.servers
    ensures TreeInv(net, Fed(net, s, d), c)
  {
    var crossfeeds := net.servers[d.dst].crossfeeds;
    forall x: Datagram | x in Fed(net, s, d).flight && x.pkt.call == c
      ensures x in s.flight || OnLink(net, s, x)
    {
      CopiesCount(net, d.dst, crossfeeds, d.pkt, x);
      if x !in s.flight {
        CountIn(crossfeeds, x.dst);
        assert OnLink(net, s, d);
      }
    }
    SameTree(net, s, Fed(net, s, d), c);
  }

  lemma IntroduceKeepsTree(net: Net, s: State, d: Datagram, c: Callsign)
    requires Sane(net) && TreeInv(net, s, c)
    requires d.dst in net.servers && (d.dst, d.pkt.call) !in s.entries
    requires d.pkt.call == c ==> OnLink(net, s, d) && (d.relayed ==> Knows(net, d.dst, d.src))
    ensures TreeInv(net, Introduced(s, d), c)
  {
    var n := d.dst;
    var s' := Introduced(s, d);
    assert s'.entries.Keys == s.entries.Keys + {(n, d.pkt.call)};
    assert s'.depth.Keys == s.depth.Keys + {(n, d.pkt.call)};
    forall m: Ip | (m, c) in s'.entries
      ensures c in net.clients && Rooted(net, s', c, m)
      ensures var h := net.clients[c].home; (h, c) in s'.entries && s'.entries[(h, c)].isLocal
    {
      if (m, c) in s.entries {
        assert Rooted(net, s, c, m);
      }
      if d.pkt.call == c && d.relayed {
        assert Rooted(net, s, c, d.src);
      }
    }
    forall x: Datagram | x in s'.flight && x.pkt.call == c
      ensures OnLink(net, s', x)
    {
      assert OnLink(net, s, x);
    }
  }

  lemma ForwardKeepsTree(net: Net, s: State, n: Ip, pkt: Packet, wanted: set<Ip>, c: Callsign)
    requires TreeInv(net, s, c) && n in net.servers && (n, pkt.call) in s.entries
    ensures TreeInv(net, Forward(net, s, n, s.entries[(n, pkt.call)], pkt, wanted), c)
  {
    var srv, e := net.servers[n], s.entries[(n, pkt.call)];
    var s' := Forward(net, s, n, e, pkt, wanted);
    forall x: Datagram | x in s'.flight && x.pkt.call == c
      ensures x in s.flight || OnLink(net, s, x)
    {
      var targets := RelayTargets(srv.relays, srv.hub, e, wanted);
      CopiesCount(net, n, targets, pkt, x);
      if x !in s.flight {
        CountIn(targets, x.dst);
        assert Rooted(net, s, c, n);
      }
    }
    SameTree(net, s, s', c);
  }

  lemma ProcessKeepsTree(net: Net, s: State, d: Datagram, wanted: set<Ip>, c: Callsign)
    requires Sane(net) && TreeInv(net, s, c) && d.dst in net.servers
    requires d.pkt.call == c ==> OnLink(net, s, d) && (d.relayed ==> Knows(net, d.dst, d.src))
    ensures TreeInv(net, Process(net, s, d, wanted), c)
  {
    match Judge(Lookup(s, d.dst, d.pkt.call), d.src, d.pkt.body)
    case Ignore =>
    case Introduce =>
      IntroduceKeepsTree(net, s, d, c);
      ForwardKeepsTree(net, Introduced(s, d), d.dst, d.pkt, wanted, c);
    case Update =>
      ForwardKeepsTree(net, s, d.dst, d.pkt, wanted, c);
  }

  lemma ReceiveKeepsTree(net: Net, s: State, d: Datagram, wanted: set<Ip>, c: Callsign)
    requires Sane(net) && FeedersUnknown(net) && TreeInv(net, s, c) && d in s.flight && d.dst in net.servers
    ensures TreeInv(net, Receive(net, s, d, wanted), c)
  {
    var s0 := Fed(net, s, d);
    ReceiveCases(net, s, d, wanted);
    FeedKeepsTree(net, s, d, c);
    if Admits(net, s, d) {
      if d.pkt.call == c {
        assert OnLink(net, s, d) && OnLink(net, s0, d);
      }
      ProcessKeepsTree(net, s0, d, wanted, c);
    } else {
      SameTree(net, s0, Receive(net, s, d, wanted), c);
    }
  }

  lemma StepKeepsTree(net: Net, s: State, step: Step, c: Callsign)
    requires Sane(net) && FeedersUnknown(net) && TreeInv(net, s, c) && Enabled(net, s, step)
    requires step.Expire? ==> step.call != c
    ensures TreeInv(net, Apply(net, s, step), c)
  {
    match step
    case Deliver(d, wanted) => ReceiveKeepsTree(net, s, d, wanted, c);
    case _ => SameTree(net, s, Apply(net, s, step), c);
  }

  lemma {:induction false} RunKeepsTree(net: Net, steps: seq<Step>, c: Callsign)
    requires Sane(net) && FeedersUnknown(net) && NeverExpires(steps, c)
    ensures TreeInv(net, Exec(net, steps), c)
  {
    if steps != [] {
      var before, step := steps[..|steps| - 1], steps[|steps| - 1];
      RunKeepsTree(net, before, c);
      if Enabled(net, Exec(net, before), step) {
        StepKeepsTree(net, Exec(net, before), step, c);
      }
    }
  }

  lemma {:induction false} DistinctBound<T>(s: seq<T>, all: set<T>)
    requires Distinct(s) && forall x :: x in s ==> x in all
    ensures |s| <= |all|
  {
    if s != [] {
      var last := s[|s| - 1];
      var front := s[..|s| - 1];
      assert forall x :: x in front ==> x in s && x != last;
      DistinctBound(front, all - {last});
    }
  }

  /** `path` follows the introductions from its first server to the client's. */
  ghost predicate Lineage(net: Net, s: State, c: Callsign, path: seq<Ip>)
    requires c in net.clients
  {
    && |path| > 0
    && path[0] in net.servers
    && (path[0], c) in s.entries
    && var e := s.entries[(path[0], c)];
       var client := net.clients[c];
       if |path| == 1 then path[0] == client.home && e == Entry(client.addr, true)
       else
         && e == Entry(path[1], false)
         && (path[1] == client.home || (path[1] in net.servers && net.servers[path[1]].hub))
         && Lineage(net, s, c, path[1..])
  }

  lemma {:induction false} LineageExists(net: Net, s: State, c: Callsign, n: Ip) returns (path: seq<Ip>)
    requires TreeInv(net, s, c) && (n, c) in s.entries
    ensures c in net.clients && Lineage(net, s, c, path) && path[0] == n && Distinct(path)
    ensures forall x :: x in path ==>
              x in net.servers && (x, c) in s.depth && s.depth[(x, c)] <= s.depth[(n, c)]
    decreases s.depth[(n, c)]
  {
    assert Rooted(net, s, c, n);
    var e := s.entries[(n, c)];
    if e.isLocal {
      path := [n];
    } else {
      var rest := LineageExists(net, s, c, e.from);
      path := [n] + rest;
      assert n !in rest;
      assert path[1..] == rest;
    }
  }

  /** The links "introduced by" form a tree rooted at the client's server: from
      every server that lists the callsign they lead, without repeating a
      server and over hubs only, to the one entry made by the client itself. */
  lemma IntroductionsFormTree(net: Net, steps: seq<Step>, c: Callsign, n: Ip)
    requires Sane(net) && FeedersUnknown(net) && NeverExpires(steps, c)
    requires (n, c) in Exec(net, steps).entries
    ensures c in net.clients
    ensures exists path: seq<Ip> ::
              Lineage(net, Exec(net, steps), c, path) && path[0] == n && Distinct(path) && |path| <= |net.servers|
  {
    RunKeepsTree(net, steps, c);
    var path := LineageExists(net, Exec(net, steps), c, n);
    DistinctBound(path, net.servers.Keys);
  }

  lemma ProcessKeepsEntry(net: Net, s: State, d: Datagram, wanted: set<Ip>, k: (Ip, Callsign))
    requires d.dst in net.servers && k in s.entries
    ensures k in Process(net, s, d, wanted).entries && Process(net, s, d, wanted).entries[k] == s.entries[k]
  {
    match Judge(Lookup(s, d.dst, d.pkt.call), d.src, d.pkt.body)
    case Ignore =>
    case Introduce => assert Process(net, s, d, wanted).entries == Introduced(s, d).entries;
    case Update => assert Process(net, s, d, wanted).entries == s.entries;
  }

  lemma StepKeepsEntry(net: Net, s: State, step: Step, k: (Ip, Callsign))
    requires Enabled(net, s, step) && k in s.entries
    requires !(step.Expire? && step.call == k.1)
    ensures k in Apply(net, s, step).entries && Apply(net, s, step).entries[k] == s.entries[k]
  {
    if step.Deliver? {
      var d, taken := step.d, TakeOff(s, step.d);
      var s0 := taken.(flight := taken.flight + Copies(net, d.dst, net.servers[d.dst].crossfeeds, d.pkt));
      ProcessKeepsEntry(net, s0, d, step.wanted, k);
    }
  }

  /** The tree only grows: an introduction, once made, stays as it is. */
  lemma {:induction false} TreeGrows(net: Net, steps: seq<Step>, k: nat, c: Callsign, n: Ip)
    requires k <= |steps| && NeverExpires(steps, c)
    requires (n, c) in Exec(net, steps[..k]).entries
    ensures (n, c) in Exec(net, steps).entries
    ensures Exec(net, steps).entries[(n, c)] == Exec(net, steps[..k]).entries[(n, c)]
  {
    if k == |steps| {
      assert steps[..k] == steps;
    } else {
      var before, step := steps[..|steps| - 1], steps[|steps| - 1];
      assert before[..k] == steps[..k];
      TreeGrows(net, before, k, c, n);
      if Enabled(net, Exec(net, before), step) {
        StepKeepsEntry(net, Exec(net, before), step, (n, c));
      }
    }
  }
}
