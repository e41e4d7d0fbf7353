/** One server of the network model is what the relay server does with a packet. */
module Simulation {
  import opened RelayRules
  import opened Players
  import opened Registry
  import opened Forwarding
  import LazyRelay
  import N = RelayNetwork

  function Ips(feeds: seq<Address>): (r: seq<Ip>)
    ensures |r| == |feeds|
  {
    seq(|feeds|, i requires 0 <= i < |feeds| => feeds[i].ip)
  }

  /** Where the datagrams for relays go, and those for crossfeed targets. */
  function RelayIps(out: seq<Output>): seq<Ip>
  {
    if out == [] then []
    else RelayIps(out[..|out| - 1]) + if out[|out| - 1].ToRelay? then [out[|out| - 1].ip] else []
  }

  function FeedIps(out: seq<Output>): seq<Ip>
  {
    if out == [] then []
    else FeedIps(out[..|out| - 1]) + if out[|out| - 1].ToCrossfeed? then [out[|out| - 1].to.ip] else []
  }

  /** Server `n` of the network is configured as the server is, has the same callsigns
      listed, by the same entries, and the same addresses blocked. */
  ghost predicate Mirrors(cfg: Config, s: Server, net: N.Net, t: N.State, n: Ip)
  {
    && Configured(cfg, net, n)
    && SameEntries(s.players, t, n)
    && SameBlocked(s.blackList, t, n)
  }

  predicate Configured(cfg: Config, net: N.Net, n: Ip)
  {
    n in net.servers && net.servers[n] == N.Server(cfg.isHub, cfg.relays, cfg.whitelist, Ips(cfg.crossfeeds))
  }

  ghost predicate SameEntries(players: seq<Player>, t: N.State, n: Ip)
  {
    forall name :: name != BAD_CLIENT ==> EntryOf(players, name) == N.Lookup(t, n, name)
  }

  ghost predicate SameBlocked(list: seq<BlockEntry>, t: N.State, n: Ip)
  {
    forall ip: Ip :: IsBlocked(list, ip) <==> (n, ip) in t.blocked
  }

  /** Entries with errors are those of bad clients. */
  predicate ErrorsAreBad(players: seq<Player>)
  {
    forall i :: 0 <= i < |players| && players[i].hasErrors ==> players[i].name == BAD_CLIENT
  }

  /** That holds in every run that does not lose a sender. */
  lemma RunErrorsAreBad(cfg: Config, anyID: nat, events: seq<Event>)
    requires LazyRelay.Callsigns(events) && Exec(cfg, anyID, events).1 == Done
    ensures ErrorsAreBad(Exec(cfg, anyID, events).0.players)
  {
    LazyRelay.ForcedAreUpdates(cfg, anyID, events, 0);
    var players := Exec(cfg, anyID, events).0.players;
    forall i | 0 <= i < |players| && players[i].hasErrors
      ensures players[i].name == BAD_CLIENT
    {
      assert players[i] in players;
    }
  }

  // ---------------------------------------------------------------------
  // Outputs

  lemma {:induction false} IpsAdd(a: seq<Output>, b: seq<Output>)
    ensures RelayIps(a + b) == RelayIps(a) + RelayIps(b)
    ensures FeedIps(a + b) == FeedIps(a) + FeedIps(b)
  {
    if b == [] {
      assert a + b == a;
    } else {
      assert (a + b)[..|a + b| - 1] == a + b[..|b| - 1];
      IpsAdd(a, b[..|b| - 1]);
    }
  }

  lemma {:induction false} ClientsOnly(out: seq<Output>)
    requires forall i :: 0 <= i < |out| ==> out[i].ToClient?
    ensures RelayIps(out) == [] && FeedIps(out) == []
  {
    if out != [] {
      ClientsOnly(out[..|out| - 1]);
    }
  }

  lemma {:induction false} RelaysOnly(ips: seq<Ip>)
    ensures RelayIps(RelayOutputs(ips)) == ips && FeedIps(RelayOutputs(ips)) == []
  {
    if ips != [] {
      RelaysOnly(ips[..|ips| - 1]);
      assert RelayOutputs(ips)[..|ips| - 1] == RelayOutputs(ips[..|ips| - 1]);
    }
  }

  lemma {:induction false} FeedsOnly(feeds: seq<Address>, out: seq<Output>)
    requires |out| == |feeds| && forall i :: 0 <= i < |out| ==> out[i] == ToCrossfeed(feeds[i])
    ensures FeedIps(out) == Ips(feeds) && RelayIps(out) == []
  {
    if out != [] {
      FeedsOnly(feeds[..|feeds| - 1], out[..|out| - 1]);
    }
  }

  lemma {:induction false} DeliveriesToClients(cfg: Config, from: Player, pkt: Packet, list: seq<Player>)
    ensures forall i :: 0 <= i < |Deliveries(cfg, from, pkt, list)| ==> Deliveries(cfg, from, pkt, list)[i].ToClient?
  {
    hide Receives;
    if list != [] {
      DeliveriesToClients(cfg, from, pkt, list[..|list| - 1]);
    }
  }

  // ---------------------------------------------------------------------
  // Entries

  /** Erasing bad clients and visiting the others does not change what is remembered. */
  lemma {:induction false} VisitedEntries(cfg: Config, from: Player, pkt: Packet, now: int, list: seq<Player>, name: string)
    requires ErrorsAreBad(list) && name != BAD_CLIENT
    ensures EntryOf(Visited(cfg, from, pkt, now, list), name) == EntryOf(list, name)
  {
    if list != [] {
      var front, c := list[..|list| - 1], list[|list| - 1];
      assert list == front + [c];
      VisitedEntries(cfg, from, pkt, now, front, name);
      VisitIdentity(cfg, from, pkt, now, c);
      hide EntryOf, Visit;
      EntryAppended(front, c, name);
      EntryAppended(Visited(cfg, from, pkt, now, front), Visit(cfg, from, pkt, now, c), name);
      assert c.hasErrors ==> c.name == BAD_CLIENT;
      assert c.TimedOut(now) ==> Visited(cfg, from, pkt, now, list) == Visited(cfg, from, pkt, now, front);
    }
  }

  lemma AcceptErrors(cfg: Config, s: Server, from: Address, pkt: Packet, now: int)
    requires ErrorsAreBad(s.players)
    ensures var s' := Accept(cfg, s, from, pkt, now).0;
      ErrorsAreBad(s'.players) && s'.out == s.out && s'.blackList == s.blackList
  {
    hide FirstRadarRange, NextRadarRange, IndexOfName;
  }

  // ---------------------------------------------------------------------
  // One packet

  /** What the network model makes of the packet. */
  function Arriving(from: Address, pkt: Packet, n: Ip, serial: nat): N.Datagram
  {
    N.Datagram(from.ip, n, pkt.relay, N.Packet(pkt.name, pkt.Body(), serial))
  }

  /** The wire after the packet: without it, and with the copies in the datagrams sent. */
  ghost predicate SameWire(net: N.Net, t: N.State, t': N.State, d: N.Datagram, sent: seq<Output>)
  {
    t'.flight == t.flight - multiset{d} + N.Copies(net, d.dst, FeedIps(sent), d.pkt) + N.Copies(net, d.dst, RelayIps(sent), d.pkt)
  }

  lemma CrossfeedIps(cfg: Config)
    ensures FeedIps(Crossfeed(cfg)) == Ips(cfg.crossfeeds) && RelayIps(Crossfeed(cfg)) == []
  {
    FeedsOnly(cfg.crossfeeds, Crossfeed(cfg));
  }

  /** Only crossfeed copies go out. */
  lemma FedOnly(cfg: Config, net: N.Net, t: N.State, d: N.Datagram)
    requires Configured(cfg, net, d.dst)
    ensures SameWire(net, t, N.Fed(net, t, d), d, Crossfeed(cfg))
  {
    CrossfeedIps(cfg);
    assert N.Copies(net, d.dst, [], d.pkt) == multiset{};
  }

  lemma MarkedBlocked(list: seq<BlockEntry>, ip: Ip, now: int, t: N.State, t': N.State, n: Ip)
    requires SameBlocked(list, t, n) && t'.blocked == t.blocked
    ensures SameBlocked(MarkBlocked(list, ip, now), t', n)
  {
    var marked := MarkBlocked(list, ip, now);
    assert forall i :: 0 <= i < |list| ==> marked[i].ip == list[i].ip;
    forall x
      ensures IsBlocked(marked, x) <==> IsBlocked(list, x)
    {
      if i :| 0 <= i < |list| && list[i].ip == x {
        assert marked[i].ip == x;
      }
    }
  }

  lemma NewlyBlocked(list: seq<BlockEntry>, b: BlockEntry, t: N.State, t': N.State, n: Ip)
    requires SameBlocked(list, t, n) && t'.blocked == t.blocked + {(n, b.ip)}
    ensures SameBlocked(list + [b], t', n)
  {
    var more := list + [b];
    forall ip
      ensures IsBlocked(more, ip) <==> IsBlocked(list, ip) || ip == b.ip
    {
      if i :| 0 <= i < |list| && list[i].ip == ip {
        assert more[i].ip == ip;
      }
      assert more[|list|].ip == b.ip;
      if i :| 0 <= i < |more| && more[i].ip == ip {
        assert i < |list| ==> list[i].ip == ip;
      }
    }
  }

  /** The relays that a forwarded packet goes to are those of the forward rule. */
  lemma ForwardOutputs(cfg: Config, s: Server, sender: nat, pkt: Packet, now: int) returns (wanted: set<Ip>)
    requires sender < |s.players| && SenderStays(s.players, sender, now) && sender == IndexOfName(s.players, pkt.name)
    ensures EntryOf(s.players, pkt.name).Some?
    ensures var s' := ForwardAccepted(cfg, s, sender, pkt, now).0;
      && s.out <= s'.out && FeedIps(s'.out[|s.out|..]) == []
      && RelayIps(s'.out[|s.out|..]) == RelayTargets(cfg.relays, cfg.isHub, EntryOf(s.players, pkt.name).value, wanted)
  {
    RelaysFollowRule(cfg, s, sender, pkt, now);
    assert EntryOf(s.players, pkt.name).Some?;
    hide ForwardAccepted, EntryOf, Deliveries, RelayTargets, RelayIps, FeedIps, SenderStays, IndexOfName, RelayOutputs;
    var s', from := ForwardAccepted(cfg, s, sender, pkt, now).0, s.players[sender];
    var e := EntryOf(s.players, pkt.name).value;
    wanted :| s'.out == s.out + Deliveries(cfg, from, pkt, s.players)
                        + RelayOutputs(RelayTargets(cfg.relays, cfg.isHub, e, wanted));
    var sent, to := Deliveries(cfg, from, pkt, s.players), RelayTargets(cfg.relays, cfg.isHub, e, wanted);
    assert s'.out[|s.out|..] == sent + RelayOutputs(to);
    SentIps(cfg, from, pkt, s.players, to);
  }

  lemma SentIps(cfg: Config, from: Player, pkt: Packet, list: seq<Player>, to: seq<Ip>)
    ensures var out := Deliveries(cfg, from, pkt, list) + RelayOutputs(to); RelayIps(out) == to && FeedIps(out) == []
  {
    hide Deliveries, RelayIps, FeedIps, RelayOutputs;
    var sent := Deliveries(cfg, from, pkt, list);
    DeliveriesToClients(cfg, from, pkt, list);
    ClientsOnly(sent);
    RelaysOnly(to);
    IpsAdd(sent, RelayOutputs(to));
  }

  /** The packet is accepted and forwarded. */
  lemma ForwardSimulates(cfg: Config, s: Server, sender: nat, pkt: Packet, now: int, net: N.Net, t: N.State, n: Ip, p: N.Packet)
      returns (wanted: set<Ip>)
    requires sender < |s.players| && SenderStays(s.players, sender, now) && sender == IndexOfName(s.players, pkt.name)
    requires ErrorsAreBad(s.players) && Mirrors(cfg, s, net, t, n) && pkt.name != BAD_CLIENT && p.call == pkt.name
    ensures (n, p.call) in t.entries
    ensures var s' := ForwardAccepted(cfg, s, sender, pkt, now).0;
      var t' := N.Forward(net, t, n, t.entries[(n, p.call)], p, wanted);
      && Mirrors(cfg, s', net, t', n)
      && s.out <= s'.out && FeedIps(s'.out[|s.out|..]) == []
      && t'.flight == t.flight + N.Copies(net, n, RelayIps(s'.out[|s.out|..]), p)
  {
    hide ForwardAccepted, EntryOf, Deliveries, RelayTargets, N.Copies, Visited, SenderStays, IndexOfName, ErrorsAreBad, IsBlocked;
    wanted := ForwardOutputs(cfg, s, sender, pkt, now);
    assert EntryOf(s.players, pkt.name) == N.Lookup(t, n, p.call);
    ForwardedRest(cfg, s, sender, pkt, now);
    var s' := ForwardAccepted(cfg, s, sender, pkt, now).0;
    forall name | name != BAD_CLIENT
      ensures EntryOf(s'.players, name) == N.Lookup(t, n, name)
    {
      VisitedEntries(cfg, s.players[sender], pkt, now, s.players, name);
    }
  }

  lemma ForwardedRest(cfg: Config, s: Server, sender: nat, pkt: Packet, now: int)
    requires sender < |s.players| && SenderStays(s.players, sender, now)
    ensures var s' := ForwardAccepted(cfg, s, sender, pkt, now).0;
      s'.players == Visited(cfg, s.players[sender], pkt, now, s.players) && s'.blackList == s.blackList
  {
    VisitedKeepsPlace(cfg, s, sender, pkt, now);
    hide Visited, Deliveries, Overdue, RelaysFor;
    assert s.players[..|s.players|] == s.players;
  }

  /** The state of the network model in which an accepted packet is forwarded. */
  function Judged(t: N.State, d: N.Datagram): N.State
  {
    if Judge(N.Lookup(t, d.dst, d.pkt.call), d.src, d.pkt.body) == Introduce then N.Introduced(t, d) else t
  }

  lemma AcceptMirrors(cfg: Config, s: Server, from: Address, pkt: Packet, now: int, net: N.Net, t: N.State, d: N.Datagram)
    requires Mirrors(cfg, s, net, t, d.dst) && pkt.name != BAD_CLIENT && ErrorsAreBad(s.players)
    requires d == Arriving(from, pkt, d.dst, d.pkt.serial)
    ensures var (s1, sender) := Accept(cfg, s, from, pkt, now);
      && Mirrors(cfg, s1, net, Judged(t, d), d.dst) && ErrorsAreBad(s1.players) && s1.out == s.out
      && (sender.Some? <==> Judge(N.Lookup(t, d.dst, d.pkt.call), d.src, d.pkt.body) != Ignore)
      && (sender.Some? ==> sender.value == IndexOfName(s1.players, pkt.name))
  {
    AcceptErrors(cfg, s, from, pkt, now);
    AcceptFollowsRule(cfg, s, from, pkt, now, pkt.name);
    assert EntryOf(s.players, pkt.name) == N.Lookup(t, d.dst, pkt.name);
    hide Accept, EntryOf, Judge, IsBlocked, ErrorsAreBad, IndexOfName;
    var s1 := Accept(cfg, s, from, pkt, now).0;
    forall name | name != BAD_CLIENT
      ensures EntryOf(s1.players, name) == N.Lookup(Judged(t, d), d.dst, name)
    {
      AcceptFollowsRule(cfg, s, from, pkt, now, name);
      assert EntryOf(s.players, name) == N.Lookup(t, d.dst, name);
    }
  }

  function AcceptAndForward(cfg: Config, s: Server, from: Address, pkt: Packet, now: int): (Server, Outcome)
  {
    var (s1, sender) := Accept(cfg, s, from, pkt, now);
    if sender.None? then (s1, Done) else ForwardAccepted(cfg, s1, sender.value, pkt, now)
  }

  lemma AcceptSimulates(cfg: Config, s: Server, from: Address, pkt: Packet, now: int, net: N.Net, t: N.State, d: N.Datagram)
      returns (wanted: set<Ip>)
    requires Mirrors(cfg, s, net, t, d.dst) && ErrorsAreBad(s.players) && pkt.name != BAD_CLIENT
    requires d == Arriving(from, pkt, d.dst, d.pkt.serial)
    requires AcceptAndForward(cfg, s, from, pkt, now).1 == Done
    ensures var s' := AcceptAndForward(cfg, s, from, pkt, now).0;
      var t' := N.Process(net, t, d, wanted);
      && Mirrors(cfg, s', net, t', d.dst)
      && s.out <= s'.out && FeedIps(s'.out[|s.out|..]) == []
      && t'.flight == t.flight + N.Copies(net, d.dst, RelayIps(s'.out[|s.out|..]), d.pkt)
  {
    var (s1, sender) := Accept(cfg, s, from, pkt, now);
    AcceptMirrors(cfg, s, from, pkt, now, net, t, d);
    wanted := {};
    hide Accept, Mirrors, IndexOfName, ErrorsAreBad;
    if sender.Some? {
      assert SenderStays(s1.players, sender.value, now);
      hide ForwardAccepted, N.Forward;
      wanted := ForwardSimulates(cfg, s1, sender.value, pkt, now, net, Judged(t, d), d.dst, d.pkt);
      assert N.Process(net, t, d, wanted) ==
        N.Forward(net, Judged(t, d), d.dst, Judged(t, d).entries[(d.dst, d.pkt.call)], d.pkt, wanted);
    } else {
      assert s1.out[|s.out|..] == [];
    }
  }

  /** The packet is stopped by neither the blacklist nor the relay check. */
  predicate LetIn(cfg: Config, s: Server, from: Address, pkt: Packet)
  {
    !IsBlocked(s.blackList, from.ip) && (pkt.relay ==> from.ip in cfg.whitelist || from.ip in cfg.relays)
  }

  lemma LetInBoth(cfg: Config, s: Server, from: Address, pkt: Packet, now: int, net: N.Net, t: N.State, d: N.Datagram, wanted: set<Ip>)
    requires Mirrors(cfg, s, net, t, d.dst) && d == Arriving(from, pkt, d.dst, d.pkt.serial)
    requires pkt.fault.None? && pkt.kind != Ping && pkt.kind != Pong && LetIn(cfg, s, from, pkt)
    ensures HandlePacket(cfg, s, from, pkt, now) == AcceptAndForward(cfg, s.(out := s.out + Crossfeed(cfg)), from, pkt, now)
    ensures N.Receive(net, t, d, wanted) == N.Process(net, N.Fed(net, t, d), d, wanted)
  {
    hide Accept, ForwardAccepted, N.Process, N.Copies;
  }

  lemma StoppedBoth(cfg: Config, s: Server, from: Address, pkt: Packet, now: int, net: N.Net, t: N.State, d: N.Datagram)
    requires Mirrors(cfg, s, net, t, d.dst) && d == Arriving(from, pkt, d.dst, d.pkt.serial)
    requires pkt.fault.None? && !LetIn(cfg, s, from, pkt)
    ensures var s', t' := HandlePacket(cfg, s, from, pkt, now).0, N.Receive(net, t, d, {});
      && Mirrors(cfg, s', net, t', d.dst) && s'.out == s.out + Crossfeed(cfg) && t'.flight == N.Fed(net, t, d).flight
  {
    var t' := N.Receive(net, t, d, {});
    hide N.Process, N.Copies, EntryOf;
    if IsBlocked(s.blackList, from.ip) {
      MarkedBlocked(s.blackList, from.ip, now, t, t', d.dst);
    } else {
      NewlyBlocked(s.blackList, BlockEntry(from.ip, DEFAULT_BLOCK_TIME, now), t, t', d.dst);
    }
  }

  /** The server after the packet mirrors the network model, and has sent the same copies. */
  ghost predicate Simulated(cfg: Config, s: Server, s': Server, net: N.Net, t: N.State, t': N.State, d: N.Datagram)
  {
    && Mirrors(cfg, s', net, t', d.dst)
    && s.out <= s'.out && SameWire(net, t, t', d, s'.out[|s.out|..])
  }

  lemma StoppedSimulates(cfg: Config, s: Server, from: Address, pkt: Packet, now: int, net: N.Net, t: N.State, d: N.Datagram)
    requires Mirrors(cfg, s, net, t, d.dst) && d == Arriving(from, pkt, d.dst, d.pkt.serial)
    requires pkt.fault.None? && !LetIn(cfg, s, from, pkt)
    ensures Simulated(cfg, s, HandlePacket(cfg, s, from, pkt, now).0, net, t, N.Receive(net, t, d, {}), d)
  {
    FedOnly(cfg, net, t, d);
    StoppedBoth(cfg, s, from, pkt, now, net, t, d);
    hide HandlePacket, N.Receive, N.Fed, N.Copies, EntryOf, IsBlocked, LetIn, Crossfeed, SameWire, SameEntries, SameBlocked;
    assert HandlePacket(cfg, s, from, pkt, now).0.out[|s.out|..] == Crossfeed(cfg);
    SameFlight(net, t, N.Fed(net, t, d), N.Receive(net, t, d, {}), d, Crossfeed(cfg));
  }

  lemma PassedOn(cfg: Config, s: Server, s0: Server, s': Server, net: N.Net, t: N.State, t': N.State, d: N.Datagram)
    requires Mirrors(cfg, s', net, t', d.dst) && Configured(cfg, net, d.dst)
    requires s0.out == s.out + Crossfeed(cfg) && s0.out <= s'.out && FeedIps(s'.out[|s0.out|..]) == []
    requires t'.flight == N.Fed(net, t, d).flight + N.Copies(net, d.dst, RelayIps(s'.out[|s0.out|..]), d.pkt)
    ensures Simulated(cfg, s, s', net, t, t', d)
  {
    hide N.Fed, N.Copies, Crossfeed, SameWire, FeedIps, RelayIps;
    FedOnly(cfg, net, t, d);
    CrossfeedIps(cfg);
    var more := s'.out[|s0.out|..];
    assert s'.out[|s.out|..] == Crossfeed(cfg) + more;
    WireOn(net, t, N.Fed(net, t, d), t', d, Crossfeed(cfg), more);
  }

  lemma LetInSimulates(cfg: Config, s: Server, from: Address, pkt: Packet, now: int, net: N.Net, t: N.State, d: N.Datagram)
      returns (wanted: set<Ip>)
    requires Mirrors(cfg, s, net, t, d.dst) && ErrorsAreBad(s.players) && d == Arriving(from, pkt, d.dst, d.pkt.serial)
    requires pkt.fault.None? && pkt.kind != Ping && pkt.kind != Pong && pkt.name != BAD_CLIENT && LetIn(cfg, s, from, pkt)
    requires HandlePacket(cfg, s, from, pkt, now).1 == Done
    ensures Simulated(cfg, s, HandlePacket(cfg, s, from, pkt, now).0, net, t, N.Receive(net, t, d, wanted), d)
  {
    var s0, t0 := s.(out := s.out + Crossfeed(cfg)), N.Fed(net, t, d);
    FedMirrors(cfg, s, s0, net, t, d);
    LetInBoth(cfg, s, from, pkt, now, net, t, d, {});
    hide HandlePacket, N.Receive, N.Process, N.Fed, N.Copies, LetIn, ErrorsAreBad, AcceptAndForward, SameEntries, SameBlocked,
      Simulated;
    wanted := AcceptSimulates(cfg, s0, from, pkt, now, net, t0, d);
    LetInBoth(cfg, s, from, pkt, now, net, t, d, wanted);
    PassedOn(cfg, s, s0, HandlePacket(cfg, s, from, pkt, now).0, net, t, N.Receive(net, t, d, wanted), d);
  }

  /** What the server does with a valid packet, unless it loses the sender, is what the
      network model has its server do: the entries, the blocked addresses, and the copies for
      relays and crossfeed targets are the same. */
  lemma HandlePacketSimulates(cfg: Config, s: Server, from: Address, pkt: Packet, now: int, net: N.Net, t: N.State, n: Ip, serial: nat)
      returns (wanted: set<Ip>)
    requires Mirrors(cfg, s, net, t, n) && ErrorsAreBad(s.players)
    requires pkt.fault.None? && pkt.kind != Ping && pkt.kind != Pong && pkt.name != BAD_CLIENT
    requires HandlePacket(cfg, s, from, pkt, now).1 == Done
    ensures var d := Arriving(from, pkt, n, serial);
      Simulated(cfg, s, HandlePacket(cfg, s, from, pkt, now).0, net, t, N.Receive(net, t, d, wanted), d)
  {
    hide HandlePacket, N.Receive, Mirrors, LetIn, ErrorsAreBad, Simulated;
    assert n in net.servers by { ConfiguredIn(cfg, s, net, t, n); }
    var d := Arriving(from, pkt, n, serial);
    wanted := {};
    if LetIn(cfg, s, from, pkt) {
      wanted := LetInSimulates(cfg, s, from, pkt, now, net, t, d);
    } else {
      StoppedSimulates(cfg, s, from, pkt, now, net, t, d);
    }
  }

  lemma ConfiguredIn(cfg: Config, s: Server, net: N.Net, t: N.State, n: Ip)
    requires Mirrors(cfg, s, net, t, n)
    ensures n in net.servers
  {
  }

  lemma WireOn(net: N.Net, t: N.State, t0: N.State, t': N.State, d: N.Datagram, feeds: seq<Output>, more: seq<Output>)
    requires SameWire(net, t, t0, d, feeds) && RelayIps(feeds) == [] && FeedIps(more) == []
    requires t'.flight == t0.flight + N.Copies(net, d.dst, RelayIps(more), d.pkt)
    ensures SameWire(net, t, t', d, feeds + more)
  {
    IpsAdd(feeds, more);
    assert [] + RelayIps(more) == RelayIps(more) && FeedIps(feeds) + [] == FeedIps(feeds);
    assert N.Copies(net, d.dst, [], d.pkt) == multiset{};
  }

  lemma SameFlight(net: N.Net, t: N.State, t0: N.State, t': N.State, d: N.Datagram, sent: seq<Output>)
    requires SameWire(net, t, t0, d, sent) && t'.flight == t0.flight
    ensures SameWire(net, t, t', d, sent)
  {
  }

  lemma FedMirrors(cfg: Config, s: Server, s0: Server, net: N.Net, t: N.State, d: N.Datagram)
    requires Mirrors(cfg, s, net, t, d.dst) && s0 == s.(out := s.out + Crossfeed(cfg))
    ensures Mirrors(cfg, s0, net, N.Fed(net, t, d), d.dst)
  {
  }
}
