/** Who is sent a packet, told by what the players reported. */
module Delivery {
  import opened RelayRules
  import opened Players
  import opened Registry
  import opened Forwarding
  import opened Histories
  import L = LazyRelay

  /** The packet introduces a callsign or comes from where a listed one was introduced. */
  ghost predicate Accepted(cfg: Config, s: Server, ev: Event)
  {
    Introduces(cfg, s, ev) || exists p :: p in s.players && Updates(cfg, s, ev, p)
  }

  /** A valid ping from a client or a known server. */
  predicate Pings(cfg: Config, s: Server, ev: Event)
  {
    && Arrives(s, ev) && ev.pkt.fault.None? && ev.pkt.kind == Ping
    && (ev.pkt.relay ==> ev.from.ip in cfg.whitelist || ev.from.ip in cfg.relays)
  }

  /** Whatever becomes of a packet, each crossfeed target gets it, once for each time it is
      listed, before anything else is sent; and a ping is answered to the address it is from,
      and to no other. */
  lemma CrossfedAndAnswered(cfg: Config, s: Server, ev: Event)
    requires ev.PacketArrives?
    ensures var s', n := React(cfg, s, ev).0, |cfg.crossfeeds|;
      && s.out <= s'.out && n <= |Sent(s, s')|
      && (forall i :: 0 <= i < n ==> Sent(s, s')[i] == ToCrossfeed(cfg.crossfeeds[i]))
      && (forall d :: d in Sent(s, s')[n..] ==> !d.ToCrossfeed?)
      && (forall a :: PongTo(a) in Sent(s, s') <==> Pings(cfg, s, ev) && a == ev.from)
  {
    hide React, Pings;
    var s', n := React(cfg, s, ev).0, |cfg.crossfeeds|;
    ThenSent(cfg, s, ev);
    var first, more := s.out + Crossfeed(cfg), s'.out[|s.out| + n..];
    assert s'.out == first + more;
    assert Sent(s, s') == Crossfeed(cfg) + more;
  }

  lemma ThenSent(cfg: Config, s: Server, ev: Event)
    requires ev.PacketArrives?
    ensures var s' := React(cfg, s, ev).0;
      && s.out + Crossfeed(cfg) <= s'.out
      && var more := s'.out[|s.out| + |cfg.crossfeeds|..];
         if Pings(cfg, s, ev) then more == [PongTo(ev.from)] else forall d :: d in more ==> d.ToClient? || d.ToRelay?
  {
    hide Accept, ForwardAccepted, React, Crossfeed;
    if Heard(cfg, s, ev) {
      HeardReacts(cfg, s, ev);
      var s0 := s.(out := s.out + Crossfeed(cfg));
      L.AcceptSendsNothing(cfg, s0, ev.from, ev.pkt, ev.now);
      var r := Accept(cfg, s0, ev.from, ev.pkt, ev.now);
      if r.1.Some? {
        ForwardSends(cfg, r.0, r.1.value, ev.pkt, ev.now);
      }
    } else {
      UnheardSent(cfg, s, ev);
    }
  }

  lemma UnheardSent(cfg: Config, s: Server, ev: Event)
    requires ev.PacketArrives? && !Heard(cfg, s, ev)
    ensures React(cfg, s, ev).0.out == s.out + Crossfeed(cfg) + if Pings(cfg, s, ev) then [PongTo(ev.from)] else []
  {
    hide Accept, ForwardAccepted, IsBlocked, MarkSeen, MarkBlocked, LastAtIp, Crossfeed;
    BlockedIs(s, ev);
  }

  lemma ForwardSends(cfg: Config, s: Server, sender: nat, pkt: Packet, now: int)
    requires sender < |s.players|
    ensures var s' := ForwardAccepted(cfg, s, sender, pkt, now).0;
      s.out <= s'.out && forall d :: d in s'.out[|s.out|..] ==> d.ToClient? || d.ToRelay?
  {
    hide RelaysFor, Visited, Deliveries, Overdue, FirstTimedOut;
    if SenderStays(s.players, sender, now) {
      VisitedKeepsPlace(cfg, s, sender, pkt, now);
      assert s.players[..|s.players|] == s.players;
      DeliveriesWanted(cfg, s.players[sender], pkt, s.players);
      var w := Walked(cfg, s, s.players[sender], pkt, now, |s.players|);
      var sent, relayed := Deliveries(cfg, s.players[sender], pkt, s.players), RelayOutputs(RelaysFor(cfg, w.players, w.players[sender]));
      assert ForwardAccepted(cfg, s, sender, pkt, now).0.out[|s.out|..] == sent + relayed;
    } else {
      DeliveriesWanted(cfg, s.players[sender], pkt, s.players[..FirstTimedOut(s.players, now) + 1]);
    }
  }

  /** The packet is known to be from the only entry of its callsign. */
  lemma SenderIffAccepted(cfg: Config, s: Server, s0: Server, ev: Event)
    requires Regular(cfg, s) && Heard(cfg, s, ev) && ev.pkt.name != BAD_CLIENT && s0 == s.(out := s0.out)
    ensures Accept(cfg, s0, ev.from, ev.pkt, ev.now).1.Some? <==> Accepted(cfg, s, ev)
  {
    var i := IndexOfName(s.players, ev.pkt.name);
    if i < |s.players| {
      forall p | p in s.players && Updates(cfg, s, ev, p)
        ensures p == s.players[i]
      {
        var k :| 0 <= k < |s.players| && s.players[k] == p;
        assert !s.players[i].hasErrors && !s.players[k].hasErrors by {
          assert s.players[i] in s.players && s.players[k] in s.players;
        }
      }
      assert s.players[i] in s.players;
    } else {
      forall p | p in s.players
        ensures p.name != ev.pkt.name
      {
      }
    }
  }

  /** The server when it has looked up the sender, and the sender's place in the list. */
  lemma Forwards(cfg: Config, s: Server, ev: Event) returns (s1: Server, sender: nat)
    requires Regular(cfg, s) && Heard(cfg, s, ev) && ev.pkt.name != BAD_CLIENT && Accepted(cfg, s, ev)
    requires React(cfg, s, ev).1 == Done
    ensures sender < |s1.players| && s1.players[sender].name == ev.pkt.name && SenderStays(s1.players, sender, ev.now)
    ensures React(cfg, s, ev) == ForwardAccepted(cfg, s1, sender, ev.pkt, ev.now)
    ensures Inv(cfg, s1) && s1.out == s.out + Crossfeed(cfg)
    ensures forall q :: q in s1.players && q.hasErrors ==> q.name == BAD_CLIENT
  {
    var s0 := s.(out := s.out + Crossfeed(cfg));
    SenderIffAccepted(cfg, s, s0, ev);
    HeardReacts(cfg, s, ev);
    SameForInv(cfg, s, s0);
    AcceptKeepsInv(cfg, s0, ev.from, ev.pkt, ev.now);
    L.AcceptSendsNothing(cfg, s0, ev.from, ev.pkt, ev.now);
    hide Accept, ForwardAccepted, React, Accepted, Heard, Inv;
    L.AcceptFinds(cfg, s0, ev.from, ev.pkt, ev.now);
    var r := Accept(cfg, s0, ev.from, ev.pkt, ev.now);
    s1, sender := r.0, r.1.value;
    DoneStays(cfg, s1, sender, ev.pkt, ev.now);
    forall q | q in s1.players && q.hasErrors
      ensures q.name == BAD_CLIENT
    {
      AcceptFollows(cfg, s, s0, ev, q);
      ErrorsFollow(cfg, s, ev, q);
    }
  }

  lemma HeardReacts(cfg: Config, s: Server, ev: Event)
    requires Heard(cfg, s, ev)
    ensures var (s1, sender) := Accept(cfg, s.(out := s.out + Crossfeed(cfg)), ev.from, ev.pkt, ev.now);
      React(cfg, s, ev) ==
        if sender.None? then (s1, Done) else ForwardAccepted(cfg, s1, sender.value, ev.pkt, ev.now)
  {
    BlockedIs(s, ev);
    hide Accept, ForwardAccepted, IsBlocked;
  }

  lemma DoneStays(cfg: Config, s1: Server, sender: nat, pkt: Packet, now: int)
    requires sender < |s1.players| && ForwardAccepted(cfg, s1, sender, pkt, now).1 == Done
    ensures SenderStays(s1.players, sender, now)
  {
    hide Walked;
  }

  lemma ErrorsFollow(cfg: Config, s: Server, ev: Event, q: Player)
    requires Regular(cfg, s) && Follows(cfg, s, ev, q) && Heard(cfg, s, ev) && q.hasErrors
    ensures q.name == BAD_CLIENT
  {
  }

  /** The datagrams sent for an event. */
  function Sent(s: Server, s': Server): seq<Output>
    requires s.out <= s'.out
  {
    s'.out[|s.out|..]
  }

  /** Nobody gets a packet that is not accepted, but the crossfeed targets. */
  lemma NotAccepted(cfg: Config, s: Server, ev: Event)
    requires Regular(cfg, s) && ev.PacketArrives? && ev.pkt.name != BAD_CLIENT && !Accepted(cfg, s, ev)
    ensures var s' := React(cfg, s, ev).0;
      s.out <= s'.out && forall d :: d in Sent(s, s') ==> d.ToCrossfeed? || d.PongTo?
  {
    var s0 := s.(out := s.out + Crossfeed(cfg));
    BlockedIs(s, ev);
    if Heard(cfg, s, ev) {
      SenderIffAccepted(cfg, s, s0, ev);
      L.AcceptSendsNothing(cfg, s0, ev.from, ev.pkt, ev.now);
    }
    hide Accept, ForwardAccepted, IsBlocked, Accepted, MarkSeen, LastAtIp;
  }

  /** The entry of the callsign. */
  lemma SenderIs(cfg: Config, s1: Server, sender: nat, ev: Event, f: Player)
    requires ev.PacketArrives? && sender < |s1.players| && s1.players[sender].name == ev.pkt.name && ev.pkt.name != BAD_CLIENT
    requires Inv(cfg, s1) && SenderStays(s1.players, sender, ev.now)
    requires forall q :: q in s1.players && q.hasErrors ==> q.name == BAD_CLIENT
    requires f in ForwardAccepted(cfg, s1, sender, ev.pkt, ev.now).0.players && f.name == ev.pkt.name
    ensures SameFacts(s1.players[sender], f)
  {
    hide ForwardAccepted, Visit;
    L.ForwardKeeps(cfg, s1, sender, ev.pkt, ev.now);
    var c :| c in s1.players && f == Visit(cfg, s1.players[sender], ev.pkt, ev.now, c);
    VisitKeepsFacts(cfg, s1.players[sender], ev.pkt, ev.now, c);
    var k :| 0 <= k < |s1.players| && s1.players[k] == c;
    assert s1.players[sender] in s1.players;
    assert k == sender;
  }

  /** What goes to clients is what the walk over the list sends. */
  lemma ClientsAreSent(cfg: Config, s: Server, ev: Event, s1: Server, sender: nat, d: Output)
    requires ev.PacketArrives? && sender < |s1.players| && SenderStays(s1.players, sender, ev.now)
    requires s1.out == s.out + Crossfeed(cfg) && d.ToClient?
    ensures var s' := ForwardAccepted(cfg, s1, sender, ev.pkt, ev.now).0;
      && s.out <= s'.out
      && (d in Sent(s, s') <==> d in Deliveries(cfg, s1.players[sender], ev.pkt, s1.players))
  {
    hide Deliveries, RelaysFor;
    OutputIs(cfg, s, ev, s1, sender);
    assert d !in Crossfeed(cfg);
  }

  /** An entry of the list is sent the packet if it is wanted there. */
  lemma SentIfWanted(cfg: Config, s1: Server, from: Player, pkt: Packet, c: Player)
    requires WellOrdered(s1.players, s1.maxId) && c in s1.players
    ensures ToClient(c.id, c.address) in Deliveries(cfg, from, pkt, s1.players) <==>
      && c.isLocal && !c.hasErrors && c.name != pkt.name && !("obs" <= pkt.name)
      && cfg.distance(from.pos, c.pos) < c.radarRange as real
  {
    hide Deliveries;
    DeliveriesExact(cfg, from, pkt, s1.players);
  }

  /** One packet that is accepted, by the entries as they are after it. */
  lemma FanOutAfter(cfg: Config, s: Server, ev: Event, f: Player, q: Player)
    requires Regular(cfg, s) && Accepted(cfg, s, ev) && Heard(cfg, s, ev) && ev.pkt.name != BAD_CLIENT
    requires React(cfg, s, ev).1 == Done
    requires f in React(cfg, s, ev).0.players && f.name == ev.pkt.name
    requires q in React(cfg, s, ev).0.players && !q.hasErrors
    ensures var s' := React(cfg, s, ev).0;
      && s.out <= s'.out
      && (ToClient(q.id, q.address) in Sent(s, s') <==>
            && q.isLocal && q.name != ev.pkt.name && !("obs" <= ev.pkt.name)
            && cfg.distance(f.pos, q.pos) < q.radarRange as real)
  {
    var s1, sender := Forwards(cfg, s, ev);
    InvOrder(cfg, s1);
    SenderIs(cfg, s1, sender, ev, f);
    L.ForwardKeeps(cfg, s1, sender, ev.pkt, ev.now);
    hide React, ForwardAccepted, Visit, Deliveries, Accepted, Heard, Regular, Inv, WellOrdered, SenderStays, Sent;
    var c :| c in s1.players && q == Visit(cfg, s1.players[sender], ev.pkt, ev.now, c);
    VisitKeepsFacts(cfg, s1.players[sender], ev.pkt, ev.now, c);
    ClientsAreSent(cfg, s, ev, s1, sender, ToClient(q.id, q.address));
    SentIfWanted(cfg, s1, s1.players[sender], ev.pkt, c);
  }

  lemma InvOrder(cfg: Config, s: Server)
    requires Inv(cfg, s)
    ensures WellOrdered(s.players, s.maxId)
  {
  }

  /** In every run that loses no sender, a packet goes to exactly the local error-free players
      of other callsigns who, by the last reports of both and the last range it asked for, are
      within range; and an observer's packet, or one that is not accepted, goes to none. */
  lemma RunFanOut(cfg: Config, anyID: nat, events: seq<Event>, ev: Event, f: Player, q: Player)
    requires L.Callsigns(events + [ev]) && Exec(cfg, anyID, events + [ev]).1 == Done && ev.PacketArrives?
    requires f in Exec(cfg, anyID, events + [ev]).0.players && f.name == ev.pkt.name
    requires q in Exec(cfg, anyID, events + [ev]).0.players && !q.hasErrors
    ensures var s, s', all := Exec(cfg, anyID, events).0, Exec(cfg, anyID, events + [ev]).0, events + [ev];
      && s.out <= s'.out
      && (ToClient(q.id, q.address) in Sent(s, s') <==>
            && Accepted(cfg, s, ev)
            && q.isLocal && q.name != ev.pkt.name && !("obs" <= ev.pkt.name)
            && cfg.distance(LastPosition(cfg, anyID, all, f.id), LastPosition(cfg, anyID, all, q.id))
               < LastRange(cfg, anyID, all, q.id) as real)
  {
    var all := events + [ev];
    assert all[..|events|] == events && all[|events|] == ev;
    L.ExecSnoc(cfg, anyID, all);
    assert L.Callsigns(events) by {
      forall i | 0 <= i < |events| && events[i].PacketArrives?
        ensures events[i].pkt.name != BAD_CLIENT
      {
        assert all[i] == events[i];
      }
    }
    assert ev.pkt.name != BAD_CLIENT;
    RunIsRegular(cfg, anyID, events);
    RunIsRegular(cfg, anyID, all);
    EntriesAreTold(cfg, anyID, all);
    hide Exec, React, LastPosition, LastRange, JoinTime, LastHeard, Accepted;
    assert IsTold(cfg, anyID, all, f) && IsTold(cfg, anyID, all, q);
    var s := Exec(cfg, anyID, events).0;
    assert !f.hasErrors;
    if Accepted(cfg, s, ev) {
      AcceptedIsHeard(cfg, s, ev);
      FanOutAfter(cfg, s, ev, f, q);
    } else {
      NotAccepted(cfg, s, ev);
    }
  }

  lemma AcceptedIsHeard(cfg: Config, s: Server, ev: Event)
    requires Accepted(cfg, s, ev)
    ensures Heard(cfg, s, ev)
  {
  }

  /** Nobody else is sent anything. */
  lemma OnlyListed(cfg: Config, s: Server, ev: Event, d: Output)
    requires Regular(cfg, s) && ev.PacketArrives? && ev.pkt.name != BAD_CLIENT && React(cfg, s, ev).1 == Done
    requires s.out <= React(cfg, s, ev).0.out && d in Sent(s, React(cfg, s, ev).0) && d.ToClient?
    ensures exists q :: q in React(cfg, s, ev).0.players && !q.hasErrors && d == ToClient(q.id, q.address)
  {
    if Accepted(cfg, s, ev) {
      AcceptedIsHeard(cfg, s, ev);
      OnlyReceivers(cfg, s, ev, d);
    } else {
      NotAccepted(cfg, s, ev);
    }
  }

  lemma OnlyReceivers(cfg: Config, s: Server, ev: Event, d: Output)
    requires Regular(cfg, s) && Accepted(cfg, s, ev) && Heard(cfg, s, ev) && ev.pkt.name != BAD_CLIENT
    requires React(cfg, s, ev).1 == Done
    requires s.out <= React(cfg, s, ev).0.out && d in Sent(s, React(cfg, s, ev).0) && d.ToClient?
    ensures exists q :: q in React(cfg, s, ev).0.players && !q.hasErrors && d == ToClient(q.id, q.address)
  {
    var s1, sender := Forwards(cfg, s, ev);
    InvOrder(cfg, s1);
    hide React, ForwardAccepted, Visit, Deliveries, Accepted, Heard, Regular, Inv, WellOrdered, SenderStays, Sent, Receives;
    var from := s1.players[sender];
    ClientsAreSent(cfg, s, ev, s1, sender, d);
    DeliveriesWanted(cfg, from, ev.pkt, s1.players);
    var c :| c in s1.players && Receives(cfg, from, ev.pkt, c) && d == ToClient(c.id, c.address);
    SentIfWanted(cfg, s1, from, ev.pkt, c);
    WalkedOn(cfg, s1, sender, ev.pkt, ev.now, c);
  }

  lemma WalkedOn(cfg: Config, s1: Server, sender: nat, pkt: Packet, now: int, c: Player)
    requires sender < |s1.players| && SenderStays(s1.players, sender, now) && c in s1.players && !c.hasErrors
    ensures exists q :: q in ForwardAccepted(cfg, s1, sender, pkt, now).0.players
                        && !q.hasErrors && q.id == c.id && q.address == c.address
  {
    var from, list := s1.players[sender], s1.players;
    VisitedKeepsPlace(cfg, s1, sender, pkt, now);
    VisitedExact(cfg, from, pkt, now, list);
    hide Visited, Deliveries, Overdue, RelaysFor, Visit;
    assert list[..|list|] == list;
    VisitKeepsFacts(cfg, from, pkt, now, c);
    assert Visit(cfg, from, pkt, now, c) in ForwardAccepted(cfg, s1, sender, pkt, now).0.players;
  }

  // ---------------------------------------------------------------------
  // Relays

  /** The first player listed at the relay's address sees as far as the sender. */
  predicate SeenThere(cfg: Config, players: seq<Player>, relay: Ip, f: Player)
  {
    exists i :: && 0 <= i < |players| && players[i].address.ip == relay
                && (forall j :: 0 <= j < i ==> players[j].address.ip != relay)
                && cfg.distance(f.pos, players[i].pos) < players[i].radarRange as real
  }

  lemma InRangeIsSeen(cfg: Config, players: seq<Player>, relay: Ip, f: Player)
    ensures IsInRange(cfg, players, relay, f) <==> SeenThere(cfg, players, relay, f)
  {
    var i := IndexOfIp(players, relay);
    if SeenThere(cfg, players, relay, f) {
      var k :| && 0 <= k < |players| && players[k].address.ip == relay
               && (forall j :: 0 <= j < k ==> players[j].address.ip != relay)
               && cfg.distance(f.pos, players[k].pos) < players[k].radarRange as real;
      assert k == i;
    }
  }

  /** An accepted packet goes to exactly the configured relays, other than the one it came
      from, where somebody sees as far as the sender, or to all of them when it is due; and
      none at all get a remote player's packet unless the server is a hub. */
  lemma RelaysAfter(cfg: Config, s: Server, ev: Event, f: Player, relay: Ip)
    requires Regular(cfg, s) && Accepted(cfg, s, ev) && Heard(cfg, s, ev) && ev.pkt.name != BAD_CLIENT
    requires React(cfg, s, ev).1 == Done
    requires f in React(cfg, s, ev).0.players && f.name == ev.pkt.name
    ensures var s' := React(cfg, s, ev).0;
      && s.out <= s'.out
      && (ToRelay(relay) in Sent(s, s') <==>
            && relay in cfg.relays && relay != f.address.ip && (f.isLocal || cfg.isHub)
            && (f.doUpdate || SeenThere(cfg, s'.players, relay, f)))
  {
    hide React, ForwardAccepted, Accepted, Regular, Inv, SenderStays, Sent, SeenThere, IsInRange, RelaysFor, Unique,
      RelayOutputs, CheckDue;
    var s1, sender := Forwards(cfg, s, ev);
    var s' := React(cfg, s, ev).0;
    SenderIs(cfg, s1, sender, ev, f);
    assert s1.players[sender] in s1.players;
    L.ForwardedSender(cfg, s1, sender, ev.pkt, ev.now);
    HandlePacketKeepsOrder(cfg, s, ev);
    CheckDueKeeps(s1.players[sender], ev.now);
    OneOfName(cfg, s', sender, f);
    L.RelaysServed(cfg, s1, sender, ev.pkt, ev.now, relay);
    RelaysAreSent(cfg, s, ev, s1, sender, ToRelay(relay));
    InRangeIsSeen(cfg, s'.players, relay, f);
  }

  lemma CheckDueKeeps(p: Player, now: int)
    ensures SameFacts(p, CheckDue(p, now))
  {
  }

  lemma HandlePacketKeepsOrder(cfg: Config, s: Server, ev: Event)
    requires Regular(cfg, s) && ev.PacketArrives?
    ensures Unique(React(cfg, s, ev).0.players)
  {
    HandlePacketKeepsInv(cfg, s, ev.from, ev.pkt, ev.now);
    hide HandlePacket;
  }

  lemma OneOfName(cfg: Config, s: Server, i: nat, f: Player)
    requires Unique(s.players) && i < |s.players| && f in s.players && s.players[i].name == f.name
    requires !s.players[i].hasErrors && !f.hasErrors
    ensures s.players[i] == f
  {
    var k :| 0 <= k < |s.players| && s.players[k] == f;
  }

  lemma RelaysAreSent(cfg: Config, s: Server, ev: Event, s1: Server, sender: nat, d: Output)
    requires ev.PacketArrives? && sender < |s1.players| && SenderStays(s1.players, sender, ev.now)
    requires s1.out == s.out + Crossfeed(cfg) && d.ToRelay?
    ensures var s' := ForwardAccepted(cfg, s1, sender, ev.pkt, ev.now).0;
      && s.out <= s'.out && sender < |s'.players|
      && (d in Sent(s, s') <==> d in RelayOutputs(RelaysFor(cfg, s'.players, s'.players[sender])))
  {
    hide Deliveries, RelaysFor, RelayOutputs;
    ToClientsOnly(cfg, s1.players[sender], ev.pkt, s1.players, d);
    OutputIs(cfg, s, ev, s1, sender);
    assert d !in Crossfeed(cfg);
  }

  /** All that is sent for an accepted packet: crossfeed copies, then clients, then relays. */
  lemma OutputIs(cfg: Config, s: Server, ev: Event, s1: Server, sender: nat)
    requires ev.PacketArrives? && sender < |s1.players| && SenderStays(s1.players, sender, ev.now)
    requires s1.out == s.out + Crossfeed(cfg)
    ensures var s' := ForwardAccepted(cfg, s1, sender, ev.pkt, ev.now).0;
      && s.out <= s'.out && sender < |s'.players|
      && Sent(s, s') == Crossfeed(cfg) + Deliveries(cfg, s1.players[sender], ev.pkt, s1.players)
                        + RelayOutputs(RelaysFor(cfg, s'.players, s'.players[sender]))
  {
    VisitedKeepsPlace(cfg, s1, sender, ev.pkt, ev.now);
    hide Visited, Deliveries, Overdue, RelaysFor, RelayOutputs, Crossfeed;
    var s', sent := ForwardAccepted(cfg, s1, sender, ev.pkt, ev.now).0, Deliveries(cfg, s1.players[sender], ev.pkt, s1.players);
    assert s1.players[..|s1.players|] == s1.players;
    var relayed := RelayOutputs(RelaysFor(cfg, s'.players, s'.players[sender]));
    assert s'.out == s.out + (Crossfeed(cfg) + sent + relayed);
  }

  lemma ToClientsOnly(cfg: Config, from: Player, pkt: Packet, list: seq<Player>, d: Output)
    requires d.ToRelay?
    ensures d !in Deliveries(cfg, from, pkt, list)
  {
    hide Deliveries, Receives;
    DeliveriesWanted(cfg, from, pkt, list);
  }
}
