/** What the entries of the player list hold, told by the packets that arrived: when a player
    was last heard, where it is, and how far it wants to see. */
module Histories {
  import opened ExpirySweep
  import opened Players
  import opened Registry
  import L = LazyRelay

  // ---------------------------------------------------------------------
  // Packets

  /** A packet from an address that is not blocked. */
  predicate Arrives(s: Server, ev: Event)
  {
    ev.PacketArrives? && forall i :: 0 <= i < |s.blackList| ==> s.blackList[i].ip != ev.from.ip
  }

  /** A valid packet, from a client or a known server, other than ping and pong. */
  predicate Heard(cfg: Config, s: Server, ev: Event)
  {
    && Arrives(s, ev) && ev.pkt.fault.None?
    && (ev.pkt.relay ==> ev.from.ip in cfg.whitelist || ev.from.ip in cfg.relays)
    && (ev.pkt.kind == PosData || ev.pkt.kind == OtherKind)
  }

  predicate Unknown(players: seq<Player>, name: string)
  {
    forall i :: 0 <= i < |players| ==> players[i].name != name
  }

  /** The first packet of a callsign that is listed. */
  predicate Introduces(cfg: Config, s: Server, ev: Event)
  {
    Heard(cfg, s, ev) && ev.pkt.kind == PosData && Unknown(s.players, ev.pkt.name)
  }

  /** An invalid packet from an address where nobody is listed. */
  predicate BadArrives(s: Server, ev: Event)
  {
    && Arrives(s, ev) && ev.pkt.fault.Some?
    && forall i :: 0 <= i < |s.players| ==> s.players[i].address.ip != ev.from.ip
  }

  /** Whatever is heard of a callsign, and any invalid packet from a listed address. */
  predicate Sees(cfg: Config, s: Server, ev: Event, p: Player)
  {
    || (Arrives(s, ev) && ev.pkt.fault.Some? && ev.from.ip == p.address.ip)
    || (Heard(cfg, s, ev) && ev.pkt.name == p.name)
  }

  predicate Settled(pkt: Packet)
  {
    pkt.pos.0 != 0.0 && pkt.pos.1 != 0.0 && pkt.pos.2 != 0.0
  }

  /** A further packet from the address that introduced the callsign, and no position report
      with a coordinate of zero. */
  predicate Updates(cfg: Config, s: Server, ev: Event, p: Player)
  {
    && Heard(cfg, s, ev) && ev.pkt.name == p.name && ev.from.ip == p.address.ip
    && (ev.pkt.kind == PosData ==> Settled(ev.pkt))
  }

  predicate Reports(cfg: Config, s: Server, ev: Event, p: Player)
  {
    Updates(cfg, s, ev, p) && ev.pkt.kind == PosData
  }

  /** The header holds a radar range that the server allows. */
  predicate HasRange(cfg: Config, pkt: Packet)
  {
    pkt.radarLow == 0 && 0 < pkt.radarHigh <= cfg.maxRadarRange
  }

  // ---------------------------------------------------------------------
  // One event

  /** What the entry `p` becomes. */
  predicate Becomes(cfg: Config, s: Server, ev: Event, p: Player, q: Player)
  {
    && SameIdentity(p, q) && q.timeout == p.timeout && q.joinTime == p.joinTime
    && q.lastSeen == (if Sees(cfg, s, ev, p) then ev.now else p.lastSeen)
    && (!p.hasErrors ==>
          && q.pos == (if Reports(cfg, s, ev, p) then ev.pkt.pos else p.pos)
          && q.radarRange == (if Updates(cfg, s, ev, p) && HasRange(cfg, ev.pkt) then ev.pkt.radarHigh else p.radarRange))
  }

  /** What a new entry is. */
  predicate IsListed(cfg: Config, s: Server, ev: Event, q: Player)
  {
    && (Introduces(cfg, s, ev) || BadArrives(s, ev))
    && q.id == s.maxId + 1 && q.timeout == cfg.playerExpires && q.joinTime == ev.now && q.lastSeen == ev.now
    && q.address == ev.from && q.hasErrors == ev.pkt.fault.Some?
    && q.isLocal == (q.hasErrors || !ev.pkt.relay)
    && (!q.hasErrors ==>
          && q.name == ev.pkt.name && q.pos == ev.pkt.pos
          && q.radarRange == if HasRange(cfg, ev.pkt) then ev.pkt.radarHigh else cfg.outOfReach)
  }

  ghost predicate Follows(cfg: Config, s: Server, ev: Event, q: Player)
  {
    IsListed(cfg, s, ev, q) || exists p :: p in s.players && Becomes(cfg, s, ev, p, q)
  }

  /** Names and addresses as they are in every run. */
  ghost predicate Regular(cfg: Config, s: Server)
  {
    Inv(cfg, s) && forall p :: p in s.players && p.hasErrors ==> p.name == BAD_CLIENT
  }

  /** Fields that forwarding leaves alone. */
  predicate SameFacts(p: Player, q: Player)
  {
    && SameIdentity(p, q) && q.timeout == p.timeout && q.joinTime == p.joinTime
    && q.lastSeen == p.lastSeen && q.pos == p.pos && q.radarRange == p.radarRange
  }

  lemma VisitKeepsFacts(cfg: Config, from: Player, pkt: Packet, now: int, c: Player)
    ensures SameFacts(c, Visit(cfg, from, pkt, now, c))
  {
  }

  lemma SameFactsFollow(cfg: Config, s: Server, ev: Event, q: Player, r: Player)
    requires Follows(cfg, s, ev, q) && SameFacts(q, r)
    ensures Follows(cfg, s, ev, r)
  {
    hide Sees, Reports, Updates, HasRange, Introduces, BadArrives;
    if !IsListed(cfg, s, ev, q) {
      var p :| p in s.players && Becomes(cfg, s, ev, p, q);
      assert Becomes(cfg, s, ev, p, r);
    }
  }

  lemma BlockedIs(s: Server, ev: Event)
    requires ev.PacketArrives?
    ensures Arrives(s, ev) <==> !IsBlocked(s.blackList, ev.from.ip)
  {
  }

  /** The server is as before, apart from outputs and the blacklist. */
  lemma NothingChanges(cfg: Config, s: Server, ev: Event, q: Player)
    requires q in s.players && !Sees(cfg, s, ev, q)
    ensures Follows(cfg, s, ev, q)
  {
    assert Becomes(cfg, s, ev, q, q);
  }

  /** An entry that differs from the others in being the one of the sender. */
  lemma OnlySender(cfg: Config, s: Server, ev: Event, i: nat, k: nat)
    requires Regular(cfg, s) && ev.PacketArrives? && ev.pkt.name != BAD_CLIENT && ev.pkt.fault.None?
    requires i < |s.players| && k < |s.players| && k != i && s.players[i].name == ev.pkt.name
    ensures !Sees(cfg, s, ev, s.players[k])
  {
    assert s.players[i] in s.players && s.players[k] in s.players;
  }

  lemma FoundFollows(cfg: Config, s: Server, ev: Event, i: nat, q: Player)
    requires Regular(cfg, s) && Heard(cfg, s, ev) && ev.pkt.name != BAD_CLIENT
    requires i < |s.players| && s.players[i].name == ev.pkt.name
    requires var found := s.(players := s.players[i := s.players[i].(lastSeen := ev.now)]);
      q in (if s.players[i].address.ip != ev.from.ip then found else UpdateSender(cfg, found, i, ev.pkt, ev.now).0).players
    ensures Follows(cfg, s, ev, q)
  {
    var found := s.(players := s.players[i := s.players[i].(lastSeen := ev.now)]);
    var after := if s.players[i].address.ip != ev.from.ip then found else UpdateSender(cfg, found, i, ev.pkt, ev.now).0;
    L.UpdateKeeps(cfg, found, i, ev.pkt, ev.now);
    var k :| 0 <= k < |after.players| && after.players[k] == q;
    if k == i {
      assert s.players[i] in s.players;
      SenderBecomes(cfg, s, ev, i, q);
    } else {
      OnlySender(cfg, s, ev, i, k);
      assert q == s.players[k];
      NothingChanges(cfg, s, ev, q);
    }
  }

  lemma SenderBecomes(cfg: Config, s: Server, ev: Event, i: nat, q: Player)
    requires Heard(cfg, s, ev) && i < |s.players| && s.players[i].name == ev.pkt.name
    requires var found := s.(players := s.players[i := s.players[i].(lastSeen := ev.now)]);
      q == (if s.players[i].address.ip != ev.from.ip then found else UpdateSender(cfg, found, i, ev.pkt, ev.now).0).players[i]
    ensures Becomes(cfg, s, ev, s.players[i], q)
  {
  }

  lemma AcceptFollows(cfg: Config, s: Server, s0: Server, ev: Event, q: Player)
    requires Regular(cfg, s) && Heard(cfg, s, ev) && ev.pkt.name != BAD_CLIENT
    requires s0 == s.(out := s0.out) && q in Accept(cfg, s0, ev.from, ev.pkt, ev.now).0.players
    ensures Follows(cfg, s, ev, q)
  {
    var i := IndexOfName(s.players, ev.pkt.name);
    if i < |s.players| {
      FoundIgnoresOutput(cfg, s, s0, ev, i);
      FoundFollows(cfg, s, ev, i, q);
    } else if ev.pkt.kind == PosData {
      ListedFollows(cfg, s, s0, ev, q);
    } else {
      NothingChanges(cfg, s, ev, q);
    }
  }

  lemma FoundIgnoresOutput(cfg: Config, s: Server, s0: Server, ev: Event, i: nat)
    requires ev.PacketArrives? && s0 == s.(out := s0.out) && i < |s.players| && i == IndexOfName(s.players, ev.pkt.name)
    ensures var found := s.(players := s.players[i := s.players[i].(lastSeen := ev.now)]);
      Accept(cfg, s0, ev.from, ev.pkt, ev.now).0.players ==
        (if s.players[i].address.ip != ev.from.ip then found else UpdateSender(cfg, found, i, ev.pkt, ev.now).0).players
  {
  }

  lemma ListedFollows(cfg: Config, s: Server, s0: Server, ev: Event, q: Player)
    requires Heard(cfg, s, ev) && ev.pkt.kind == PosData && Unknown(s.players, ev.pkt.name)
    requires s0 == s.(out := s0.out) && q in AddClient(cfg, s0, ev.from, ev.pkt, ev.now).players
    ensures Follows(cfg, s, ev, q)
  {
    var p := NewPlayer(cfg, ev.from, ev.pkt, ev.now).(id := s.maxId + 1);
    assert AddClient(cfg, s0, ev.from, ev.pkt, ev.now).players == s.players + [p];
    if q in s.players {
      NothingChanges(cfg, s, ev, q);
    } else {
      assert IsListed(cfg, s, ev, q);
    }
  }

  lemma BadFollows(cfg: Config, s: Server, s0: Server, ev: Event, q: Player)
    requires Arrives(s, ev) && ev.pkt.fault.Some? && s0 == s.(out := s0.out)
    requires q in AddBadClient(cfg, s0, ev.from, ev.pkt.fault.value, true, ev.pkt.bytes, ev.now).players
    ensures Follows(cfg, s, ev, q)
  {
    var after := AddBadClient(cfg, s0, ev.from, ev.pkt.fault.value, true, ev.pkt.bytes, ev.now);
    var i := LastAtIp(s.players, ev.from.ip);
    var k :| 0 <= k < |after.players| && after.players[k] == q;
    if k < |s.players| {
      assert s.players[k] in s.players;
      assert Becomes(cfg, s, ev, s.players[k], q);
    } else {
      assert i == |s.players|;
      assert IsListed(cfg, s, ev, q);
    }
  }

  /** Every entry after an event is one from before, as the event makes it, or a new one. */
  lemma EventFollows(cfg: Config, s: Server, ev: Event, q: Player)
    requires Regular(cfg, s) && React(cfg, s, ev).1 == Done && (ev.PacketArrives? ==> ev.pkt.name != BAD_CLIENT)
    requires q in React(cfg, s, ev).0.players
    ensures Follows(cfg, s, ev, q)
  {
    match ev
    case PacketArrives(from, pkt, now) => PacketFollows(cfg, s, ev, q);
    case SweepDue(now) =>
      SweepKeepsGood(s.players, PlayerExpired(now));
      NothingChanges(cfg, s, ev, q);
    case BlackListSweepDue(_) => NothingChanges(cfg, s, ev, q);
    case ReportDue => NothingChanges(cfg, s, ev, q);
  }

  lemma PacketFollows(cfg: Config, s: Server, ev: Event, q: Player)
    requires Regular(cfg, s) && ev.PacketArrives? && ev.pkt.name != BAD_CLIENT && React(cfg, s, ev).1 == Done
    requires q in React(cfg, s, ev).0.players
    ensures Follows(cfg, s, ev, q)
  {
    var s0 := s.(out := s.out + Crossfeed(cfg));
    BlockedIs(s, ev);
    hide Accept, ForwardAccepted, AddBadClient, Follows, IsBlocked, Regular;
    if ev.pkt.fault.Some? && Arrives(s, ev) {
      BadFollows(cfg, s, s0, ev, q);
    } else if Heard(cfg, s, ev) {
      HeardFollows(cfg, s, s0, ev, q);
    } else {
      NothingChanges(cfg, s, ev, q);
    }
  }

  lemma HeardFollows(cfg: Config, s: Server, s0: Server, ev: Event, q: Player)
    requires Regular(cfg, s) && Heard(cfg, s, ev) && ev.pkt.name != BAD_CLIENT && s0 == s.(out := s0.out)
    requires var (s1, sender) := Accept(cfg, s0, ev.from, ev.pkt, ev.now);
      if sender.None? then q in s1.players
      else ForwardAccepted(cfg, s1, sender.value, ev.pkt, ev.now).1 == Done
           && q in ForwardAccepted(cfg, s1, sender.value, ev.pkt, ev.now).0.players
    ensures Follows(cfg, s, ev, q)
  {
    var (s1, sender) := Accept(cfg, s0, ev.from, ev.pkt, ev.now);
    if sender.None? {
      AcceptFollows(cfg, s, s0, ev, q);
    } else {
      L.ForwardKeeps(cfg, s1, sender.value, ev.pkt, ev.now);
      var c :| c in s1.players && q == Visit(cfg, s1.players[sender.value], ev.pkt, ev.now, c);
      hide Accept, ForwardAccepted, Visit;
      AcceptFollows(cfg, s, s0, ev, c);
      VisitKeepsFacts(cfg, s1.players[sender.value], ev.pkt, ev.now, c);
      SameFactsFollow(cfg, s, ev, c, q);
    }
  }

  // ---------------------------------------------------------------------
  // Runs

  /** The next ID is given out. */
  predicate Lists(cfg: Config, s: Server, ev: Event, id: nat)
  {
    id == s.maxId + 1 && (Introduces(cfg, s, ev) || BadArrives(s, ev))
  }

  ghost predicate SeesId(cfg: Config, s: Server, ev: Event, id: nat)
  {
    Lists(cfg, s, ev, id) || exists p :: p in s.players && p.id == id && Sees(cfg, s, ev, p)
  }

  ghost predicate ReportsId(cfg: Config, s: Server, ev: Event, id: nat)
  {
    Lists(cfg, s, ev, id) || exists p :: p in s.players && p.id == id && Reports(cfg, s, ev, p)
  }

  ghost predicate RangesId(cfg: Config, s: Server, ev: Event, id: nat)
  {
    Lists(cfg, s, ev, id)
    || (ev.PacketArrives? && HasRange(cfg, ev.pkt) && exists p :: p in s.players && p.id == id && Updates(cfg, s, ev, p))
  }

  /** When a player was listed, when it was last heard, where it last was, and how far it last
      wanted to see, by the packets of a run. */
  ghost function JoinTime(cfg: Config, anyID: nat, events: seq<Event>, id: nat): int
  {
    if events == [] then 0
    else
      var front, ev := events[..|events| - 1], events[|events| - 1];
      if Lists(cfg, Exec(cfg, anyID, front).0, ev, id) then ev.now else JoinTime(cfg, anyID, front, id)
  }

  ghost function LastHeard(cfg: Config, anyID: nat, events: seq<Event>, id: nat): int
  {
    if events == [] then 0
    else
      var front, ev := events[..|events| - 1], events[|events| - 1];
      if SeesId(cfg, Exec(cfg, anyID, front).0, ev, id) then ev.now else LastHeard(cfg, anyID, front, id)
  }

  ghost function LastPosition(cfg: Config, anyID: nat, events: seq<Event>, id: nat): Pos
  {
    if events == [] then (0.0, 0.0, 0.0)
    else
      var front, ev := events[..|events| - 1], events[|events| - 1];
      if ReportsId(cfg, Exec(cfg, anyID, front).0, ev, id) then ev.pkt.pos else LastPosition(cfg, anyID, front, id)
  }

  ghost function LastRange(cfg: Config, anyID: nat, events: seq<Event>, id: nat): int
  {
    if events == [] then cfg.outOfReach
    else
      var front, ev := events[..|events| - 1], events[|events| - 1];
      if RangesId(cfg, Exec(cfg, anyID, front).0, ev, id) then
        if HasRange(cfg, ev.pkt) then ev.pkt.radarHigh else cfg.outOfReach
      else LastRange(cfg, anyID, front, id)
  }

  /** The entries hold what the packets told. */
  ghost predicate IsTold(cfg: Config, anyID: nat, events: seq<Event>, p: Player)
  {
    && p.timeout == cfg.playerExpires
    && p.joinTime == JoinTime(cfg, anyID, events, p.id)
    && p.lastSeen == LastHeard(cfg, anyID, events, p.id)
    && (!p.hasErrors ==>
          p.pos == LastPosition(cfg, anyID, events, p.id) && p.radarRange == LastRange(cfg, anyID, events, p.id))
  }

  lemma JoinTimeSnoc(cfg: Config, anyID: nat, events: seq<Event>, ev: Event, id: nat)
    ensures JoinTime(cfg, anyID, events + [ev], id) ==
      if Lists(cfg, Exec(cfg, anyID, events).0, ev, id) then ev.now else JoinTime(cfg, anyID, events, id)
  {
    assert (events + [ev])[..|events|] == events;
  }

  lemma LastHeardSnoc(cfg: Config, anyID: nat, events: seq<Event>, ev: Event, id: nat)
    ensures LastHeard(cfg, anyID, events + [ev], id) ==
      if SeesId(cfg, Exec(cfg, anyID, events).0, ev, id) then ev.now else LastHeard(cfg, anyID, events, id)
  {
    assert (events + [ev])[..|events|] == events;
  }

  lemma LastPositionSnoc(cfg: Config, anyID: nat, events: seq<Event>, ev: Event, id: nat)
    ensures LastPosition(cfg, anyID, events + [ev], id) ==
      if ReportsId(cfg, Exec(cfg, anyID, events).0, ev, id) then ev.pkt.pos else LastPosition(cfg, anyID, events, id)
  {
    assert (events + [ev])[..|events|] == events;
  }

  lemma LastRangeSnoc(cfg: Config, anyID: nat, events: seq<Event>, ev: Event, id: nat)
    ensures LastRange(cfg, anyID, events + [ev], id) ==
      if RangesId(cfg, Exec(cfg, anyID, events).0, ev, id) then
        if HasRange(cfg, ev.pkt) then ev.pkt.radarHigh else cfg.outOfReach
      else LastRange(cfg, anyID, events, id)
  {
    assert (events + [ev])[..|events|] == events;
  }

  /** Only the entry of that ID decides. */
  lemma OneOfId(cfg: Config, s: Server, ev: Event, p: Player)
    requires WellOrdered(s.players, s.maxId) && p in s.players
    ensures !Lists(cfg, s, ev, p.id)
    ensures SeesId(cfg, s, ev, p.id) <==> Sees(cfg, s, ev, p)
    ensures ReportsId(cfg, s, ev, p.id) <==> Reports(cfg, s, ev, p)
    ensures RangesId(cfg, s, ev, p.id) <==> Updates(cfg, s, ev, p) && HasRange(cfg, ev.pkt)
  {
    hide Sees, Reports, HasRange, Introduces, BadArrives;
    forall r | r in s.players && r.id == p.id
      ensures r == p
    {
    }
  }

  lemma StepTold(cfg: Config, anyID: nat, events: seq<Event>, ev: Event, q: Player)
    requires var s := Exec(cfg, anyID, events).0;
      && WellOrdered(s.players, s.maxId) && Follows(cfg, s, ev, q)
      && forall p :: p in s.players ==> IsTold(cfg, anyID, events, p)
    ensures IsTold(cfg, anyID, events + [ev], q)
  {
    var s := Exec(cfg, anyID, events).0;
    JoinTimeSnoc(cfg, anyID, events, ev, q.id);
    LastHeardSnoc(cfg, anyID, events, ev, q.id);
    LastPositionSnoc(cfg, anyID, events, ev, q.id);
    LastRangeSnoc(cfg, anyID, events, ev, q.id);
    hide Exec, JoinTime, LastHeard, LastPosition, LastRange, Sees, Reports, Updates, HasRange, Introduces, BadArrives,
      SeesId, ReportsId, RangesId;
    if IsListed(cfg, s, ev, q) {
      ListsId(cfg, s, ev, q);
    } else {
      var p :| p in s.players && Becomes(cfg, s, ev, p, q);
      assert IsTold(cfg, anyID, events, p);
      OneOfId(cfg, s, ev, p);
    }
  }

  lemma ListsId(cfg: Config, s: Server, ev: Event, q: Player)
    requires IsListed(cfg, s, ev, q)
    ensures Lists(cfg, s, ev, q.id) && SeesId(cfg, s, ev, q.id) && ReportsId(cfg, s, ev, q.id) && RangesId(cfg, s, ev, q.id)
  {
  }

  lemma RunIsRegular(cfg: Config, anyID: nat, events: seq<Event>)
    requires L.Callsigns(events) && Exec(cfg, anyID, events).1 == Done
    ensures Regular(cfg, Exec(cfg, anyID, events).0)
  {
    hide Exec;
    RunKeepsInv(cfg, anyID, events);
    L.ForcedAreUpdates(cfg, anyID, events, 0);
  }

  /** In every run that loses no sender, each listed player's position is that of the last
      settled report from the address that introduced it, or of the introducing packet; its
      range is that of the last header with an allowed one; and the times are those of the
      packets that listed it and that it was last heard by. */
  lemma {:induction false} EntriesAreTold(cfg: Config, anyID: nat, events: seq<Event>)
    requires L.Callsigns(events) && Exec(cfg, anyID, events).1 == Done
    ensures forall p :: p in Exec(cfg, anyID, events).0.players ==> IsTold(cfg, anyID, events, p)
  {
    hide Exec, React, IsTold, Follows, Regular, WellOrdered, Unique;
    if events == [] {
      StartIsEmpty(cfg, anyID);
    } else {
      var front, ev := events[..|events| - 1], events[|events| - 1];
      L.ExecSnoc(cfg, anyID, events);
      assert L.Callsigns(front);
      EntriesAreTold(cfg, anyID, front);
      RunIsRegular(cfg, anyID, front);
      RegularOrder(cfg, Exec(cfg, anyID, front).0);
      forall q | q in Exec(cfg, anyID, events).0.players
        ensures IsTold(cfg, anyID, events, q)
      {
        EventFollows(cfg, Exec(cfg, anyID, front).0, ev, q);
        StepTold(cfg, anyID, front, ev, q);
        assert front + [ev] == events;
      }
    }
  }

  lemma StartIsEmpty(cfg: Config, anyID: nat)
    ensures Exec(cfg, anyID, []).0.players == [] && Exec(cfg, anyID, []).0.blackList == []
  {
  }

  lemma RegularOrder(cfg: Config, s: Server)
    requires Regular(cfg, s)
    ensures WellOrdered(s.players, s.maxId) && Unique(s.players)
  {
  }

  // ---------------------------------------------------------------------
  // Sweeps of the player list

  /** The clock does not go backwards. */
  predicate Timed(ev: Event)
  {
    !ev.ReportDue?
  }

  predicate Chronological(events: seq<Event>)
  {
    forall i, j :: 0 <= i < j < |events| && Timed(events[i]) && Timed(events[j]) ==> events[i].now <= events[j].now
  }

  /** A packet of the callsign that is heard. */
  predicate HeardAt(cfg: Config, anyID: nat, events: seq<Event>, k: nat, name: string)
  {
    k < |events| && Heard(cfg, Exec(cfg, anyID, events[..k]).0, events[k]) && events[k].pkt.name == name
  }

  /** A listed player was last heard no earlier than by any packet of its callsign. */
  lemma {:induction false} LastHeardSince(cfg: Config, anyID: nat, events: seq<Event>, k: nat, p: Player)
    requires L.Callsigns(events) && Exec(cfg, anyID, events).1 == Done && Chronological(events)
    requires p in Exec(cfg, anyID, events).0.players && HeardAt(cfg, anyID, events, k, p.name)
    ensures events[k].now <= LastHeard(cfg, anyID, events, p.id)
    decreases |events|
  {
    var front, ev := events[..|events| - 1], events[|events| - 1];
    var s := Exec(cfg, anyID, front).0;
    L.ExecSnoc(cfg, anyID, events);
    hide Exec, React, Heard, LastHeard, Regular, Arrives;
    assert L.Callsigns(front) && front + [ev] == events;
    RunIsRegular(cfg, anyID, front);
    RegularOrder(cfg, s);
    EventFollows(cfg, s, ev, p);
    LastHeardSnoc(cfg, anyID, front, ev, p.id);
    assert ev.PacketArrives? ==> events[k].now <= ev.now by { HeardIsTimed(cfg, anyID, events, k, p.name); }
    if !SeesId(cfg, s, ev, p.id) {
      var q := Before(cfg, s, ev, p);
      assert events[..|front|] == front;
      assert k == |front| ==> Sees(cfg, s, ev, q);
      assert front[..k] == events[..k];
      LastHeardSince(cfg, anyID, front, k, q);
    } else {
      SeesIsPacket(cfg, s, ev, p.id);
    }
  }

  lemma HeardIsTimed(cfg: Config, anyID: nat, events: seq<Event>, k: nat, name: string)
    requires HeardAt(cfg, anyID, events, k, name) && Chronological(events)
    ensures events[k].PacketArrives?
    ensures events[|events| - 1].PacketArrives? ==> events[k].now <= events[|events| - 1].now
  {
  }

  lemma SeesIsPacket(cfg: Config, s: Server, ev: Event, id: nat)
    requires SeesId(cfg, s, ev, id)
    ensures ev.PacketArrives?
  {
  }

  lemma Before(cfg: Config, s: Server, ev: Event, p: Player) returns (q: Player)
    requires Follows(cfg, s, ev, p) && !SeesId(cfg, s, ev, p.id)
    ensures q in s.players && SameIdentity(q, p) && !Sees(cfg, s, ev, q)
  {
    hide Sees, Reports, Updates, HasRange;
    q :| q in s.players && Becomes(cfg, s, ev, q, p);
  }

  /** A sweep keeps every player of whom something was heard within the time allowed. */
  lemma ActiveStays(cfg: Config, anyID: nat, events: seq<Event>, now: int, k: nat, p: Player)
    requires L.Callsigns(events) && Exec(cfg, anyID, events).1 == Done && Chronological(events)
    requires p in Exec(cfg, anyID, events).0.players && HeardAt(cfg, anyID, events, k, p.name)
    requires now - events[k].now <= cfg.playerExpires
    ensures p in Exec(cfg, anyID, events + [SweepDue(now)]).0.players
  {
    EntriesAreTold(cfg, anyID, events);
    LastHeardSince(cfg, anyID, events, k, p);
    assert (events + [SweepDue(now)])[..|events|] == events;
    hide LastHeard, HeardAt;
    var s := Exec(cfg, anyID, events).0;
    assert IsTold(cfg, anyID, events, p);
    KeptBySweep(s.players, now, p);
  }

  lemma {:induction false} KeptBySweep(players: seq<Player>, now: int, p: Player)
    requires p in players && now - p.lastSeen <= p.timeout
    ensures p in Sweep(players, PlayerExpired(now))
  {
    SweepKeepsGood(players, PlayerExpired(now));
    GoodHolds(players, PlayerExpired(now), p);
    GoodHolds(Sweep(players, PlayerExpired(now)), PlayerExpired(now), p);
  }

  lemma {:induction false} GoodHolds<T>(s: seq<T>, bad: T -> bool, x: T)
    ensures x in Good(s, bad) <==> x in s && !bad(x)
  {
    if s != [] {
      GoodHolds(s[1..], bad, x);
    }
  }
}
