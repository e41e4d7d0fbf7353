/** Updates to inactive relays over a whole run of the server. */
module LazyRelay {
  import opened Wrappers
  import opened RelayRules
  import opened ExpirySweep
  import opened Players
  import opened Registry
  import opened Forwarding

  /** The packet gets as far as the player list. */
  predicate Passes(cfg: Config, s: Server, from: Address, pkt: Packet)
  {
    && !IsBlocked(s.blackList, from.ip)
    && pkt.fault.None?
    && !(pkt.relay && from.ip !in cfg.whitelist && from.ip !in cfg.relays)
    && pkt.kind != Ping && pkt.kind != Pong
  }

  /** The server when it has looked up the sender of a packet that it is going to
      forward, and the sender's place in the list. */
  function Forwarded(cfg: Config, s: Server, ev: Event): (r: Option<(Server, nat)>)
    ensures r.Some? ==> r.value.1 < |r.value.0.players|
  {
    match ev
    case PacketArrives(from, pkt, now) =>
      var s0 := s.(out := s.out + Crossfeed(cfg));
      if !Passes(cfg, s0, from, pkt) then None
      else
        var (s1, sender) := Accept(cfg, s0, from, pkt, now);
        if sender.None? then None else Some((s1, sender.value))
    case _ => None
  }

  function ForwardedId(cfg: Config, s: Server, ev: Event): Option<nat>
  {
    var f := Forwarded(cfg, s, ev);
    if f.None? then None else Some(f.value.0.players[f.value.1].id)
  }

  /** The times at which packets of player `id` are forwarded in a run. */
  function Forwards(cfg: Config, anyID: nat, events: seq<Event>, id: nat): seq<int>
  {
    if events == [] then []
    else
      var front, ev := events[..|events| - 1], events[|events| - 1];
      Forwards(cfg, anyID, front, id) +
      if ForwardedId(cfg, Exec(cfg, anyID, front).0, ev) == Some(id) then [ev.now] else []
  }

  /** The times at which they are forwarded to relays whether in range or not. */
  function Forced(cfg: Config, anyID: nat, events: seq<Event>, id: nat): seq<int>
  {
    if events == [] then []
    else
      var front, ev := events[..|events| - 1], events[|events| - 1];
      var s := Exec(cfg, anyID, front).0;
      var s' := Exec(cfg, anyID, events).0;
      Forced(cfg, anyID, front, id) +
      if ForwardedId(cfg, s, ev) == Some(id) && IsForced(s', Forwarded(cfg, s, ev).value.1) then [ev.now] else []
  }

  predicate IsForced(s: Server, sender: nat)
  {
    sender < |s.players| && s.players[sender].doUpdate
  }

  /** A player as it is listed first, as far as updates are concerned. */
  const NEW_PLAYER := Player(0, 0, "", Address(0, 0), 0, 0, 0, 0, 0, 0, 0, true, false, "", "", (0.0, 0.0, 0.0), 0, 0, false)

  function After(times: seq<int>): Player
  {
    if times == [] then NEW_PLAYER else CheckDue(After(times[..|times| - 1]), times[|times| - 1])
  }

  function AfterFrom(p: Player, times: seq<int>): Player
    decreases |times|
  {
    if times == [] then p else AfterFrom(CheckDue(p, times[0]), times[1..])
  }

  lemma {:induction false} ForcedUpdatesSnoc(p: Player, times: seq<int>, t: int)
    ensures AfterFrom(p, times + [t]) == CheckDue(AfterFrom(p, times), t)
    ensures ForcedUpdates(p, times + [t]) ==
            ForcedUpdates(p, times) + if CheckDue(AfterFrom(p, times), t).doUpdate then [t] else []
    decreases |times|
  {
    if times != [] {
      assert (times + [t])[1..] == times[1..] + [t];
      ForcedUpdatesSnoc(CheckDue(p, times[0]), times[1..], t);
    }
  }

  lemma {:induction false} AfterIsAfterFrom(times: seq<int>)
    ensures After(times) == AfterFrom(NEW_PLAYER, times)
  {
    if times != [] {
      var front, t := times[..|times| - 1], times[|times| - 1];
      AfterIsAfterFrom(front);
      ForcedUpdatesSnoc(NEW_PLAYER, front, t);
      assert times == front + [t];
    }
  }

  predicate SameClock(p: Player, q: Player)
  {
    SameIdentity(p, q) && p.lastRelayedToInactive == q.lastRelayedToInactive
  }

  predicate IsNew(q: Player, maxId: nat)
  {
    q.id > maxId && (q.hasErrors ==> q.name == BAD_CLIENT) && q.lastRelayedToInactive == 0
  }

  /** Every entry was there before with the same clock, or is new. */
  ghost predicate Keeps(a: seq<Player>, b: seq<Player>, maxId: nat)
  {
    forall q :: q in b ==> IsNew(q, maxId) || exists p :: p in a && SameClock(p, q)
  }

  lemma PointwiseKeeps(a: seq<Player>, b: seq<Player>, maxId: nat)
    requires |a| <= |b|
    requires forall k :: 0 <= k < |a| ==> SameClock(a[k], b[k])
    requires forall k :: |a| <= k < |b| ==> IsNew(b[k], maxId)
    ensures Keeps(a, b, maxId)
  {
    forall q | q in b
      ensures IsNew(q, maxId) || exists p :: p in a && SameClock(p, q)
    {
      var k :| 0 <= k < |b| && b[k] == q;
      if k < |a| {
        assert a[k] in a;
      }
    }
  }

  lemma SubsetKeeps(a: seq<Player>, b: seq<Player>, maxId: nat)
    requires forall q :: q in b ==> q in a
    ensures Keeps(a, b, maxId)
  {
    forall q | q in b
      ensures exists p :: p in a && SameClock(p, q)
    {
      assert q in a && SameClock(q, q);
    }
  }

  lemma AddBadKeeps(cfg: Config, s: Server, from: Address, error: string, bytes: nat, now: int)
    ensures Keeps(s.players, AddBadClient(cfg, s, from, error, true, bytes, now).players, s.maxId)
  {
    PointwiseKeeps(s.players, AddBadClient(cfg, s, from, error, true, bytes, now).players, s.maxId);
  }

  lemma UpdateKeeps(cfg: Config, s: Server, i: nat, pkt: Packet, now: int)
    requires i < |s.players|
    ensures SameClock(s.players[i], UpdateSender(cfg, s, i, pkt, now).0.players[i])
    ensures forall k :: 0 <= k < |s.players| && k != i ==> UpdateSender(cfg, s, i, pkt, now).0.players[k] == s.players[k]
  {
    hide NextRadarRange;
  }

  lemma AcceptKeeps(cfg: Config, s: Server, from: Address, pkt: Packet, now: int)
    ensures Keeps(s.players, Accept(cfg, s, from, pkt, now).0.players, s.maxId)
  {
    hide Keeps, FirstRadarRange, UpdateSender;
    var i := IndexOfName(s.players, pkt.name);
    if i < |s.players| {
      var found := s.(players := s.players[i := s.players[i].(lastSeen := now)]);
      UpdateKeeps(cfg, found, i, pkt, now);
    }
    PointwiseKeeps(s.players, Accept(cfg, s, from, pkt, now).0.players, s.maxId);
  }

  lemma SweepKeeps(cfg: Config, s: Server, now: int)
    ensures Keeps(s.players, SweepPlayers(cfg, s, now).players, s.maxId)
  {
    SweepKeepsGood(s.players, PlayerExpired(now));
    SubsetKeeps(s.players, SweepPlayers(cfg, s, now).players, s.maxId);
  }

  /** An event that forwards no packet leaves all clocks alone. */
  lemma EventKeeps(cfg: Config, s: Server, ev: Event)
    requires Forwarded(cfg, s, ev).None?
    ensures Keeps(s.players, React(cfg, s, ev).0.players, s.maxId)
  {
    match ev {
      case PacketArrives(from, pkt, now) =>
        hide Keeps, Accept, AddBadClient;
        var s0 := s.(out := s.out + Crossfeed(cfg));
        SubsetKeeps(s.players, s.players, s.maxId);
        AcceptKeeps(cfg, s0, from, pkt, now);
        if pkt.fault.Some? {
          AddBadKeeps(cfg, s0, from, pkt.fault.value, pkt.bytes, now);
        }
      case SweepDue(now) => SweepKeeps(cfg, s, now);
      case BlackListSweepDue(_) => SubsetKeeps(s.players, s.players, s.maxId);
      case ReportDue => SubsetKeeps(s.players, s.players, s.maxId);
    }
  }

  /** Forwarding a packet sets the clock of its sender and of no other player. */
  lemma ForwardKeeps(cfg: Config, s: Server, sender: nat, pkt: Packet, now: int)
    requires sender < |s.players| && SenderStays(s.players, sender, now)
    ensures forall q :: q in ForwardAccepted(cfg, s, sender, pkt, now).0.players ==>
      exists c :: c in s.players && q == Visit(cfg, s.players[sender], pkt, now, c)
  {
    hide Visit, Visited, Deliveries, Overdue;
    var list := s.players;
    assert list[..|list|] == list && list[|list|..] == [];
    VisitedExact(cfg, list[sender], pkt, now, list);
  }

  /** The callsign field of a packet is too short for the name of a bad client. */
  predicate Callsigns(events: seq<Event>)
  {
    forall i :: 0 <= i < |events| && events[i].PacketArrives? ==> events[i].pkt.name != BAD_CLIENT
  }

  /** The clocks are right for the entries given. */
  ghost predicate Right(cfg: Config, anyID: nat, events: seq<Event>, players: seq<Player>)
  {
    && (forall q :: q in players && q.hasErrors ==> q.name == BAD_CLIENT)
    && (forall q :: q in players && !q.hasErrors ==>
          q.lastRelayedToInactive == After(Forwards(cfg, anyID, events, q.id)).lastRelayedToInactive)
  }

  ghost predicate ClockInv(cfg: Config, anyID: nat, events: seq<Event>, s: Server)
  {
    && Right(cfg, anyID, events, s.players)
    && (forall id: nat :: id > s.maxId ==> Forwards(cfg, anyID, events, id) == [])
  }

  lemma MaxIdGrows(cfg: Config, s: Server, ev: Event)
    ensures React(cfg, s, ev).0.maxId >= s.maxId
  {
    hide IsBlocked, MarkSeen, Sweep, Visited, Deliveries, Overdue;
  }

  /** Clocks that are kept are still right. */
  lemma KeptClocks(cfg: Config, anyID: nat, events: seq<Event>, s: Server, b: seq<Player>)
    requires ClockInv(cfg, anyID, events, s) && Keeps(s.players, b, s.maxId)
    ensures Right(cfg, anyID, events, b)
  {
    hide Forwards;
    forall q | q in b && !q.hasErrors
      ensures q.lastRelayedToInactive == After(Forwards(cfg, anyID, events, q.id)).lastRelayedToInactive
    {
      if IsNew(q, s.maxId) {
        assert Forwards(cfg, anyID, events, q.id) == [];
      }
    }
  }

  lemma ForwardsSnoc(cfg: Config, anyID: nat, events: seq<Event>, ev: Event, id: nat)
    ensures Forwards(cfg, anyID, events + [ev], id) ==
      Forwards(cfg, anyID, events, id) +
      if ForwardedId(cfg, Exec(cfg, anyID, events).0, ev) == Some(id) then [ev.now] else []
  {
    assert (events + [ev])[..|events|] == events;
  }

  lemma QuietStep(cfg: Config, anyID: nat, events: seq<Event>, ev: Event)
    requires var s := Exec(cfg, anyID, events).0;
      ClockInv(cfg, anyID, events, s) && Forwarded(cfg, s, ev).None?
    ensures ClockInv(cfg, anyID, events + [ev], React(cfg, Exec(cfg, anyID, events).0, ev).0)
  {
    hide Exec, React, Forwarded, Forwards, After;
    var s := Exec(cfg, anyID, events).0;
    EventKeeps(cfg, s, ev);
    KeptClocks(cfg, anyID, events, s, React(cfg, s, ev).0.players);
    MaxIdGrows(cfg, s, ev);
    forall id: nat
      ensures Forwards(cfg, anyID, events + [ev], id) == Forwards(cfg, anyID, events, id)
    {
      ForwardsSnoc(cfg, anyID, events, ev, id);
    }
  }

  /** The sender that is found bears the name in the packet, and may be new. */
  lemma AcceptFinds(cfg: Config, s: Server, from: Address, pkt: Packet, now: int)
    requires Accept(cfg, s, from, pkt, now).1.Some?
    ensures var (s', sender) := Accept(cfg, s, from, pkt, now);
      s'.players[sender.value].name == pkt.name && s'.maxId >= s.maxId
  {
  }

  /** What forwarding does to the clock of one listed player. */
  lemma VisitedClock(cfg: Config, s: Server, sender: nat, pkt: Packet, now: int, c: Player)
    requires WellOrdered(s.players, s.maxId) && Unique(s.players)
    requires sender < |s.players| && s.players[sender].name == pkt.name && !s.players[sender].hasErrors
    requires c in s.players && !c.hasErrors
    ensures var q := Visit(cfg, s.players[sender], pkt, now, c);
      q.lastRelayedToInactive ==
        if c.id == s.players[sender].id then CheckDue(c, now).lastRelayedToInactive else c.lastRelayedToInactive
  {
    var k :| 0 <= k < |s.players| && s.players[k] == c;
    assert (c.name == pkt.name) == (k == sender) == (c.id == s.players[sender].id);
  }

  /** The history after forwarding a packet of player `f`. */
  ghost predicate OneMore(cfg: Config, anyID: nat, events: seq<Event>, ev: Event, f: nat)
    requires ev.PacketArrives?
  {
    forall id: nat :: Forwards(cfg, anyID, events + [ev], id) ==
      Forwards(cfg, anyID, events, id) + if id == f then [ev.now] else []
  }

  lemma ForwardCounted(cfg: Config, anyID: nat, events: seq<Event>, ev: Event, f: nat)
    requires ev.PacketArrives? && ForwardedId(cfg, Exec(cfg, anyID, events).0, ev) == Some(f)
    ensures OneMore(cfg, anyID, events, ev, f)
  {
    hide Exec, ForwardedId, Forwards;
    forall id: nat
      ensures Forwards(cfg, anyID, events + [ev], id) ==
              Forwards(cfg, anyID, events, id) + if id == f then [ev.now] else []
    {
      ForwardsSnoc(cfg, anyID, events, ev, id);
    }
  }

  lemma OneClock(cfg: Config, s1: Server, sender: nat, pkt: Packet, now: int, c: Player, times: seq<int>)
    requires sender < |s1.players|
    requires WellOrdered(s1.players, s1.maxId) && Unique(s1.players)
    requires s1.players[sender].name == pkt.name && !s1.players[sender].hasErrors
    requires c in s1.players && !c.hasErrors && c.lastRelayedToInactive == After(times).lastRelayedToInactive
    ensures Visit(cfg, s1.players[sender], pkt, now, c).lastRelayedToInactive ==
      After(times + if c.id == s1.players[sender].id then [now] else []).lastRelayedToInactive
  {
    hide After, Visit, CheckDue, WellOrdered, Unique;
    VisitedClock(cfg, s1, sender, pkt, now, c);
    AfterSnoc(times, now, c);
    assert times + [] == times;
  }

  lemma ForwardClocks(cfg: Config, anyID: nat, events: seq<Event>, ev: Event, s1: Server, sender: nat)
    requires ev.PacketArrives? && sender < |s1.players| && SenderStays(s1.players, sender, ev.now)
    requires WellOrdered(s1.players, s1.maxId) && Unique(s1.players)
    requires s1.players[sender].name == ev.pkt.name && !s1.players[sender].hasErrors
    requires Right(cfg, anyID, events, s1.players)
    requires OneMore(cfg, anyID, events, ev, s1.players[sender].id)
    ensures Right(cfg, anyID, events + [ev], ForwardAccepted(cfg, s1, sender, ev.pkt, ev.now).0.players)
  {
    hide Forwards, After, Visit, ForwardAccepted, CheckDue, WellOrdered, Unique, SenderStays;
    var s' := ForwardAccepted(cfg, s1, sender, ev.pkt, ev.now).0;
    ForwardKeeps(cfg, s1, sender, ev.pkt, ev.now);
    forall q | q in s'.players
      ensures q.hasErrors ==> q.name == BAD_CLIENT
      ensures !q.hasErrors ==>
        q.lastRelayedToInactive == After(Forwards(cfg, anyID, events + [ev], q.id)).lastRelayedToInactive
    {
      var c :| c in s1.players && q == Visit(cfg, s1.players[sender], ev.pkt, ev.now, c);
      VisitIdentity(cfg, s1.players[sender], ev.pkt, ev.now, c);
      if !q.hasErrors {
        OneClock(cfg, s1, sender, ev.pkt, ev.now, c, Forwards(cfg, anyID, events, c.id));
      }
    }
  }

  lemma ForwardStep(cfg: Config, anyID: nat, events: seq<Event>, ev: Event, s1: Server, sender: nat)
    requires var s := Exec(cfg, anyID, events).0;
      && ClockInv(cfg, anyID, events, s) && Inv(cfg, s)
      && ev.PacketArrives? && ev.pkt.name != BAD_CLIENT
      && Forwarded(cfg, s, ev) == Some((s1, sender)) && SenderStays(s1.players, sender, ev.now)
    ensures var s := Exec(cfg, anyID, events).0;
      var s' := React(cfg, s, ev).0;
      && ClockInv(cfg, anyID, events + [ev], s')
      && (IsForced(s', sender) <==>
            CheckDue(After(Forwards(cfg, anyID, events, s1.players[sender].id)), ev.now).doUpdate)
  {
    var s := Exec(cfg, anyID, events).0;
    var f := s1.players[sender].id;
    ReactForwards(cfg, s, ev, s1, sender);
    SenderFacts(cfg, anyID, events, ev, s1, sender);
    ForwardCounted(cfg, anyID, events, ev, f);
    hide Exec, React, Forwarded, Forwards, After, ForwardAccepted, Inv, CheckDue, Unique, SenderStays;
    ForwardClocks(cfg, anyID, events, ev, s1, sender);
    ForwardedSender(cfg, s1, sender, ev.pkt, ev.now);
    assert s1.players[sender] in s1.players;
    AfterSnoc(Forwards(cfg, anyID, events, f), ev.now, s1.players[sender]);
  }

  lemma ReactForwards(cfg: Config, s: Server, ev: Event, s1: Server, sender: nat)
    requires ev.PacketArrives? && Forwarded(cfg, s, ev) == Some((s1, sender))
    ensures React(cfg, s, ev) == ForwardAccepted(cfg, s1, sender, ev.pkt, ev.now)
  {
    hide Accept, ForwardAccepted;
  }

  lemma AfterSnoc(times: seq<int>, t: int, c: Player)
    ensures After(times + [t]) == CheckDue(After(times), t)
    ensures c.lastRelayedToInactive == After(times).lastRelayedToInactive ==>
      && CheckDue(c, t).lastRelayedToInactive == After(times + [t]).lastRelayedToInactive
      && CheckDue(c, t).doUpdate == CheckDue(After(times), t).doUpdate
  {
    assert (times + [t])[..|times|] == times;
  }

  /** The forwarded packet's sender keeps its place, and its IDs are in bounds. */
  lemma ForwardedSender(cfg: Config, s: Server, sender: nat, pkt: Packet, now: int)
    requires sender < |s.players| && SenderStays(s.players, sender, now)
    requires s.players[sender].name == pkt.name && !s.players[sender].hasErrors
    ensures var s' := ForwardAccepted(cfg, s, sender, pkt, now).0;
      && sender < |s'.players| && s'.players[sender] == CheckDue(s.players[sender], now)
      && s'.maxId == s.maxId
  {
    VisitedKeepsPlace(cfg, s, sender, pkt, now);
    hide Visited, Deliveries, Overdue, RelaysFor;
  }

  lemma SenderFacts(cfg: Config, anyID: nat, events: seq<Event>, ev: Event, s1: Server, sender: nat)
    requires var s := Exec(cfg, anyID, events).0;
      && ClockInv(cfg, anyID, events, s) && Inv(cfg, s)
      && ev.PacketArrives? && ev.pkt.name != BAD_CLIENT && Forwarded(cfg, s, ev) == Some((s1, sender))
    ensures Inv(cfg, s1) && s1.maxId >= Exec(cfg, anyID, events).0.maxId
    ensures WellOrdered(s1.players, s1.maxId) && Unique(s1.players)
    ensures s1.players[sender].name == ev.pkt.name && !s1.players[sender].hasErrors
    ensures Right(cfg, anyID, events, s1.players)
  {
    var s := Exec(cfg, anyID, events).0;
    var s0 := s.(out := s.out + Crossfeed(cfg));
    hide Exec, Accept, Forwards, After, Keeps;
    SameForInv(cfg, s, s0);
    AcceptKeepsInv(cfg, s0, ev.from, ev.pkt, ev.now);
    AcceptKeeps(cfg, s0, ev.from, ev.pkt, ev.now);
    AcceptFinds(cfg, s0, ev.from, ev.pkt, ev.now);
    KeptClocks(cfg, anyID, events, s, s1.players);
    assert s1.players[sender] in s1.players;
  }

  lemma ExecSnoc(cfg: Config, anyID: nat, events: seq<Event>)
    requires events != [] && Exec(cfg, anyID, events).1 == Done
    ensures var front, ev := events[..|events| - 1], events[|events| - 1];
      && Exec(cfg, anyID, front).1 == Done
      && Exec(cfg, anyID, events) == React(cfg, Exec(cfg, anyID, front).0, ev)
  {
  }

  lemma DoneStays(cfg: Config, s: Server, ev: Event)
    requires Forwarded(cfg, s, ev).Some? && React(cfg, s, ev).1 == Done
    ensures var (s1, sender) := Forwarded(cfg, s, ev).value;
      SenderStays(s1.players, sender, ev.now)
  {
    hide Accept, Walked;
  }

  /** Over every run that does not lose a sender, a player's packets go to relays out of
      range at just the times that the due check picks from all times at which packets
      of that player are forwarded, other players' packets notwithstanding. */
  lemma {:induction false} ForcedAreUpdates(cfg: Config, anyID: nat, events: seq<Event>, id: nat)
    requires Callsigns(events) && Exec(cfg, anyID, events).1 == Done
    ensures ClockInv(cfg, anyID, events, Exec(cfg, anyID, events).0)
    ensures Forced(cfg, anyID, events, id) == ForcedUpdates(NEW_PLAYER, Forwards(cfg, anyID, events, id))
  {
    hide Exec, Forced, Forwards, ForcedUpdates, ClockInv, React, Inv;
    if events == [] {
      ClockStarts(cfg, anyID, id);
    } else {
      var front, ev := events[..|events| - 1], events[|events| - 1];
      ExecSnoc(cfg, anyID, events);
      assert Callsigns(front);
      ForcedAreUpdates(cfg, anyID, front, id);
      RunKeepsInv(cfg, anyID, front);
      assert front + [ev] == events;
      ForcedStep(cfg, anyID, front, ev, id);
    }
  }

  lemma ForcedSnoc(cfg: Config, anyID: nat, events: seq<Event>, ev: Event, id: nat)
    ensures var s, s' := Exec(cfg, anyID, events).0, Exec(cfg, anyID, events + [ev]).0;
      Forced(cfg, anyID, events + [ev], id) ==
      Forced(cfg, anyID, events, id) +
      if ForwardedId(cfg, s, ev) == Some(id) && IsForced(s', Forwarded(cfg, s, ev).value.1) then [ev.now] else []
  {
    assert (events + [ev])[..|events|] == events;
  }

  lemma ForcedStep(cfg: Config, anyID: nat, events: seq<Event>, ev: Event, id: nat)
    requires var s := Exec(cfg, anyID, events).0;
      && ClockInv(cfg, anyID, events, s) && Inv(cfg, s)
      && Exec(cfg, anyID, events + [ev]) == React(cfg, s, ev) && React(cfg, s, ev).1 == Done
      && (ev.PacketArrives? ==> ev.pkt.name != BAD_CLIENT)
    requires Forced(cfg, anyID, events, id) == ForcedUpdates(NEW_PLAYER, Forwards(cfg, anyID, events, id))
    ensures ClockInv(cfg, anyID, events + [ev], Exec(cfg, anyID, events + [ev]).0)
    ensures Forced(cfg, anyID, events + [ev], id) == ForcedUpdates(NEW_PLAYER, Forwards(cfg, anyID, events + [ev], id))
  {
    var s := Exec(cfg, anyID, events).0;
    ForcedSnoc(cfg, anyID, events, ev, id);
    ForwardsSnoc(cfg, anyID, events, ev, id);
    hide Exec, React, Forwarded, Inv, ClockInv, ForcedUpdates, Forced, Forwards, After, AfterFrom, CheckDue, IsForced, SenderStays;
    if Forwarded(cfg, s, ev).None? {
      QuietStep(cfg, anyID, events, ev);
    } else {
      var (s1, sender) := Forwarded(cfg, s, ev).value;
      DoneStays(cfg, s, ev);
      ForwardedIsPacket(cfg, s, ev);
      ForwardStep(cfg, anyID, events, ev, s1, sender);
      AfterIsAfterFrom(Forwards(cfg, anyID, events, id));
      ForcedUpdatesSnoc(NEW_PLAYER, Forwards(cfg, anyID, events, id), ev.now);
    }
    assert Forwards(cfg, anyID, events, id) + [] == Forwards(cfg, anyID, events, id);
  }

  lemma ClockStarts(cfg: Config, anyID: nat, id: nat)
    ensures ClockInv(cfg, anyID, [], Exec(cfg, anyID, []).0)
    ensures Forced(cfg, anyID, [], id) == ForcedUpdates(NEW_PLAYER, Forwards(cfg, anyID, [], id))
  {
  }

  lemma ForwardedIsPacket(cfg: Config, s: Server, ev: Event)
    requires Forwarded(cfg, s, ev).Some?
    ensures ev.PacketArrives?
  {
  }

  /** In any run packets of a player are forced on relays out of range at most 1 + floor(t / 2)
      times in `t` seconds, any two of them more than the update period apart. */
  lemma ForcedRate(cfg: Config, anyID: nat, events: seq<Event>, id: nat, i: nat, j: nat, t: nat)
    requires Callsigns(events) && Exec(cfg, anyID, events).1 == Done
    requires i <= j < |Forced(cfg, anyID, events, id)|
    requires Forced(cfg, anyID, events, id)[j] - Forced(cfg, anyID, events, id)[i] <= t
    ensures i < j ==>
      Forced(cfg, anyID, events, id)[j] - Forced(cfg, anyID, events, id)[i] > UPDATE_INACTIVE_PERIOD
    ensures j - i + 1 <= 1 + t / 2
  {
    ForcedAreUpdates(cfg, anyID, events, id);
    LazyRelayRate(NEW_PLAYER, Forwards(cfg, anyID, events, id), i, j, t);
  }

  // ---------------------------------------------------------------------
  // What a relay that is out of range is sent

  /** How many of the datagrams go to a relay. */
  function RelayCopies(out: seq<Output>, relay: Ip): nat
  {
    if out == [] then 0
    else RelayCopies(out[..|out| - 1], relay) + if out[|out| - 1] == ToRelay(relay) then 1 else 0
  }

  lemma {:induction false} RelayCopiesAdd(a: seq<Output>, b: seq<Output>, relay: Ip)
    ensures RelayCopies(a + b, relay) == RelayCopies(a, relay) + RelayCopies(b, relay)
  {
    if b == [] {
      assert a + b == a;
    } else {
      assert (a + b)[..|a + b| - 1] == a + b[..|b| - 1];
      RelayCopiesAdd(a, b[..|b| - 1], relay);
    }
  }

  /** The datagrams that an event sends. */
  function NewOutput(s: Server, s': Server): seq<Output>
  {
    if |s.out| <= |s'.out| then s'.out[|s.out|..] else []
  }

  /** How many datagrams with packets of player `id` a relay is sent from time `lo` to `hi`. */
  function RelaySent(cfg: Config, anyID: nat, events: seq<Event>, id: nat, relay: Ip, lo: int, hi: int): nat
  {
    if events == [] then 0
    else
      var front, ev := events[..|events| - 1], events[|events| - 1];
      var s, s' := Exec(cfg, anyID, front).0, Exec(cfg, anyID, events).0;
      RelaySent(cfg, anyID, front, id, relay, lo, hi) +
      if ForwardedId(cfg, s, ev) == Some(id) && lo <= ev.now <= hi then RelayCopies(NewOutput(s, s'), relay) else 0
  }

  /** The relay is out of the range of player `id` whenever a packet of it is forwarded. */
  ghost predicate OutOfRange(cfg: Config, anyID: nat, events: seq<Event>, id: nat, relay: Ip)
  {
    forall k :: 0 <= k < |events| ==> OutOfRangeAt(cfg, anyID, events[..k], events[k], id, relay)
  }

  ghost predicate OutOfRangeAt(cfg: Config, anyID: nat, front: seq<Event>, ev: Event, id: nat, relay: Ip)
  {
    var s := Exec(cfg, anyID, front).0;
    var s' := React(cfg, s, ev).0;
    ForwardedId(cfg, s, ev) == Some(id) ==>
      var sender := Forwarded(cfg, s, ev).value.1;
      sender < |s'.players| ==> !IsInRange(cfg, s'.players, relay, s'.players[sender])
  }

  lemma {:induction false} NoRelayCopies(cfg: Config, from: Player, pkt: Packet, list: seq<Player>, relay: Ip)
    ensures RelayCopies(Deliveries(cfg, from, pkt, list), relay) == 0
  {
    if list != [] {
      NoRelayCopies(cfg, from, pkt, list[..|list| - 1], relay);
      hide Receives;
      var c := list[|list| - 1];
      RelayCopiesAdd(Deliveries(cfg, from, pkt, list[..|list| - 1]),
                     if Receives(cfg, from, pkt, c) then [ToClient(c.id, c.address)] else [], relay);
    }
  }

  lemma {:induction false} OutputCopies(ips: seq<Ip>, relay: Ip)
    ensures RelayCopies(RelayOutputs(ips), relay) == CountOf(ips, relay)
  {
    if ips != [] {
      OutputCopies(ips[1..], relay);
      assert RelayOutputs(ips) == [ToRelay(ips[0])] + RelayOutputs(ips[1..]);
      RelayCopiesAdd([ToRelay(ips[0])], RelayOutputs(ips[1..]), relay);
    }
  }

  lemma {:induction false} NoCrossfeedCopies(out: seq<Output>, relay: Ip)
    requires forall i :: 0 <= i < |out| ==> !out[i].ToRelay?
    ensures RelayCopies(out, relay) == 0
  {
    if out != [] {
      NoCrossfeedCopies(out[..|out| - 1], relay);
    }
  }

  lemma AcceptSendsNothing(cfg: Config, s: Server, from: Address, pkt: Packet, now: int)
    ensures Accept(cfg, s, from, pkt, now).0.out == s.out
  {
  }

  /** A forwarded packet goes to a relay out of range only if it is forced on it, as often
      as the relay is listed. */
  lemma EventCopies(cfg: Config, s: Server, ev: Event, s1: Server, sender: nat, relay: Ip)
    requires ev.PacketArrives? && Forwarded(cfg, s, ev) == Some((s1, sender)) && SenderStays(s1.players, sender, ev.now)
    ensures var s' := React(cfg, s, ev).0;
      sender < |s'.players| && (!IsInRange(cfg, s'.players, relay, s'.players[sender]) ==>
        RelayCopies(NewOutput(s, s'), relay) <= if IsForced(s', sender) then CountOf(cfg.relays, relay) else 0)
  {
    hide IsInRange, Visit, Visited, Deliveries, Overdue, React;
    var s0 := s.(out := s.out + Crossfeed(cfg));
    AcceptSendsNothing(cfg, s0, ev.from, ev.pkt, ev.now);
    ReactForwards(cfg, s, ev, s1, sender);
    hide Forwarded;
    ForwardCopies(cfg, s1, sender, ev.pkt, ev.now, relay);
    var s' := React(cfg, s, ev).0;
    var more := s'.out[|s1.out|..];
    assert NewOutput(s, s') == Crossfeed(cfg) + more;
    NoCrossfeedCopies(Crossfeed(cfg), relay);
    RelayCopiesAdd(Crossfeed(cfg), more, relay);
  }

  lemma ForwardCopies(cfg: Config, s: Server, sender: nat, pkt: Packet, now: int, relay: Ip)
    requires sender < |s.players| && SenderStays(s.players, sender, now)
    ensures var s' := ForwardAccepted(cfg, s, sender, pkt, now).0;
      && sender < |s'.players| && s.out <= s'.out
      && (!IsInRange(cfg, s'.players, relay, s'.players[sender]) ==>
            RelayCopies(s'.out[|s.out|..], relay) <= if IsForced(s', sender) then CountOf(cfg.relays, relay) else 0)
  {
    VisitedKeepsPlace(cfg, s, sender, pkt, now);
    hide IsInRange, Visit, Visited, Deliveries, Overdue, RelayTargets;
    var s' := ForwardAccepted(cfg, s, sender, pkt, now).0;
    var p := s'.players[sender];
    assert s.players[..|s.players|] == s.players;
    var sent, to := Deliveries(cfg, s.players[sender], pkt, s.players), RelaysFor(cfg, s'.players, p);
    assert s'.out[|s.out|..] == sent + RelayOutputs(to);
    RelayCopiesAdd(sent, RelayOutputs(to), relay);
    NoRelayCopies(cfg, s.players[sender], pkt, s.players, relay);
    OutputCopies(to, relay);
    TargetCount(cfg, Entry(p.address.ip, p.isLocal), WantedBy(cfg, s'.players, p), relay);
    CountIn(to, relay);
  }

  lemma TargetCount(cfg: Config, e: Entry, wanted: set<Ip>, relay: Ip)
    ensures CountOf(RelayTargets(cfg.relays, cfg.isHub, e, wanted), relay) <=
            if relay in wanted then CountOf(cfg.relays, relay) else 0
  {
    WantedCount(cfg.relays, e.from, wanted, relay);
  }

  /** How many of the times lie from `lo` to `hi`. */
  function Within(times: seq<int>, lo: int, hi: int): nat
  {
    if times == [] then 0
    else Within(times[..|times| - 1], lo, hi) + if lo <= times[|times| - 1] <= hi then 1 else 0
  }

  lemma {:induction false} WithinSooner(times: seq<int>, lo: int, hi: int, sooner: int)
    requires sooner <= hi && forall i :: 0 <= i < |times| ==> times[i] <= sooner
    ensures Within(times, lo, hi) == Within(times, lo, sooner)
  {
    if times != [] {
      WithinSooner(times[..|times| - 1], lo, hi, sooner);
    }
  }

  lemma {:induction false} SpacedWithin(times: seq<int>, last: int, lo: int, hi: int)
    requires Spaced(times, last)
    ensures Within(times, lo, hi) <= if lo <= hi then 1 + (hi - lo) / 2 else 0
  {
    if times != [] {
      var n := |times| - 1;
      var front, t := times[..n], times[n];
      assert Spaced(front, last);
      SpacedWithin(front, last, lo, hi);
      if lo <= t <= hi {
        WithinSooner(front, lo, hi, t - 2);
        SpacedWithin(front, last, lo, t - 2);
      }
    }
  }

  lemma WithinSnoc(times: seq<int>, t: int, lo: int, hi: int)
    ensures Within(times + [t], lo, hi) == Within(times, lo, hi) + if lo <= t <= hi then 1 else 0
  {
    assert (times + [t])[..|times|] == times;
  }

  lemma RelaySentSnoc(cfg: Config, anyID: nat, events: seq<Event>, ev: Event, id: nat, relay: Ip, lo: int, hi: int)
    ensures var s, s' := Exec(cfg, anyID, events).0, Exec(cfg, anyID, events + [ev]).0;
      RelaySent(cfg, anyID, events + [ev], id, relay, lo, hi) ==
      RelaySent(cfg, anyID, events, id, relay, lo, hi) +
      if ForwardedId(cfg, s, ev) == Some(id) && lo <= ev.now <= hi then RelayCopies(NewOutput(s, s'), relay) else 0
  {
    assert (events + [ev])[..|events|] == events;
  }

  lemma SentStep(cfg: Config, anyID: nat, events: seq<Event>, ev: Event, id: nat, relay: Ip, lo: int, hi: int)
    requires var s := Exec(cfg, anyID, events).0;
      Exec(cfg, anyID, events + [ev]) == React(cfg, s, ev) && React(cfg, s, ev).1 == Done
    requires OutOfRangeAt(cfg, anyID, events, ev, id, relay)
    ensures var more := RelaySent(cfg, anyID, events + [ev], id, relay, lo, hi) - RelaySent(cfg, anyID, events, id, relay, lo, hi);
      var w, w' := Within(Forced(cfg, anyID, events, id), lo, hi), Within(Forced(cfg, anyID, events + [ev], id), lo, hi);
      (w' == w && more == 0) || (w' == w + 1 && more <= CountOf(cfg.relays, relay))
  {
    var s := Exec(cfg, anyID, events).0;
    RelaySentSnoc(cfg, anyID, events, ev, id, relay, lo, hi);
    ForcedSnoc(cfg, anyID, events, ev, id);
    hide Exec, React, Forwarded, Forced, IsInRange, NewOutput, IsForced, SenderStays, Within, RelayCopies, RelaySent, CountOf;
    var before := Forced(cfg, anyID, events, id);
    if ForwardedId(cfg, s, ev) == Some(id) {
      var (s1, sender) := Forwarded(cfg, s, ev).value;
      DoneStays(cfg, s, ev);
      ForwardedIsPacket(cfg, s, ev);
      EventCopies(cfg, s, ev, s1, sender, relay);
      WithinSnoc(before, ev.now, lo, hi);
    }
    assert before + [] == before;
  }

  lemma NothingSent(cfg: Config, anyID: nat, id: nat, relay: Ip, lo: int, hi: int)
    ensures RelaySent(cfg, anyID, [], id, relay, lo, hi) == 0
  {
  }

  lemma OneTimesMore(m: nat, a: nat)
    ensures m * (a + 1) == m * a + m
  {
  }

  lemma {:induction false} SentWhenForced(cfg: Config, anyID: nat, events: seq<Event>, id: nat, relay: Ip, lo: int, hi: int)
    requires Exec(cfg, anyID, events).1 == Done && OutOfRange(cfg, anyID, events, id, relay)
    ensures RelaySent(cfg, anyID, events, id, relay, lo, hi) <=
            CountOf(cfg.relays, relay) * Within(Forced(cfg, anyID, events, id), lo, hi)
  {
    hide Exec, RelaySent, Forced, Within, React, OutOfRange, OutOfRangeAt, CountOf;
    if events == [] {
      NothingSent(cfg, anyID, id, relay, lo, hi);
    } else {
      var front, ev := events[..|events| - 1], events[|events| - 1];
      ExecSnoc(cfg, anyID, events);
      RangeBefore(cfg, anyID, events, id, relay);
      SentWhenForced(cfg, anyID, front, id, relay, lo, hi);
      assert front + [ev] == events;
      SentStep(cfg, anyID, front, ev, id, relay, lo, hi);
      OneTimesMore(CountOf(cfg.relays, relay), Within(Forced(cfg, anyID, front, id), lo, hi));
    }
  }

  lemma RangeBefore(cfg: Config, anyID: nat, events: seq<Event>, id: nat, relay: Ip)
    requires events != [] && OutOfRange(cfg, anyID, events, id, relay)
    ensures OutOfRange(cfg, anyID, events[..|events| - 1], id, relay)
    ensures OutOfRangeAt(cfg, anyID, events[..|events| - 1], events[|events| - 1], id, relay)
  {
    hide OutOfRangeAt;
    var front := events[..|events| - 1];
    forall k | 0 <= k < |front|
      ensures OutOfRangeAt(cfg, anyID, front[..k], front[k], id, relay)
    {
      assert front[..k] == events[..k];
    }
  }

  /** In any run a relay that is never in range is sent at most 1 + floor(t / 2) of a player's
      packets in any `t` seconds, and each as often as the relay is listed. */
  lemma RunRate(cfg: Config, anyID: nat, events: seq<Event>, id: nat, relay: Ip, from: int, t: nat)
    requires Callsigns(events) && Exec(cfg, anyID, events).1 == Done && OutOfRange(cfg, anyID, events, id, relay)
    ensures RelaySent(cfg, anyID, events, id, relay, from, from + t) <= CountOf(cfg.relays, relay) * (1 + t / 2)
  {
    hide OutOfRange, Exec, RelaySent, Spaced;
    var times := Forwards(cfg, anyID, events, id);
    ForcedAreUpdates(cfg, anyID, events, id);
    ForcedGaps(NEW_PLAYER, times);
    SpacedWithin(ForcedUpdates(NEW_PLAYER, times), NEW_PLAYER.lastRelayedToInactive, from, from + t);
    SentWhenForced(cfg, anyID, events, id, relay, from, from + t);
    Times(CountOf(cfg.relays, relay), Within(Forced(cfg, anyID, events, id), from, from + t), 1 + t / 2);
  }

  lemma Times(m: nat, a: nat, b: nat)
    requires a <= b
    ensures m * a <= m * b
  {
  }

  /** And it is never further behind than the update period: when a packet of a player is
      forwarded, the last forced one is at most that old. */
  lemma RunFresh(cfg: Config, anyID: nat, events: seq<Event>, id: nat)
    requires Callsigns(events) && Exec(cfg, anyID, events).1 == Done
    requires Forwards(cfg, anyID, events, id) != []
    ensures var times, forced := Forwards(cfg, anyID, events, id), Forced(cfg, anyID, events, id);
      times[|times| - 1] - (if forced == [] then 0 else forced[|forced| - 1]) <= UPDATE_INACTIVE_PERIOD
  {
    ForcedAreUpdates(cfg, anyID, events, id);
    LazyRelayFresh(NEW_PLAYER, Forwards(cfg, anyID, events, id));
  }

  /** Which relays a forwarded packet goes to: when the update is forced all of them,
      otherwise those in range; never the one it came from, and none at all for a remote
      player unless the server is a hub. */
  lemma RelaysServed(cfg: Config, s: Server, sender: nat, pkt: Packet, now: int, relay: Ip)
    requires sender < |s.players| && SenderStays(s.players, sender, now)
    ensures var s' := ForwardAccepted(cfg, s, sender, pkt, now).0;
      sender < |s'.players| &&
      var p := s'.players[sender];
      (ToRelay(relay) in RelayOutputs(RelaysFor(cfg, s'.players, p)) <==>
        && relay in cfg.relays && relay != p.address.ip && (p.isLocal || cfg.isHub)
        && (p.doUpdate || IsInRange(cfg, s'.players, relay, p)))
  {
    VisitedKeepsPlace(cfg, s, sender, pkt, now);
    hide Walked, Visit, IsInRange;
    var s' := ForwardAccepted(cfg, s, sender, pkt, now).0;
    var p := s'.players[sender];
    var to := RelaysFor(cfg, s'.players, p);
    assert ToRelay(relay) in RelayOutputs(to) <==> relay in to by {
      if relay in to {
        var k :| 0 <= k < |to| && to[k] == relay;
        assert RelayOutputs(to)[k] == ToRelay(relay);
      }
    }
  }
}
