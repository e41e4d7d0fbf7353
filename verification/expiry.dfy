/** Who leaves the lists, and when, told by the packets that arrived: players that have not
    been heard of for the time configured, and blocked addresses that have been silent for
    two days. */
module Expiry {
  import opened RelayRules
  import opened ExpirySweep
  import opened Players
  import opened Registry
  import opened Forwarding
  import opened Histories
  import opened Delivery
  import L = LazyRelay

  /** Nothing has been heard of a player for longer than the time allowed. Where that time is
      zero, a player is given half a minute after it was listed. */
  ghost predicate Idle(cfg: Config, anyID: nat, events: seq<Event>, id: nat, now: int)
  {
    && now - LastHeard(cfg, anyID, events, id) > cfg.playerExpires
    && (cfg.playerExpires != 0 || now - JoinTime(cfg, anyID, events, id) > 30)
  }

  /** Expired entries are those of idle players. */
  lemma ExpiredIsIdle(cfg: Config, anyID: nat, events: seq<Event>, p: Player, now: int)
    requires IsTold(cfg, anyID, events, p)
    ensures PlayerExpired(now)(p) <==> Idle(cfg, anyID, events, p.id, now)
  {
  }

  function Sweeps(times: seq<int>): (events: seq<Event>)
    ensures |events| == |times|
  {
    seq(|times|, i requires 0 <= i < |times| => SweepDue(times[i]))
  }

  predicate Rising(times: seq<int>)
  {
    forall i, j :: 0 <= i < j < |times| ==> times[i] <= times[j]
  }

  lemma ExecSweep(cfg: Config, anyID: nat, events: seq<Event>, now: int)
    requires Exec(cfg, anyID, events).1 == Done
    ensures var s := Exec(cfg, anyID, events + [SweepDue(now)]).0;
      && Exec(cfg, anyID, events + [SweepDue(now)]).1 == Done
      && s.players == Sweep(Exec(cfg, anyID, events).0.players, PlayerExpired(now))
  {
    assert (events + [SweepDue(now)])[..|events|] == events;
  }

  lemma SweepsSnoc(events: seq<Event>, times: seq<int>)
    requires times != []
    ensures events + Sweeps(times) == events + Sweeps(times[..|times| - 1]) + [SweepDue(times[|times| - 1])]
  {
    assert Sweeps(times) == Sweeps(times[..|times| - 1]) + [SweepDue(times[|times| - 1])];
  }

  /** A sweep drops only players that are idle. */
  lemma OnlyIdleGo(cfg: Config, anyID: nat, events: seq<Event>, now: int, p: Player)
    requires L.Callsigns(events) && Exec(cfg, anyID, events).1 == Done && p in Exec(cfg, anyID, events).0.players
    requires p !in Exec(cfg, anyID, events + [SweepDue(now)]).0.players
    ensures Idle(cfg, anyID, events, p.id, now)
  {
    EntriesAreTold(cfg, anyID, events);
    ExecSweep(cfg, anyID, events, now);
    hide Exec, IsTold, Idle;
    var players, bad := Exec(cfg, anyID, events).0.players, PlayerExpired(now);
    SweepKeepsGood(players, bad);
    GoodHolds(players, bad, p);
    GoodHolds(Sweep(players, bad), bad, p);
    ExpiredIsIdle(cfg, anyID, events, p, now);
  }

  // ---------------------------------------------------------------------
  // How many sweeps it takes

  ghost predicate Agree<T>(s: seq<T>, a: T -> bool, b: T -> bool)
  {
    forall x :: x in s ==> a(x) == b(x)
  }

  lemma {:induction false} SweepAgrees<T>(s: seq<T>, a: T -> bool, b: T -> bool)
    requires Agree(s, a, b)
    ensures Sweep(s, a) == Sweep(s, b)
    decreases |s|
  {
    if s != [] {
      assert s[0] in s;
      if !a(s[0]) {
        SweepAgrees(s[1..], a, b);
      } else if |s| > 1 {
        SweepAgrees(s[2..], a, b);
      }
    }
  }

  lemma {:induction false} SweepTimesSnoc<T>(k: nat, s: seq<T>, bad: T -> bool)
    ensures SweepTimes(k + 1, s, bad) == Sweep(SweepTimes(k, s, bad), bad)
  {
    if k > 0 {
      SweepTimesSnoc(k - 1, Sweep(s, bad), bad);
    }
  }

  lemma {:induction false} SweepTimesHolds<T>(k: nat, s: seq<T>, bad: T -> bool, x: T)
    requires x in SweepTimes(k, s, bad)
    ensures x in s
  {
    if k > 0 {
      SweepTimesHolds(k - 1, Sweep(s, bad), bad, x);
      SweepKeepsGood(s, bad);
    }
  }

  /** Sweeps at times between which nobody becomes idle are like sweeps at the first time. */
  lemma {:induction false} SameSweeps(cfg: Config, anyID: nat, events: seq<Event>, times: seq<int>, from: int)
    requires Exec(cfg, anyID, events).1 == Done
    requires forall i :: 0 <= i < |times| ==>
      Agree(Exec(cfg, anyID, events).0.players, PlayerExpired(from), PlayerExpired(times[i]))
    ensures Exec(cfg, anyID, events + Sweeps(times)).1 == Done
    ensures Exec(cfg, anyID, events + Sweeps(times)).0.players ==
            SweepTimes(|times|, Exec(cfg, anyID, events).0.players, PlayerExpired(from))
  {
    hide Exec, Sweep;
    var players, bad := Exec(cfg, anyID, events).0.players, PlayerExpired(from);
    if times == [] {
      assert events + Sweeps(times) == events;
    } else {
      var n := |times| - 1;
      var front := times[..n];
      SameSweeps(cfg, anyID, events, front, from);
      SweepsSnoc(events, times);
      ExecSweep(cfg, anyID, events + Sweeps(front), times[n]);
      var left := SweepTimes(n, players, bad);
      assert Agree(players, bad, PlayerExpired(times[n]));
      forall p | p in left
        ensures bad(p) == PlayerExpired(times[n])(p)
      {
        SweepTimesHolds(n, players, bad, p);
      }
      SweepAgrees(left, bad, PlayerExpired(times[n]));
      SweepTimesSnoc(n, players, bad);
    }
  }

  /** After floor(log2 n) + 1 sweeps of a list of n exactly the idle players are gone, if
      nobody becomes idle between the sweeps. */
  lemma IdleAreGone(cfg: Config, anyID: nat, events: seq<Event>, times: seq<int>, p: Player)
    requires L.Callsigns(events) && Exec(cfg, anyID, events).1 == Done && p in Exec(cfg, anyID, events).0.players
    requires times != [] && Rising(times) && |Exec(cfg, anyID, events).0.players| < Pow2(|times|)
    requires forall q :: q in Exec(cfg, anyID, events).0.players && Idle(cfg, anyID, events, q.id, times[|times| - 1]) ==>
      Idle(cfg, anyID, events, q.id, times[0])
    ensures p in Exec(cfg, anyID, events + Sweeps(times)).0.players <==> !Idle(cfg, anyID, events, p.id, times[0])
  {
    EntriesAreTold(cfg, anyID, events);
    var players, bad := Exec(cfg, anyID, events).0.players, PlayerExpired(times[0]);
    hide Exec, IsTold, Sweep, Idle, SweepTimes, Pow2, Good;
    forall i | 0 <= i < |times|
      ensures Agree(players, bad, PlayerExpired(times[i]))
    {
      IdleAgrees(cfg, anyID, events, times, players, i);
    }
    SameSweeps(cfg, anyID, events, times, times[0]);
    SweepsClear(|times|, players, bad);
    GoodHolds(players, bad, p);
    ExpiredIsIdle(cfg, anyID, events, p, times[0]);
  }

  lemma IdleAgrees(cfg: Config, anyID: nat, events: seq<Event>, times: seq<int>, players: seq<Player>, i: nat)
    requires i < |times| && Rising(times) && forall q :: q in players ==> IsTold(cfg, anyID, events, q)
    requires forall q :: q in players && Idle(cfg, anyID, events, q.id, times[|times| - 1]) ==>
      Idle(cfg, anyID, events, q.id, times[0])
    ensures Agree(players, PlayerExpired(times[0]), PlayerExpired(times[i]))
  {
    hide IsTold, Idle, PlayerExpired;
    forall q | q in players
      ensures PlayerExpired(times[0])(q) == PlayerExpired(times[i])(q)
    {
      ExpiredIsIdle(cfg, anyID, events, q, times[0]);
      ExpiredIsIdle(cfg, anyID, events, q, times[i]);
      if Idle(cfg, anyID, events, q.id, times[0]) {
        IdleLater(cfg, anyID, events, q.id, times[0], times[i]);
      }
      if Idle(cfg, anyID, events, q.id, times[i]) {
        IdleLater(cfg, anyID, events, q.id, times[i], times[|times| - 1]);
      }
    }
  }

  /** Otherwise it can take longer: the last of three entries outlives two sweeps although it
      was idle before both, when the first becomes idle between them. */
  lemma IdleBetweenSweeps(a: Player, b: Player, c: Player, first: int, second: int)
    requires !a.Expired(first) && b.Expired(first) && c.Expired(first)
    requires a.Expired(second)
    ensures Sweep(Sweep([a, b, c], PlayerExpired(first)), PlayerExpired(second)) == [c]
  {
    var bad := PlayerExpired(first);
    assert [a, b, c][1..] == [b, c] && [b, c][2..] == [];
    assert Sweep([b, c], bad) == [c] + Sweep([], bad);
    assert Sweep([a, b, c], bad) == [a, c];
    assert [a, c][2..] == [];
  }

  ghost predicate NoTwice<T>(s: seq<T>)
  {
    forall i, j :: 0 <= i < j < |s| ==> s[i] != s[j]
  }

  /** An expired element that a sweep leaves moves forward. */
  lemma {:induction false} LeftMovesUp<T>(s: seq<T>, bad: T -> bool, i: nat)
    requires NoTwice(s) && i < |s| && bad(s[i]) && s[i] in Sweep(s, bad)
    ensures exists j :: 0 <= j < i && j < |Sweep(s, bad)| && Sweep(s, bad)[j] == s[i]
    decreases |s|
  {
    hide Sweep, Erased;
    SweepSteps(s, bad);
    SweepKeepsGood(s, bad);
    if !bad(s[0]) {
      var rest := s[1..];
      assert s[i] == rest[i - 1];
      LeftMovesUp(rest, bad, i - 1);
      var j :| 0 <= j < i - 1 && j < |Sweep(rest, bad)| && Sweep(rest, bad)[j] == s[i];
      assert Sweep(s, bad)[j + 1] == s[i];
    } else if i == 0 {
      NotInRest(s, bad);
    } else if i == 1 {
      assert Sweep(s, bad)[0] == s[1];
    } else {
      var rest := s[2..];
      assert s[i] == rest[i - 2] && s[i] != s[1];
      LeftMovesUp(rest, bad, i - 2);
      var j :| 0 <= j < i - 2 && j < |Sweep(rest, bad)| && Sweep(rest, bad)[j] == s[i];
      assert Sweep(s, bad)[j + 1] == s[i];
    }
  }

  lemma NotInRest<T>(s: seq<T>, bad: T -> bool)
    requires NoTwice(s) && s != [] && bad(s[0])
    ensures s[0] !in Sweep(s, bad)
  {
    SweepSteps(s, bad);
    if |s| > 1 {
      SweepKeepsGood(s[2..], bad);
      assert forall x :: x in s[2..] ==> x != s[0];
    }
  }

  lemma OrderedNoTwice(players: seq<Player>, maxId: nat)
    requires WellOrdered(players, maxId)
    ensures NoTwice(players)
  {
  }

  /** Each sweep that leaves an idle player moves it forward in the list. */
  lemma {:induction false} EverySweepMovesUp(cfg: Config, anyID: nat, events: seq<Event>, times: seq<int>, i: nat)
    requires L.Callsigns(events) && Exec(cfg, anyID, events).1 == Done && Rising(times) && times != []
    requires i < |Exec(cfg, anyID, events).0.players|
    requires Idle(cfg, anyID, events, Exec(cfg, anyID, events).0.players[i].id, times[0])
    ensures Exec(cfg, anyID, events + Sweeps(times)).1 == Done
    ensures var p, left := Exec(cfg, anyID, events).0.players[i], Exec(cfg, anyID, events + Sweeps(times)).0.players;
      p in left ==> exists j: nat :: j < |left| && left[j] == p && j + |times| <= i
  {
    hide Exec, Sweep, Idle, IsTold, NoTwice, WellOrdered;
    var p, n := Exec(cfg, anyID, events).0.players[i], |times| - 1;
    var front, all := events + Sweeps(times[..n]), events + Sweeps(times);
    EntriesAreTold(cfg, anyID, events);
    IdleLater(cfg, anyID, events, p.id, times[0], times[n]);
    ExpiredIsIdle(cfg, anyID, events, p, times[n]);
    SweepsSnoc(events, times);
    if n == 0 {
      assert Sweeps(times[..0]) == [] && front == events;
    } else {
      EverySweepMovesUp(cfg, anyID, events, times[..n], i);
    }
    ExecSweep(cfg, anyID, front, times[n]);
    var before, left, bad := Exec(cfg, anyID, front).0.players, Exec(cfg, anyID, all).0.players, PlayerExpired(times[n]);
    if p in left {
      SweepKeepsGood(before, bad);
      var j: nat :| j < |before| && before[j] == p && j + n <= i;
      RunKeepsInv(cfg, anyID, front);
      RunOrder(cfg, Exec(cfg, anyID, front).0);
      LeftMovesUp(before, bad, j);
      var k :| 0 <= k < j && k < |left| && left[k] == p;
    }
  }

  lemma RunOrder(cfg: Config, s: Server)
    requires Inv(cfg, s)
    ensures NoTwice(s.players)
  {
    OrderedNoTwice(s.players, s.maxId);
  }

  lemma IdleLater(cfg: Config, anyID: nat, events: seq<Event>, id: nat, now: int, later: int)
    requires Idle(cfg, anyID, events, id, now) && now <= later
    ensures Idle(cfg, anyID, events, id, later)
  {
  }

  /** So whatever the times, an idle player is gone after as many sweeps as there are entries. */
  lemma IdleAreGoneAtLast(cfg: Config, anyID: nat, events: seq<Event>, times: seq<int>, p: Player)
    requires L.Callsigns(events) && Exec(cfg, anyID, events).1 == Done && p in Exec(cfg, anyID, events).0.players
    requires Rising(times) && |times| >= |Exec(cfg, anyID, events).0.players|
    requires Idle(cfg, anyID, events, p.id, times[0])
    ensures p !in Exec(cfg, anyID, events + Sweeps(times)).0.players
  {
    hide Exec, Idle;
    var i :| 0 <= i < |Exec(cfg, anyID, events).0.players| && Exec(cfg, anyID, events).0.players[i] == p;
    EverySweepMovesUp(cfg, anyID, events, times, i);
  }

  // ---------------------------------------------------------------------
  // Senders of bad packets

  /** Accepting a packet keeps every entry, and leaves those with errors alone. */
  lemma AcceptKeepsEach(cfg: Config, s: Server, s0: Server, ev: Event, p: Player)
    requires Regular(cfg, s) && ev.PacketArrives? && ev.pkt.name != BAD_CLIENT && s0 == s.(out := s0.out)
    requires p in s.players
    ensures exists c :: c in Accept(cfg, s0, ev.from, ev.pkt, ev.now).0.players
                        && c.id == p.id && c.hasErrors == p.hasErrors && (p.hasErrors ==> c == p)
  {
    var k :| 0 <= k < |s.players| && s.players[k] == p;
    var i := IndexOfName(s.players, ev.pkt.name);
    var after := Accept(cfg, s0, ev.from, ev.pkt, ev.now).0.players;
    if i < |s.players| {
      var found := s0.(players := s.players[i := s.players[i].(lastSeen := ev.now)]);
      L.UpdateKeeps(cfg, found, i, ev.pkt, ev.now);
    }
    hide UpdateSender;
    assert k < |after| && after[k].id == p.id && after[k].hasErrors == p.hasErrors && (p.hasErrors ==> after[k] == p);
    assert after[k] in after;
  }

  /** The walk over the list drops exactly the entries with errors that have been silent. */
  lemma WalkDrops(cfg: Config, s1: Server, sender: nat, pkt: Packet, now: int, c: Player)
    requires sender < |s1.players| && SenderStays(s1.players, sender, now) && c in s1.players
    requires WellOrdered(s1.players, s1.maxId)
    ensures (exists q :: q in ForwardAccepted(cfg, s1, sender, pkt, now).0.players && q.id == c.id) <==>
            !(c.hasErrors && now - c.lastSeen > c.timeout)
  {
    hide ForwardAccepted, Visited, Visit, SenderStays, WellOrdered;
    var from, list := s1.players[sender], s1.players;
    ForwardVisits(cfg, s1, sender, pkt, now);
    VisitedExact(cfg, from, pkt, now, list);
    VisitKeepsFacts(cfg, from, pkt, now, c);
    forall q | q in Visited(cfg, from, pkt, now, list) && q.id == c.id
      ensures !c.TimedOut(now)
    {
      var d :| d in list && !d.TimedOut(now) && q == Visit(cfg, from, pkt, now, d);
      VisitKeepsFacts(cfg, from, pkt, now, d);
      SameId(s1, c, d);
    }
  }

  lemma ForwardVisits(cfg: Config, s1: Server, sender: nat, pkt: Packet, now: int)
    requires sender < |s1.players| && SenderStays(s1.players, sender, now)
    ensures ForwardAccepted(cfg, s1, sender, pkt, now).0.players == Visited(cfg, s1.players[sender], pkt, now, s1.players)
  {
    VisitedKeepsPlace(cfg, s1, sender, pkt, now);
    hide Visited, Deliveries, Overdue, RelaysFor;
    assert s1.players[..|s1.players|] == s1.players;
  }

  lemma SameId(s: Server, c: Player, d: Player)
    requires WellOrdered(s.players, s.maxId) && c in s.players && d in s.players && c.id == d.id
    ensures c == d
  {
  }

  lemma NotAcceptedKeeps(cfg: Config, s: Server, ev: Event, p: Player)
    requires Regular(cfg, s) && ev.PacketArrives? && ev.pkt.name != BAD_CLIENT && !Accepted(cfg, s, ev) && p in s.players
    ensures exists q :: q in React(cfg, s, ev).0.players && q.id == p.id
  {
    var s0 := s.(out := s.out + Crossfeed(cfg));
    BlockedIs(s, ev);
    if Heard(cfg, s, ev) {
      SenderIffAccepted(cfg, s, s0, ev);
      HeardReacts(cfg, s, ev);
      AcceptKeepsEach(cfg, s, s0, ev, p);
    } else if ev.pkt.fault.Some? && Arrives(s, ev) {
      var k :| 0 <= k < |s.players| && s.players[k] == p;
      var after := React(cfg, s, ev).0.players;
      assert after[k].id == p.id && after[k] in after;
    } else {
      hide Accept, ForwardAccepted, IsBlocked, Accepted, MarkSeen, LastAtIp;
      assert React(cfg, s, ev).0.players == s.players;
    }
  }

  /** A packet drops exactly those senders of bad packets, and only if it is accepted, of whom
      nothing has come for longer than the time allowed. */
  lemma BadClientsGo(cfg: Config, anyID: nat, events: seq<Event>, ev: Event, p: Player)
    requires L.Callsigns(events) && Exec(cfg, anyID, events).1 == Done && p in Exec(cfg, anyID, events).0.players
    requires var s := Exec(cfg, anyID, events).0;
      ev.PacketArrives? && ev.pkt.name != BAD_CLIENT && React(cfg, s, ev).1 == Done
    ensures var s := Exec(cfg, anyID, events).0;
      (exists q :: q in React(cfg, s, ev).0.players && q.id == p.id) <==>
      !(Accepted(cfg, s, ev) && p.hasErrors && ev.now - LastHeard(cfg, anyID, events, p.id) > cfg.playerExpires)
  {
    var s := Exec(cfg, anyID, events).0;
    EntriesAreTold(cfg, anyID, events);
    RunIsRegular(cfg, anyID, events);
    assert IsTold(cfg, anyID, events, p);
    hide Exec, React, Accepted, Regular, LastHeard, Accept, ForwardAccepted, SenderStays, Inv;
    if Accepted(cfg, s, ev) {
      AcceptedKeeps(cfg, s, ev, p);
    } else {
      NotAcceptedKeeps(cfg, s, ev, p);
    }
  }

  lemma AcceptedKeeps(cfg: Config, s: Server, ev: Event, p: Player)
    requires Regular(cfg, s) && Accepted(cfg, s, ev) && ev.pkt.name != BAD_CLIENT && React(cfg, s, ev).1 == Done
    requires p in s.players
    ensures (exists q :: q in React(cfg, s, ev).0.players && q.id == p.id) <==>
            !(p.hasErrors && ev.now - p.lastSeen > p.timeout)
  {
    AcceptedIsHeard(cfg, s, ev);
    var s0 := s.(out := s.out + Crossfeed(cfg));
    SenderIffAccepted(cfg, s, s0, ev);
    HeardReacts(cfg, s, ev);
    SameForInv(cfg, s, s0);
    AcceptKeepsInv(cfg, s0, ev.from, ev.pkt, ev.now);
    AcceptKeepsEach(cfg, s, s0, ev, p);
    hide Accept, ForwardAccepted, React, Accepted, Inv, SenderStays, Crossfeed;
    var r := Accept(cfg, s0, ev.from, ev.pkt, ev.now);
    DoneStays(cfg, r.0, r.1.value, ev.pkt, ev.now);
    InvOrder(cfg, r.0);
    var c :| c in r.0.players && c.id == p.id && c.hasErrors == p.hasErrors && (p.hasErrors ==> c == p);
    WalkDrops(cfg, r.0, r.1.value, ev.pkt, ev.now, c);
  }

  // ---------------------------------------------------------------------
  // Blocked addresses

  /** When a packet last came from an address. */
  function LastPacket(events: seq<Event>, ip: Ip): int
  {
    if events == [] then 0
    else
      var ev := events[|events| - 1];
      if ev.PacketArrives? && ev.from.ip == ip then ev.now else LastPacket(events[..|events| - 1], ip)
  }

  /** Nothing has come from an address for more than two days. */
  predicate Silent(events: seq<Event>, ip: Ip, now: int)
  {
    now - LastPacket(events, ip) > 172800
  }

  ghost predicate BlocksTold(events: seq<Event>, list: seq<BlockEntry>)
  {
    forall b :: b in list ==> b.timeout == 172800 && b.lastSeen == LastPacket(events, b.ip)
  }

  lemma LastPacketSnoc(events: seq<Event>, ev: Event, ip: Ip)
    ensures LastPacket(events + [ev], ip) ==
      if ev.PacketArrives? && ev.from.ip == ip then ev.now else LastPacket(events, ip)
  {
    assert (events + [ev])[..|events|] == events;
  }

  /** A packet that claims to come from a server that is not known. */
  predicate FromStranger(cfg: Config, ev: Event)
  {
    ev.PacketArrives? && ev.pkt.fault.None? && ev.pkt.relay
    && ev.from.ip !in cfg.whitelist && ev.from.ip !in cfg.relays
  }

  /** What an event does to the blacklist. */
  lemma BlackListStep(cfg: Config, s: Server, ev: Event)
    ensures var list := React(cfg, s, ev).0.blackList;
      if ev.BlackListSweepDue? then list == Sweep(s.blackList, BlockExpired(ev.now))
      else if ev.PacketArrives? && IsBlocked(s.blackList, ev.from.ip) then list == MarkBlocked(s.blackList, ev.from.ip, ev.now)
      else if FromStranger(cfg, ev) then list == s.blackList + [BlockEntry(ev.from.ip, 172800, ev.now)]
      else list == s.blackList
  {
    hide IsBlocked, MarkSeen, Sweep, Visited, Deliveries, Overdue, IndexOfName, LastAtIp;
  }

  lemma StepBlocksTold(cfg: Config, events: seq<Event>, s: Server, ev: Event)
    requires BlocksTold(events, s.blackList)
    ensures BlocksTold(events + [ev], React(cfg, s, ev).0.blackList)
  {
    BlackListStep(cfg, s, ev);
    hide React, Sweep;
    var list := React(cfg, s, ev).0.blackList;
    if ev.BlackListSweepDue? {
      SweepKeepsGood(s.blackList, BlockExpired(ev.now));
    }
    forall b | b in list
      ensures b.timeout == 172800 && b.lastSeen == LastPacket(events + [ev], b.ip)
    {
      LastPacketSnoc(events, ev, b.ip);
      var i :| 0 <= i < |list| && list[i] == b;
      assert i < |s.blackList| && !ev.BlackListSweepDue? ==> s.blackList[i] in s.blackList;
    }
  }

  /** In every run each block lasts two days from the last packet of its address. */
  lemma {:induction false} BlocksAreTold(cfg: Config, anyID: nat, events: seq<Event>)
    requires Exec(cfg, anyID, events).1 == Done
    ensures BlocksTold(events, Exec(cfg, anyID, events).0.blackList)
  {
    hide BlocksTold, React, Exec;
    if events == [] {
      StartIsEmpty(cfg, anyID);
      NoBlocks();
    } else {
      var front, ev := events[..|events| - 1], events[|events| - 1];
      L.ExecSnoc(cfg, anyID, events);
      BlocksAreTold(cfg, anyID, front);
      assert front + [ev] == events;
      StepBlocksTold(cfg, front, Exec(cfg, anyID, front).0, ev);
    }
  }

  lemma NoBlocks()
    ensures BlocksTold([], [])
  {
  }

  lemma BlockedIsIn(list: seq<BlockEntry>, ip: Ip)
    ensures IsBlocked(list, ip) <==> exists b :: b in list && b.ip == ip
  {
    if b :| b in list && b.ip == ip {
      var i :| 0 <= i < |list| && list[i] == b;
    }
    if i :| 0 <= i < |list| && list[i].ip == ip {
      assert list[i] in list;
    }
  }

  /** A sweep of the blacklist keeps every address that sent something in the last two days. */
  lemma BlockStays(cfg: Config, anyID: nat, events: seq<Event>, now: int, ip: Ip)
    requires Exec(cfg, anyID, events).1 == Done && IsBlocked(Exec(cfg, anyID, events).0.blackList, ip)
    requires !Silent(events, ip, now)
    ensures IsBlocked(Exec(cfg, anyID, events + [BlackListSweepDue(now)]).0.blackList, ip)
  {
    BlocksAreTold(cfg, anyID, events);
    assert (events + [BlackListSweepDue(now)])[..|events|] == events;
    hide IsBlocked, Sweep;
    var list, bad := Exec(cfg, anyID, events).0.blackList, BlockExpired(now);
    BlockedIsIn(list, ip);
    var b :| b in list && b.ip == ip;
    SweepKeepsGood(list, bad);
    GoodHolds(list, bad, b);
    GoodHolds(Sweep(list, bad), bad, b);
    BlockedIsIn(Sweep(list, bad), ip);
  }

  function BlockSweeps(times: seq<int>): (events: seq<Event>)
    ensures |events| == |times|
  {
    seq(|times|, i requires 0 <= i < |times| => BlackListSweepDue(times[i]))
  }

  lemma ExecBlockSweep(cfg: Config, anyID: nat, events: seq<Event>, now: int)
    requires Exec(cfg, anyID, events).1 == Done
    ensures var s := Exec(cfg, anyID, events + [BlackListSweepDue(now)]).0;
      && Exec(cfg, anyID, events + [BlackListSweepDue(now)]).1 == Done
      && s.blackList == Sweep(Exec(cfg, anyID, events).0.blackList, BlockExpired(now))
  {
    assert (events + [BlackListSweepDue(now)])[..|events|] == events;
  }

  lemma {:induction false} SameBlockSweeps(cfg: Config, anyID: nat, events: seq<Event>, times: seq<int>, from: int)
    requires Exec(cfg, anyID, events).1 == Done
    requires forall i :: 0 <= i < |times| ==>
      Agree(Exec(cfg, anyID, events).0.blackList, BlockExpired(from), BlockExpired(times[i]))
    ensures Exec(cfg, anyID, events + BlockSweeps(times)).1 == Done
    ensures Exec(cfg, anyID, events + BlockSweeps(times)).0.blackList ==
            SweepTimes(|times|, Exec(cfg, anyID, events).0.blackList, BlockExpired(from))
  {
    hide Exec, Sweep;
    var list, bad := Exec(cfg, anyID, events).0.blackList, BlockExpired(from);
    if times == [] {
      assert events + BlockSweeps(times) == events;
    } else {
      var n := |times| - 1;
      var front := times[..n];
      SameBlockSweeps(cfg, anyID, events, front, from);
      assert BlockSweeps(times) == BlockSweeps(front) + [BlackListSweepDue(times[n])];
      assert events + BlockSweeps(times) == events + BlockSweeps(front) + [BlackListSweepDue(times[n])];
      ExecBlockSweep(cfg, anyID, events + BlockSweeps(front), times[n]);
      var left := SweepTimes(n, list, bad);
      assert Agree(list, bad, BlockExpired(times[n]));
      forall x | x in left
        ensures bad(x) == BlockExpired(times[n])(x)
      {
        SweepTimesHolds(n, list, bad, x);
      }
      SweepAgrees(left, bad, BlockExpired(times[n]));
      SweepTimesSnoc(n, list, bad);
    }
  }

  lemma SilentAgree(events: seq<Event>, list: seq<BlockEntry>, times: seq<int>, i: nat)
    requires BlocksTold(events, list) && Rising(times) && i < |times|
    requires forall x :: IsBlocked(list, x) && Silent(events, x, times[|times| - 1]) ==> Silent(events, x, times[0])
    ensures Agree(list, BlockExpired(times[0]), BlockExpired(times[i]))
  {
    hide IsBlocked, LastPacket;
    forall x | x in list
      ensures BlockExpired(times[0])(x) == BlockExpired(times[i])(x)
    {
      BlockedIsIn(list, x.ip);
      assert i == |times| - 1 || times[i] <= times[|times| - 1];
      assert i == 0 || times[0] <= times[i];
      assert Silent(events, x.ip, times[|times| - 1]) ==> Silent(events, x.ip, times[0]);
    }
  }

  /** And after floor(log2 n) + 1 sweeps of a blacklist of n, between which nobody falls silent,
      exactly the silent addresses are unblocked. */
  lemma SilentIsUnblocked(cfg: Config, anyID: nat, events: seq<Event>, times: seq<int>, ip: Ip)
    requires Exec(cfg, anyID, events).1 == Done
    requires times != [] && Rising(times) && |Exec(cfg, anyID, events).0.blackList| < Pow2(|times|)
    requires forall x :: IsBlocked(Exec(cfg, anyID, events).0.blackList, x) && Silent(events, x, times[|times| - 1]) ==>
      Silent(events, x, times[0])
    ensures IsBlocked(Exec(cfg, anyID, events + BlockSweeps(times)).0.blackList, ip) <==>
            IsBlocked(Exec(cfg, anyID, events).0.blackList, ip) && !Silent(events, ip, times[0])
  {
    hide IsBlocked, Sweep, SweepTimes, Exec, LastPacket;
    var list, bad := Exec(cfg, anyID, events).0.blackList, BlockExpired(times[0]);
    BlocksAreTold(cfg, anyID, events);
    forall i | 0 <= i < |times|
      ensures Agree(list, bad, BlockExpired(times[i]))
    {
      SilentAgree(events, list, times, i);
    }
    SameBlockSweeps(cfg, anyID, events, times, times[0]);
    SweepsClear(|times|, list, bad);
    BlockedIsIn(Good(list, bad), ip);
    BlockedIsIn(list, ip);
    forall b | b in list
      ensures b in Good(list, bad) <==> !Silent(events, b.ip, times[0])
    {
      GoodHolds(list, bad, b);
    }
    forall b | b in Good(list, bad)
      ensures b in list
    {
      GoodHolds(list, bad, b);
    }
  }

  /** The blacklist is swept in time while the address keeps sending. */
  ghost predicate NeverSilent(events: seq<Event>, from: nat, ip: Ip)
  {
    forall j :: from < j < |events| && events[j].BlackListSweepDue? ==>
      !Silent(events[..j], ip, events[j].now)
  }

  /** A stranger is blocked from its first relayed packet on for as long as it is never silent
      for more than two days. */
  lemma {:induction false} StrangerStaysBlocked(cfg: Config, anyID: nat, events: seq<Event>, k: nat)
    requires Exec(cfg, anyID, events).1 == Done
    requires k < |events| && FromStranger(cfg, events[k]) && NeverSilent(events, k, events[k].from.ip)
    ensures IsBlocked(Exec(cfg, anyID, events).0.blackList, events[k].from.ip)
    decreases |events|
  {
    var front, ev, ip := events[..|events| - 1], events[|events| - 1], events[k].from.ip;
    L.ExecSnoc(cfg, anyID, events);
    assert front + [ev] == events;
    hide Exec, React, IsBlocked, FromStranger;
    var s := Exec(cfg, anyID, front).0;
    BlackListStep(cfg, s, ev);
    BlockedIsIn(s.blackList, ip);
    BlockedIsIn(React(cfg, s, ev).0.blackList, ip);
    if k == |front| {
      StrangerIsBlocked(cfg, s, ev);
    } else {
      assert NeverSilent(front, k, ip) by {
        forall j | k < j < |front| && front[j].BlackListSweepDue?
          ensures !Silent(front[..j], ip, front[j].now)
        {
          assert front[..j] == events[..j];
        }
      }
      StrangerStaysBlocked(cfg, anyID, front, k);
      if ev.BlackListSweepDue? {
        assert events[..|front|] == front;
        BlockStays(cfg, anyID, front, ev.now, ip);
      } else {
        BlockedStays(cfg, s, ev, ip);
      }
    }
  }

  lemma StrangerIsBlocked(cfg: Config, s: Server, ev: Event)
    requires FromStranger(cfg, ev)
    ensures IsBlocked(React(cfg, s, ev).0.blackList, ev.from.ip)
  {
    BlackListStep(cfg, s, ev);
    var list := React(cfg, s, ev).0.blackList;
    hide React;
    if IsBlocked(s.blackList, ev.from.ip) {
      var i :| 0 <= i < |s.blackList| && s.blackList[i].ip == ev.from.ip;
      assert list[i].ip == ev.from.ip;
    } else {
      assert list[|s.blackList|].ip == ev.from.ip;
    }
  }

  lemma BlockedStays(cfg: Config, s: Server, ev: Event, ip: Ip)
    requires IsBlocked(s.blackList, ip) && !ev.BlackListSweepDue?
    ensures IsBlocked(React(cfg, s, ev).0.blackList, ip)
  {
    BlackListStep(cfg, s, ev);
    var list := React(cfg, s, ev).0.blackList;
    hide React;
    var i :| 0 <= i < |s.blackList| && s.blackList[i].ip == ip;
    assert list[i].ip == ip;
  }

  /** And nothing that comes from a blocked address has any effect, but that it is passed on
      to the crossfeed targets and prolongs the block. */
  lemma BlockedIsIgnored(cfg: Config, s: Server, ev: Event)
    requires ev.PacketArrives? && IsBlocked(s.blackList, ev.from.ip)
    ensures var s' := React(cfg, s, ev).0;
      && React(cfg, s, ev).1 == Done
      && s' == s.(out := s'.out, blackList := s'.blackList)
      && |s'.out| == |s.out| + |cfg.crossfeeds| && s.out <= s'.out
      && forall i :: 0 <= i < |cfg.crossfeeds| ==> s'.out[|s.out| + i] == ToCrossfeed(cfg.crossfeeds[i])
  {
  }
}
