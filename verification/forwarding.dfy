/** What forwarding one packet does: who gets it, what happens to the list, and
    how the accept rule and the forward rule of the network model come about. */
module Forwarding {
  import opened Wrappers
  import opened RelayRules
  import opened Players
  import opened Registry

  // ---------------------------------------------------------------------
  // The walk over the list

  /** Datagrams to clients, each at most once and in list order. */
  predicate InListOrder(sent: seq<Output>)
  {
    && (forall i :: 0 <= i < |sent| ==> sent[i].ToClient?)
    && (forall i, j :: 0 <= i < j < |sent| ==> sent[i].id < sent[j].id)
  }

  /** Every datagram goes to an entry that receives the packet. */
  lemma {:induction false} DeliveriesWanted(cfg: Config, from: Player, pkt: Packet, list: seq<Player>)
    ensures forall d :: d in Deliveries(cfg, from, pkt, list) ==>
              exists c :: c in list && Receives(cfg, from, pkt, c) && d == ToClient(c.id, c.address)
  {
    hide Receives;
    if list != [] {
      var n := |list| - 1;
      assert list == list[..n] + [list[n]];
      DeliveriesWanted(cfg, from, pkt, list[..n]);
    }
  }

  /** Every entry that receives the packet gets a datagram. */
  lemma {:induction false} DeliveriesComplete(cfg: Config, from: Player, pkt: Packet, list: seq<Player>)
    ensures forall c :: c in list && Receives(cfg, from, pkt, c) ==>
              ToClient(c.id, c.address) in Deliveries(cfg, from, pkt, list)
  {
    hide Receives;
    if list != [] {
      var n := |list| - 1;
      assert list == list[..n] + [list[n]];
      DeliveriesComplete(cfg, from, pkt, list[..n]);
    }
  }

  predicate Increasing(list: seq<Player>)
  {
    forall i, j :: 0 <= i < j < |list| ==> list[i].id < list[j].id
  }

  lemma {:induction false} DeliveriesInOrder(cfg: Config, from: Player, pkt: Packet, list: seq<Player>)
    requires Increasing(list)
    ensures InListOrder(Deliveries(cfg, from, pkt, list))
  {
    hide Receives;
    if list != [] {
      var n := |list| - 1;
      var sent := Deliveries(cfg, from, pkt, list[..n]);
      DeliveriesInOrder(cfg, from, pkt, list[..n]);
      DeliveriesWanted(cfg, from, pkt, list[..n]);
      forall k | 0 <= k < |sent|
        ensures sent[k].id < list[n].id
      {
        assert sent[k] in sent;
      }
    }
  }

  lemma DeliveriesExact(cfg: Config, from: Player, pkt: Packet, list: seq<Player>)
    requires Increasing(list)
    ensures forall c :: c in list ==>
              (ToClient(c.id, c.address) in Deliveries(cfg, from, pkt, list) <==> Receives(cfg, from, pkt, c))
  {
    hide Receives, Deliveries;
    DeliveriesComplete(cfg, from, pkt, list);
    DeliveriesWanted(cfg, from, pkt, list);
  }

  lemma {:induction false} VisitedExact(cfg: Config, from: Player, pkt: Packet, now: int, list: seq<Player>)
    ensures var after := Visited(cfg, from, pkt, now, list);
            && (forall c :: c in list && !c.TimedOut(now) ==> Visit(cfg, from, pkt, now, c) in after)
            && (forall p :: p in after ==> exists c :: c in list && !c.TimedOut(now) && p == Visit(cfg, from, pkt, now, c))
            && (forall c :: c in Overdue(now, list) <==> c in list && c.TimedOut(now))
  {
    if list != [] {
      hide Visit;
      var n := |list| - 1;
      assert list == list[..n] + [list[n]];
      VisitedExact(cfg, from, pkt, now, list[..n]);
    }
  }

  /** Exactly the overdue entries with errors leave the list; every other entry
      is visited once and keeps its place in the order. */
  ghost predicate ListAfterWalk(cfg: Config, s: Server, s': Server, from: Player, pkt: Packet, now: int)
  {
    && (forall c :: c in s.players && !c.TimedOut(now) ==> Visit(cfg, from, pkt, now, c) in s'.players)
    && (forall p :: p in s'.players ==>
          exists c :: c in s.players && !c.TimedOut(now) && p == Visit(cfg, from, pkt, now, c))
    && Increasing(s'.players)
    && s.dropped <= s'.dropped
    && (forall c :: c in s'.dropped[|s.dropped|..] <==> c in s.players && c.TimedOut(now))
  }

  lemma WholeWalk(cfg: Config, s: Server, from: Player, pkt: Packet, now: int)
    requires Increasing(s.players)
    ensures var w := Walked(cfg, s, from, pkt, now, |s.players|);
            w.out == s.out + Deliveries(cfg, from, pkt, s.players) && ListAfterWalk(cfg, s, w, from, pkt, now)
  {
    var list := s.players;
    assert list[..|list|] == list && list[|list|..] == [];
    VisitedExact(cfg, from, pkt, now, list);
    VisitedIncreasing(cfg, from, pkt, now, list);
    hide Visit, Deliveries, Visited, Overdue;
    var w := Walked(cfg, s, from, pkt, now, |list|);
    assert w.players == Visited(cfg, from, pkt, now, list);
    assert w.dropped[|s.dropped|..] == Overdue(now, list);
  }

  /** Forwarding an accepted packet whose sender stays in the list. It goes once,
      in list order, to exactly the local error-free players other than the
      sender who are close enough (to nobody for an observer), then to relays. */
  lemma FanOut(cfg: Config, s: Server, sender: nat, pkt: Packet, now: int)
    requires sender < |s.players| && WellOrdered(s.players, s.maxId)
    requires SenderStays(s.players, sender, now)
    ensures var (s', outcome) := ForwardAccepted(cfg, s, sender, pkt, now);
            var from := s.players[sender];
            var sent := Deliveries(cfg, from, pkt, s.players);
            && outcome == Done
            && sender < |s'.players|
            && s'.out == s.out + sent + RelayOutputs(RelaysFor(cfg, s'.players, s'.players[sender]))
            && InListOrder(sent)
            && (forall c :: c in s.players ==>
                  (ToClient(c.id, c.address) in sent <==>
                     && c.isLocal && !c.hasErrors && c.name != pkt.name && !pkt.IsObserver()
                     && cfg.distance(from.pos, c.pos) < c.radarRange as real))
            && (forall d :: d in sent ==> exists c :: c in s.players && d == ToClient(c.id, c.address))
            && ListAfterWalk(cfg, s, s', from, pkt, now)
  {
    var from := s.players[sender];
    DeliveriesExact(cfg, from, pkt, s.players);
    DeliveriesInOrder(cfg, from, pkt, s.players);
    DeliveriesWanted(cfg, from, pkt, s.players);
    WholeWalk(cfg, s, from, pkt, now);
    VisitedKeepsPlace(cfg, s, sender, pkt, now);
    hide Visit, Deliveries, Walked, RelaysFor, InListOrder;
  }

  lemma VisitedId(cfg: Config, from: Player, pkt: Packet, now: int, list: seq<Player>, p: Player)
    requires p in Visited(cfg, from, pkt, now, list)
    ensures exists c :: c in list && c.id == p.id
  {
    hide Visited, Visit;
    VisitedExact(cfg, from, pkt, now, list);
    var c :| c in list && !c.TimedOut(now) && p == Visit(cfg, from, pkt, now, c);
    VisitIdentity(cfg, from, pkt, now, c);
  }

  lemma {:induction false} VisitedIncreasing(cfg: Config, from: Player, pkt: Packet, now: int, list: seq<Player>)
    requires Increasing(list)
    ensures Increasing(Visited(cfg, from, pkt, now, list))
  {
    if list != [] {
      var n := |list| - 1;
      var front := Visited(cfg, from, pkt, now, list[..n]);
      VisitedIncreasing(cfg, from, pkt, now, list[..n]);
      VisitIdentity(cfg, from, pkt, now, list[n]);
      forall k | 0 <= k < |front|
        ensures front[k].id < list[n].id
      {
        assert front[k] in front;
        VisitedId(cfg, from, pkt, now, list[..n], front[k]);
      }
    }
  }

  /** What goes wrong otherwise: erasing an entry at or before the sender moves
      the list under the iterator, which then names the entry after the sender,
      or the end of the list. */
  lemma LostSenderNamesSuccessor(cfg: Config, s: Server, sender: nat, pkt: Packet, now: int)
    requires sender < |s.players| && !SenderStays(s.players, sender, now)
    ensures var (s', outcome) := ForwardAccepted(cfg, s, sender, pkt, now);
            && outcome == SenderLost
            && |s'.players| == |s.players| - 1
            && (sender + 1 < |s.players| ==> s'.players[sender] == s.players[sender + 1])
            && (sender + 1 == |s.players| ==> sender == |s'.players|)
  {
    hide Visited, Deliveries, Overdue, Visit;
    var list, k, from := s.players, FirstTimedOut(s.players, now), s.players[sender];
    VisitedPrefix(cfg, from, pkt, now, list, k);
    VisitedSnoc(cfg, from, pkt, now, list, k);
    assert k <= sender;
    assert Walked(cfg, s, from, pkt, now, k + 1).players == Visited(cfg, from, pkt, now, list[..k]) + list[k + 1..];
  }

  /** The packet of a pilot that nobody has heard of yet. */
  const FIRST_REPORT := Packet(None, false, PosData, "AB", (0.0, 0.0, 0.0), "", 0, 0, 0)

  const BAD_PACKET := Packet(Some("bad magic"), false, OtherKind, "", (0.0, 0.0, 0.0), "", 0, 0, 0)

  lemma BadSenderListed(cfg: Config, s: Server, a: Address)
    requires s.players == [] && s.blackList == []
    ensures var (s', outcome) := HandlePacket(cfg, s, a, BAD_PACKET, 0);
      && outcome == Done && s'.blackList == []
      && s'.players == [BadPlayer(cfg, a, "bad magic", true, 0, 0).(id := s.maxId + 1)]
  {
    assert LastAtIp(s.players, a.ip) == 0;
  }

  lemma FirstReportLoses(cfg: Config, s: Server, b: Address, now: int)
    requires |s.players| == 1 && s.players[0].name == BAD_CLIENT && s.players[0].TimedOut(now) && s.blackList == []
    ensures HandlePacket(cfg, s, b, FIRST_REPORT, now).1 == SenderLost
  {
    var s0 := s.(out := s.out + Crossfeed(cfg));
    assert "AB"[0] != BAD_CLIENT[0];
    IndexIs(s.players, "AB", 1);
    hide IndexOfName, Walked, SendToRelays, FirstTimedOut;
    var (s1, sender) := Accept(cfg, s0, b, FIRST_REPORT, now);
    assert sender == Some(1) && s1.players[0] == s.players[0];
    assert !SenderStays(s1.players, 1, now);
  }

  /** And a server does get there, whatever its settings: a sender of bad packets is listed
      and times out, and the first packet of a pilot comes before the next sweep. */
  lemma SenderIsLost(cfg: Config, anyID: nat, a: Address, b: Address)
    ensures exists events :: Exec(cfg, anyID, events).1 == SenderLost
  {
    var t := if cfg.playerExpires > 0 then cfg.playerExpires + 1 else 1;
    var first, second := PacketArrives(a, BAD_PACKET, 0), PacketArrives(b, FIRST_REPORT, t);
    var start := Exec(cfg, anyID, []).0;
    hide HandlePacket;
    BadSenderListed(cfg, start, a);
    assert [first][..0] == [] && [first, second][..1] == [first];
    assert Exec(cfg, anyID, [first]) == HandlePacket(cfg, start, a, BAD_PACKET, 0);
    var s := Exec(cfg, anyID, [first]).0;
    FirstReportLoses(cfg, s, b, t);
    assert Exec(cfg, anyID, [first, second]) == HandlePacket(cfg, s, b, FIRST_REPORT, t);
  }

  // ---------------------------------------------------------------------
  // The rules of the network model

  /** What the server remembers about a callsign. */
  function EntryOf(players: seq<Player>, name: string): Option<Entry>
  {
    var i := IndexOfName(players, name);
    if i < |players| then Some(Entry(players[i].address.ip, players[i].isLocal)) else None
  }

  lemma IndexIs(players: seq<Player>, name: string, i: nat)
    requires i <= |players| && (i < |players| ==> players[i].name == name)
    requires forall j :: 0 <= j < i ==> players[j].name != name
    ensures IndexOfName(players, name) == i
  {
  }

  lemma EntryUnchanged(a: seq<Player>, b: seq<Player>, name: string)
    requires SameIdentities(a, b)
    ensures EntryOf(a, name) == EntryOf(b, name)
  {
    IndexIs(b, name, IndexOfName(a, name));
  }

  lemma EntryAppended(players: seq<Player>, p: Player, name: string)
    ensures EntryOf(players + [p], name) ==
            if EntryOf(players, name).None? && p.name == name then Some(Entry(p.address.ip, p.isLocal))
            else EntryOf(players, name)
  {
    var i := IndexOfName(players, name);
    IndexIs(players + [p], name, if i == |players| && p.name != name then i + 1 else i);
  }

  lemma UnknownFollowsRule(cfg: Config, s: Server, from: Address, pkt: Packet, now: int, name: string)
    requires IndexOfName(s.players, pkt.name) == |s.players| && pkt.kind == PosData
    ensures var s' := AddClient(cfg, s, from, pkt, now);
            && IndexOfName(s'.players, pkt.name) == |s.players|
            && EntryOf(s'.players, name) ==
               if name == pkt.name then Some(Entry(from.ip, !pkt.relay)) else EntryOf(s.players, name)
  {
    var p := NewPlayer(cfg, from, pkt, now).(id := s.maxId + 1);
    assert AddClient(cfg, s, from, pkt, now).players == s.players + [p];
    EntryAppended(s.players, p, name);
    IndexIs(s.players + [p], pkt.name, |s.players|);
  }

  lemma UpdateKeepsIdentities(cfg: Config, s: Server, i: nat, pkt: Packet, now: int)
    requires i < |s.players|
    ensures SameIdentities(s.players, UpdateSender(cfg, s, i, pkt, now).0.players)
  {
  }

  lemma KnownFollowsRule(cfg: Config, s: Server, from: Address, pkt: Packet, now: int, name: string)
    requires IndexOfName(s.players, pkt.name) < |s.players|
    ensures var s' := Accept(cfg, s, from, pkt, now).0;
            && IndexOfName(s'.players, pkt.name) == IndexOfName(s.players, pkt.name)
            && EntryOf(s'.players, name) == EntryOf(s.players, name)
  {
    hide UpdateSender, AddClient;
    var i, s' := IndexOfName(s.players, pkt.name), Accept(cfg, s, from, pkt, now).0;
    var found := s.(players := s.players[i := s.players[i].(lastSeen := now)]);
    UpdateKeepsIdentities(cfg, found, i, pkt, now);
    assert SameIdentities(s.players, s'.players);
    EntryUnchanged(s.players, s'.players, name);
    assert s'.players[i].name == pkt.name;
    IndexIs(s'.players, pkt.name, i);
  }

  /** Accepting a packet follows the accept rule: it goes on exactly if the rule
      does not ignore it, and the entry of its callsign changes exactly when it
      is introduced. */
  lemma AcceptFollowsRule(cfg: Config, s: Server, from: Address, pkt: Packet, now: int, name: string)
    ensures var verdict := Judge(EntryOf(s.players, pkt.name), from.ip, pkt.Body());
            var (s', sender) := Accept(cfg, s, from, pkt, now);
            && (sender.Some? <==> verdict != Ignore)
            && (sender.Some? ==> sender.value == IndexOfName(s'.players, pkt.name))
            && EntryOf(s'.players, name) ==
               if verdict == Introduce && name == pkt.name then Some(Entry(from.ip, !pkt.relay))
               else EntryOf(s.players, name)
  {
    hide AddClient;
    if IndexOfName(s.players, pkt.name) == |s.players| {
      if pkt.kind == PosData {
        UnknownFollowsRule(cfg, s, from, pkt, now, name);
      }
    } else {
      KnownFollowsRule(cfg, s, from, pkt, now, name);
    }
  }

  /** Forwarding follows the forward rule, for some set of relays that want the
      packet at this moment. */
  lemma RelaysFollowRule(cfg: Config, s: Server, sender: nat, pkt: Packet, now: int)
    requires sender < |s.players| && SenderStays(s.players, sender, now)
    requires sender == IndexOfName(s.players, pkt.name)
    ensures var (s', _) := ForwardAccepted(cfg, s, sender, pkt, now);
            exists wanted ::
              s'.out == s.out + Deliveries(cfg, s.players[sender], pkt, s.players)
                        + RelayOutputs(RelayTargets(cfg.relays, cfg.isHub, EntryOf(s.players, pkt.name).value, wanted))
  {
    var from, list := s.players[sender], s.players;
    var w := Walked(cfg, s, from, pkt, now, |list|);
    VisitedKeepsPlace(cfg, s, sender, pkt, now);
    VisitIdentity(cfg, from, pkt, now, from);
    assert list[..|list|] == list;
    hide Visit, Deliveries, Visited, Overdue, WantedBy, RelayTargets;
    var wanted := WantedBy(cfg, w.players, w.players[sender]);
    assert EntryOf(list, pkt.name) == Some(Entry(from.address.ip, from.isLocal));
    assert ForwardAccepted(cfg, s, sender, pkt, now).0.out ==
           s.out + Deliveries(cfg, from, pkt, list)
           + RelayOutputs(RelayTargets(cfg.relays, cfg.isHub, Entry(from.address.ip, from.isLocal), wanted));
  }

  // ---------------------------------------------------------------------
  // Updates to inactive relays

  /** The times at which accepted packets of one player, at the given times, are
      forwarded to all relays whether in range or not. */
  function ForcedUpdates(p: Player, times: seq<int>): seq<int>
    decreases |times|
  {
    if times == [] then []
    else
      var q := CheckDue(p, times[0]);
      (if q.doUpdate then [times[0]] else []) + ForcedUpdates(q, times[1..])
  }

  /** Times at least two seconds apart, the first that long after `last`. */
  predicate Spaced(f: seq<int>, last: int)
  {
    && (forall i :: 0 <= i < |f| ==> f[i] - last >= 2 * (i + 1))
    && (forall i, j :: 0 <= i < j < |f| ==> f[j] - f[i] >= 2 * (j - i))
  }

  lemma SpacedCons(t: int, rest: seq<int>, last: int)
    requires Spaced(rest, t) && t - last >= 2
    ensures Spaced([t] + rest, last)
  {
    var f := [t] + rest;
    forall i | 0 <= i < |f|
      ensures f[i] - last >= 2 * (i + 1)
    {
      if i > 0 {
        assert f[i] == rest[i - 1];
      }
    }
    forall i, j | 0 <= i < j < |f|
      ensures f[j] - f[i] >= 2 * (j - i)
    {
      assert f[j] == rest[j - 1];
      if i > 0 {
        assert f[i] == rest[i - 1];
      }
    }
  }

  lemma {:induction false} ForcedGaps(p: Player, times: seq<int>)
    ensures Spaced(ForcedUpdates(p, times), p.lastRelayedToInactive)
    decreases |times|
  {
    hide Spaced;
    if times == [] {
      NothingSpaced(p.lastRelayedToInactive);
    } else {
      var q := CheckDue(p, times[0]);
      ForcedGaps(q, times[1..]);
      var rest := ForcedUpdates(q, times[1..]);
      if q.doUpdate {
        SpacedCons(times[0], rest, p.lastRelayedToInactive);
      } else {
        assert [] + rest == rest;
      }
    }
  }

  lemma NothingSpaced(last: int)
    ensures Spaced([], last)
  {
  }

  /** Two forced updates of a player are more than the update period apart, so
      any `t` seconds hold at most 1 + t / 2 of them. */
  lemma LazyRelayRate(p: Player, times: seq<int>, i: nat, j: nat, t: nat)
    requires i <= j < |ForcedUpdates(p, times)|
    requires ForcedUpdates(p, times)[j] - ForcedUpdates(p, times)[i] <= t
    ensures i < j ==> ForcedUpdates(p, times)[j] - ForcedUpdates(p, times)[i] > UPDATE_INACTIVE_PERIOD
    ensures j - i + 1 <= 1 + t / 2
  {
    ForcedGaps(p, times);
  }

  /** The last forced update, or whatever was there before the first one. */
  function LastForced(p: Player, times: seq<int>): int
  {
    var f := ForcedUpdates(p, times);
    if f == [] then p.lastRelayedToInactive else f[|f| - 1]
  }

  /** And updates do not dry up: at every accepted packet the last forced update
      is at most the update period ago. */
  lemma {:induction false} LazyRelayFresh(p: Player, times: seq<int>)
    requires times != []
    ensures times[|times| - 1] - LastForced(p, times) <= UPDATE_INACTIVE_PERIOD
    decreases |times|
  {
    var q := CheckDue(p, times[0]);
    var f, rest := ForcedUpdates(p, times), ForcedUpdates(q, times[1..]);
    assert f == if q.doUpdate then [times[0]] + rest else rest;
    if |times| > 1 {
      LazyRelayFresh(q, times[1..]);
    } else {
      assert rest == [];
    }
  }
}
