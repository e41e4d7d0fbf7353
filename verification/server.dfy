/** One relay server, with its lists walked and changed in place. */
module RelayServer {
  import opened Wrappers
  import opened RelayRules
  import opened ExpirySweep
  import opened Players

  class FgServer {
    const cfg: Config
    var playerList: seq<Player>
    var maxID: nat
    var pktsRcvd: int
    var bytesRcvd: int
    var pktsSent: int
    var bytesSent: int
    var localClients: int
    var remoteClients: int
    var numMaxClients: nat
    var blackList: seq<BlockEntry>
    var trackerQueue: seq<TrackMsg>
    var output: seq<Output>
    ghost var dropped: seq<Player>

    /** The highest ID so far is whatever it happens to be. */
    constructor (cfg: Config, anyID: nat)
      ensures this.cfg == cfg
      ensures View() == Server([], anyID, ZERO, 0, [], [], [], [])
    {
      this.cfg := cfg;
      playerList, maxID := [], anyID;
      pktsRcvd, bytesRcvd, pktsSent, bytesSent := 0, 0, 0, 0;
      localClients, remoteClients, numMaxClients := 0, 0, 0;
      blackList, trackerQueue, output, dropped := [], [], [], [];
    }

    ghost function View(): Server
      reads this
    {
      Server(playerList, maxID,
             Totals(pktsRcvd, bytesRcvd, pktsSent, bytesSent, localClients, remoteClients),
             numMaxClients, blackList, trackerQueue, output, dropped)
    }

    // -------------------------------------------------------------------
    // Searching

    method FindByName(name: string, now: int) returns (i: nat)
      modifies this`playerList
      ensures i == IndexOfName(old(playerList), name)
      ensures playerList == if i < |old(playerList)| then old(playerList)[i := old(playerList)[i].(lastSeen := now)]
                            else old(playerList)
    {
      i := 0;
      while i < |playerList|
        invariant i <= |playerList| && playerList == old(playerList)
        invariant forall j :: 0 <= j < i ==> playerList[j].name != name
      {
        if playerList[i].name == name {
          playerList := playerList[i := playerList[i].(lastSeen := now)];
          return;
        }
        i := i + 1;
      }
    }

    method Find(ip: Ip, now: int) returns (found: nat)
      modifies this`playerList
      ensures found == LastAtIp(old(playerList), ip)
      ensures playerList == MarkSeen(old(playerList), ip, now)
    {
      found := |playerList|;
      var i := 0;
      while i < |playerList|
        invariant i <= |playerList| == |old(playerList)|
        invariant forall j :: 0 <= j < i ==> playerList[j] == MarkSeen(old(playerList), ip, now)[j]
        invariant forall j :: i <= j < |playerList| ==> playerList[j] == old(playerList)[j]
        invariant found == |playerList| || (found < i && old(playerList)[found].address.ip == ip)
        invariant forall j :: 0 <= j < i && (found == |playerList| || j > found) ==> old(playerList)[j].address.ip != ip
      {
        if playerList[i].address.ip == ip {
          playerList := playerList[i := playerList[i].(lastSeen := now)];
          found := i;
        }
        i := i + 1;
      }
    }

    method FindBlocked(ip: Ip, now: int) returns (found: bool)
      modifies this`blackList
      ensures found == IsBlocked(old(blackList), ip)
      ensures blackList == if found then MarkBlocked(old(blackList), ip, now) else old(blackList)
    {
      found := false;
      var i := 0;
      while i < |blackList|
        invariant i <= |blackList| == |old(blackList)|
        invariant forall j :: 0 <= j < i ==> blackList[j] == MarkBlocked(old(blackList), ip, now)[j]
        invariant forall j :: i <= j < |blackList| ==> blackList[j] == old(blackList)[j]
        invariant found <==> exists j :: 0 <= j < i && old(blackList)[j].ip == ip
      {
        if blackList[i].ip == ip {
          blackList := blackList[i := blackList[i].(lastSeen := now)];
          found := true;
        }
        i := i + 1;
      }
    }

    // -------------------------------------------------------------------
    // Adding and dropping

    method UpdateTracker(name: string, msg: TrackMsg)
      modifies this`trackerQueue
      ensures View() == Tell(cfg, old(View()), name, msg)
    {
      if cfg.isTracked && name != MPDUMMY {
        trackerQueue := trackerQueue + [msg];
      }
    }

    method Add(p: Player)
      modifies this`maxID, this`playerList
      ensures maxID == old(maxID) + 1
      ensures playerList == old(playerList) + [p.(id := old(maxID) + 1)]
    {
      maxID := maxID + 1;
      playerList := playerList + [p.(id := maxID)];
    }

    method AddBadClient(from: Address, error: string, isLocal: bool, bytes: nat, now: int)
      modifies this
      ensures View() == Players.AddBadClient(cfg, old(View()), from, error, isLocal, bytes, now)
    {
      hide MarkSeen, LastAtIp;
      var i := Find(from.ip, now);
      if i < |playerList| {
        playerList := playerList[i := playerList[i].UpdateRcvd(bytes, now)];
        pktsRcvd, bytesRcvd := pktsRcvd + 1, bytesRcvd + bytes;
        return;
      }
      NoneSeen(old(playerList), from.ip, now);
      if isLocal {
        localClients := localClients + 1;
      } else {
        remoteClients := remoteClients + 1;
      }
      Add(BadPlayer(cfg, from, error, isLocal, bytes, now));
      pktsRcvd, bytesRcvd := pktsRcvd + 1, bytesRcvd + bytes;
    }

    lemma NoneSeen(players: seq<Player>, ip: Ip, now: int)
      requires LastAtIp(players, ip) == |players|
      ensures MarkSeen(players, ip, now) == players
    {
    }

    method AddClient(from: Address, pkt: Packet, now: int)
      modifies this
      ensures View() == Players.AddClient(cfg, old(View()), from, pkt, now)
    {
      Add(NewPlayer(cfg, from, pkt, now));
      if |playerList| > numMaxClients {
        numMaxClients := |playerList|;
      }
      if !pkt.relay {
        localClients := localClients + 1;
        UpdateTracker(pkt.name, Connect(pkt.name));
      } else {
        remoteClients := remoteClients + 1;
      }
    }

    method DropClient(i: nat)
      requires i < |playerList|
      modifies this
      ensures View() == Players.DropClient(cfg, old(View()), i)
    {
      var p := playerList[i];
      if p.isLocal && !p.hasErrors {
        UpdateTracker(p.name, Disconnect(p.name));
      }
      if p.isLocal {
        localClients := localClients - 1;
      } else {
        remoteClients := remoteClients - 1;
      }
      playerList := playerList[..i] + playerList[i + 1..];
      dropped := dropped + [p];
    }

    // -------------------------------------------------------------------
    // Packets

    /** Finds the sender of a packet in the list, or adds it. */
    method AcceptSender(from: Address, pkt: Packet, now: int) returns (sender: Option<nat>)
      modifies this
      ensures (View(), sender) == Accept(cfg, old(View()), from, pkt, now)
      ensures sender.Some? ==> sender.value < |playerList|
    {
      var i := FindByName(pkt.name, now);
      if i == |playerList| {
        if pkt.kind != PosData {
          return None;
        }
        AddClient(from, pkt, now);
        return Some(|playerList| - 1);
      }
      if playerList[i].address.ip != from.ip {
        return None;
      }
      var ok := UpdateSender(i, pkt, now);
      return if ok then Some(i) else None;
    }

    method UpdateSender(i: nat, pkt: Packet, now: int) returns (ok: bool)
      requires i < |playerList|
      modifies this
      ensures (View(), ok) == Players.UpdateSender(cfg, old(View()), i, pkt, now)
    {
      ghost var list := playerList;
      pktsRcvd, bytesRcvd := pktsRcvd + 1, bytesRcvd + pkt.bytes;
      playerList := playerList[i := playerList[i].UpdateRcvd(pkt.bytes, now)];
      if pkt.kind == PosData {
        if pkt.pos.0 == 0.0 || pkt.pos.1 == 0.0 || pkt.pos.2 == 0.0 {
          return false;
        }
        playerList := playerList[i := playerList[i].(pos := pkt.pos)];
      }
      UpdateRadarRange(i, pkt.radarHigh, pkt.radarLow);
      assert playerList == list[i := playerList[i]];
      return true;
    }

    method UpdateRadarRange(i: nat, high: nat, low: nat)
      requires i < |playerList|
      modifies this`playerList
      ensures var p := old(playerList)[i];
              playerList == old(playerList)[i := p.(radarRange := NextRadarRange(cfg, p.radarRange, high, low))]
    {
      if high != 0 && low == 0 {
        if high != playerList[i].radarRange {
          if high <= cfg.maxRadarRange {
            playerList := playerList[i := playerList[i].(radarRange := high)];
          }
        }
      }
    }

    /** The walk over the list that forwards a packet to local clients and drops
        overdue entries with errors. It stops where the program loses track of
        the sender. */
    method WalkList(sender: nat, pkt: Packet, now: int) returns (outcome: Outcome)
      requires sender < |playerList|
      modifies this
      ensures outcome == Done <==> SenderStays(old(playerList), sender, now)
      ensures var s := old(View());
              View() == Walked(cfg, s, s.players[sender], pkt, now,
                               if outcome == Done then |s.players| else FirstTimedOut(s.players, now) + 1)
    {
      hide Walked, Visited, Players.DropClient;
      ghost var s, from, k := View(), playerList[sender], 0;
      var i := 0;
      WalkStarts(cfg, s, from, pkt, now);
      while i < |playerList|
        invariant k <= |s.players| && |playerList| - i == |s.players| - k
        invariant i == Cursor(cfg, s, from, pkt, now, k)
        invariant View() == Walked(cfg, s, from, pkt, now, k)
        invariant forall j :: 0 <= j <= sender && j < k ==> !s.players[j].TimedOut(now)
        invariant if k <= sender then i == k else i > sender
        invariant sender < |playerList| && playerList[sender].pos == from.pos
        decreases |playerList| - i
      {
        WalkedStepList(cfg, s, from, pkt, now, k);
        WalkedStepCounters(cfg, s, from, pkt, now, k);
        var c := playerList[i];
        if c.TimedOut(now) {
          DropOverdue(i);
          if i <= sender {
            assert FirstTimedOut(s.players, now) == k;
            return SenderLost;
          }
        } else {
          SamePosition(from, playerList[sender], pkt, now, c);
          VisitEntry(i, sender, pkt, now);
          i := i + 1;
        }
        k := k + 1;
      }
      outcome := Done;
    }

    method DropOverdue(i: nat)
      requires i < |playerList| && playerList[i].hasErrors
      modifies this
      ensures View() == var s := old(View());
              s.(players := Without(s.players, i), totals := Leaves(s.totals, s.players[i]),
                 dropped := s.dropped + [s.players[i]])
    {
      DropClient(i);
    }

    /** What the walk does with an entry it does not drop. */
    method VisitEntry(i: nat, sender: nat, pkt: Packet, now: int)
      requires i < |playerList| && sender < |playerList| && !playerList[i].TimedOut(now)
      modifies this
      ensures var s, from, c := old(View()), old(playerList[sender]), old(playerList[i]);
              View() == s.(players := s.players[i := Visit(cfg, from, pkt, now, c)],
                           out := if Receives(cfg, from, pkt, c) then s.out + [ToClient(c.id, c.address)] else s.out,
                           totals := if Receives(cfg, from, pkt, c) then s.totals.Plus(Totals(0, 0, 1, pkt.bytes, 0, 0))
                                     else s.totals)
      ensures playerList[sender].pos == old(playerList[sender].pos)
    {
      var c := playerList[i];
      if c.hasErrors {
      } else if c.name == pkt.name {
        playerList := playerList[i := CheckDue(c, now)];
      } else if "obs" <= pkt.name {
      } else if !Wants(cfg, playerList[sender], c) {
      } else if c.isLocal {
        output := output + [ToClient(c.id, c.address)];
        pktsSent, bytesSent := pktsSent + 1, bytesSent + pkt.bytes;
        playerList := playerList[i := c.UpdateSent(pkt.bytes, now)];
      }
    }

    /** Who receives a packet depends on the sender only by its position. */
    lemma SamePosition(a: Player, b: Player, pkt: Packet, now: int, c: Player)
      requires a.pos == b.pos
      ensures Receives(cfg, a, pkt, c) == Receives(cfg, b, pkt, c)
      ensures Visit(cfg, a, pkt, now, c) == Visit(cfg, b, pkt, now, c)
    {
    }

    method IsRelayInRange(relay: Ip, sender: nat) returns (r: bool)
      requires sender < |playerList|
      ensures r == IsInRange(cfg, playerList, relay, playerList[sender])
    {
      var i := 0;
      while i < |playerList|
        invariant i <= |playerList|
        invariant forall j :: 0 <= j < i ==> playerList[j].address.ip != relay
      {
        if playerList[i].address.ip == relay {
          assert IndexOfIp(playerList, relay) == i;
          return Wants(cfg, playerList[sender], playerList[i]);
        }
        i := i + 1;
      }
      return false;
    }

    method SendToRelays(sender: nat)
      requires sender < |playerList|
      modifies this`output
      ensures View() == Players.SendToRelays(cfg, old(View()), sender)
    {
      var p := playerList[sender];
      if !p.isLocal && !cfg.isHub {
        assert output == output + RelayOutputs([]);
        return;
      }
      WalkRelays(p, sender);
    }

    method WalkRelays(p: Player, sender: nat)
      requires sender < |playerList| && p == playerList[sender]
      modifies this`output
      ensures output == old(output) + RelayOutputs(WantedRelays(cfg.relays, p.address.ip, WantedBy(cfg, playerList, p)))
    {
      hide IsInRange, WantedRelays, RelayOutputs, WantedBy;
      ghost var before, wanted, done := output, WantedBy(cfg, playerList, p), [];
      var i := 0;
      OutputsSnoc([], 0);
      while i < |cfg.relays|
        invariant i <= |cfg.relays|
        invariant output == before + RelayOutputs(done)
        invariant done + WantedRelays(cfg.relays[i..], p.address.ip, wanted) ==
                  WantedRelays(cfg.relays, p.address.ip, wanted)
      {
        WantedRelaysStep(cfg.relays[i..], p.address.ip, wanted);
        assert cfg.relays[i..][1..] == cfg.relays[i + 1..];
        IsWanted(playerList, p, cfg.relays[i]);
        if cfg.relays[i] != p.address.ip {
          var inRange := IsRelayInRange(cfg.relays[i], sender);
          if p.doUpdate || inRange {
            output := output + [ToRelay(cfg.relays[i])];
            OutputsSnoc(done, cfg.relays[i]);
            done := done + [cfg.relays[i]];
          }
        }
        i := i + 1;
      }
      NoWantedRelays(p.address.ip, wanted);
      assert cfg.relays[i..] == [] && done + [] == done;
    }

    lemma IsWanted(players: seq<Player>, sender: Player, relay: Ip)
      requires relay in cfg.relays
      ensures relay in WantedBy(cfg, players, sender) <==> sender.doUpdate || IsInRange(cfg, players, relay, sender)
    {
    }

    lemma NoWantedRelays(from: Ip, wanted: set<Ip>)
      ensures WantedRelays([], from, wanted) == []
    {
    }

    lemma OutputsSnoc(done: seq<Ip>, relay: Ip)
      ensures RelayOutputs([]) == []
      ensures RelayOutputs(done + [relay]) == RelayOutputs(done) + [ToRelay(relay)]
    {
    }

    method IsKnownRelay(from: Address, now: int) returns (known: bool)
      modifies this`blackList
      ensures known == (from.ip in cfg.whitelist || from.ip in cfg.relays)
      ensures blackList == if known || IsBlocked(old(blackList), from.ip) then blackList
                           else old(blackList) + [BlockEntry(from.ip, DEFAULT_BLOCK_TIME, now)]
      ensures known ==> blackList == old(blackList)
    {
      if from.ip in cfg.whitelist {
        return true;
      }
      if from.ip in cfg.relays {
        return true;
      }
      var found := FindBlocked(from.ip, now);
      if !found {
        blackList := blackList + [BlockEntry(from.ip, DEFAULT_BLOCK_TIME, now)];
      }
      return false;
    }

    method SendToCrossfeed()
      modifies this`output
      ensures output == old(output) + Crossfeed(cfg)
    {
      var i := 0;
      while i < |cfg.crossfeeds|
        invariant i <= |cfg.crossfeeds|
        invariant output == old(output) + Crossfeed(cfg)[..i]
      {
        output := output + [ToCrossfeed(cfg.crossfeeds[i])];
        assert Crossfeed(cfg)[..i + 1] == Crossfeed(cfg)[..i] + [Crossfeed(cfg)[i]];
        i := i + 1;
      }
      assert Crossfeed(cfg)[..i] == Crossfeed(cfg);
    }

    method HandlePacket(from: Address, pkt: Packet, now: int) returns (outcome: Outcome)
      modifies this
      ensures (View(), outcome) == Players.HandlePacket(cfg, old(View()), from, pkt, now)
    {
      SendToCrossfeed();
      var blocked := FindBlocked(from.ip, now);
      if blocked {
        return Done;
      }
      if pkt.fault.Some? {
        AddBadClient(from, pkt.fault.value, true, pkt.bytes, now);
        return Done;
      }
      if pkt.relay {
        var known := IsKnownRelay(from, now);
        if !known {
          return Done;
        }
      }
      if pkt.kind == Ping {
        output := output + [PongTo(from)];
        return Done;
      } else if pkt.kind == Pong {
        return Done;
      }
      var sender := AcceptSender(from, pkt, now);
      if sender.None? {
        return Done;
      }
      outcome := ForwardAccepted(sender.value, pkt, now);
    }

    method ForwardAccepted(sender: nat, pkt: Packet, now: int) returns (outcome: Outcome)
      requires sender < |playerList|
      modifies this
      ensures (View(), outcome) == Players.ForwardAccepted(cfg, old(View()), sender, pkt, now)
    {
      hide Walked, RelaysFor;
      ghost var s := View();
      outcome := WalkList(sender, pkt, now);
      if outcome == Done {
        VisitedKeepsPlace(cfg, s, sender, pkt, now);
        SendToRelays(sender);
      }
    }

    // -------------------------------------------------------------------
    // Housekeeping

    /** The expiry sweep of the main loop, which steps over the entry after
        each one it drops. */
    method SweepPlayers(now: int)
      modifies this
      ensures View() == Players.SweepPlayers(cfg, old(View()), now)
    {
      hide Sweep, Erased, Goodbyes, AllLeave, Tell;
      ghost var s, bad, gone := View(), PlayerExpired(now), [];
      var i := 0;
      NoneGone(s.totals);
      while i < |playerList|
        invariant i <= |playerList| + 1
        invariant View() == AfterDrops(s, playerList, gone)
        invariant playerList[..Low(i)] + Sweep(playerList[Low(i)..], bad) == Sweep(s.players, bad)
        invariant gone + Erased(playerList[Low(i)..], bad) == Erased(s.players, bad)
        decreases |playerList| + 1 - i
      {
        ghost var list := playerList;
        var p := playerList[i];
        if p.Expired(now) {
          SweepDrop(list, i, bad);
          DropSwept(i, s, gone);
          assert (gone + [p]) + Erased(playerList[Low(i + 1)..], bad) ==
                 gone + ([p] + Erased(playerList[Low(i + 1)..], bad));
          gone := gone + [p];
        } else {
          SweepKeep(list, i, bad);
        }
        i := i + 1;
      }
      SweepEnds(playerList, bad);
      assert playerList[Low(i)..] == [] && playerList[..Low(i)] == playerList;
      assert gone + [] == gone;
    }

    /** The server after the entries `gone` have been dropped. */
    ghost function AfterDrops(s: Server, list: seq<Player>, gone: seq<Player>): Server
    {
      s.(players := list, track := s.track + Goodbyes(cfg, gone),
         totals := AllLeave(s.totals, gone), dropped := s.dropped + gone)
    }

    method DropSwept(i: nat, ghost s: Server, ghost gone: seq<Player>)
      requires i < |playerList| && View() == AfterDrops(s, playerList, gone)
      modifies this
      ensures playerList == Without(old(playerList), i)
      ensures View() == AfterDrops(s, playerList, gone + [old(playerList)[i]])
    {
      hide Goodbyes, AllLeave;
      GoneSnoc(s.totals, gone, playerList[i]);
      DropClient(i);
    }

    lemma NoneGone(t: Totals)
      ensures Goodbyes(cfg, []) == [] && AllLeave(t, []) == t
    {
    }

    /** The cursor may end up one past the end of the list. */
    ghost function Low(i: nat): (k: nat)
      reads this
      ensures k <= |playerList|
    {
      if i <= |playerList| then i else |playerList|
    }

    lemma GoneSnoc(t: Totals, gone: seq<Player>, p: Player)
      ensures Goodbyes(cfg, gone + [p]) == Goodbyes(cfg, gone)
              + if p.IsPilot() && cfg.isTracked && p.name != MPDUMMY then [Disconnect(p.name)] else []
      ensures AllLeave(t, gone + [p]) == Leaves(AllLeave(t, gone), p)
    {
      assert (gone + [p])[..|gone|] == gone;
    }

    method SweepBlackList(now: int)
      modifies this`blackList
      ensures View() == Players.SweepBlackList(old(View()), now)
    {
      ghost var list, bad := blackList, BlockExpired(now);
      var i := 0;
      while i < |blackList|
        invariant i <= |blackList| + 1
        invariant var k := if i <= |blackList| then i else |blackList|;
                  blackList[..k] + Sweep(blackList[k..], bad) == Sweep(list, bad)
        decreases |blackList| + 1 - i
      {
        if blackList[i].Expired(now) {
          SweepDrop(blackList, i, bad);
          blackList := blackList[..i] + blackList[i + 1..];
        } else {
          SweepKeep(blackList, i, bad);
        }
        i := i + 1;
      }
      SweepEnds(blackList, bad);
    }

    /** The periodic report of the positions of the pilots. */
    method ReportPositions()
      modifies this`trackerQueue
      ensures View() == Players.ReportPositions(cfg, old(View()))
    {
      if !cfg.isTracked {
        return;
      }
      var names: seq<string> := [];
      var i := 0;
      while i < |playerList|
        invariant i <= |playerList| && names == PilotNames(playerList[..i])
      {
        assert playerList[..i + 1][..i] == playerList[..i];
        if playerList[i].isLocal && !playerList[i].hasErrors {
          names := names + [playerList[i].name];
        }
        i := i + 1;
      }
      assert playerList[..i] == playerList;
      if names != [] {
        trackerQueue := trackerQueue + [Positions(names)];
      }
    }
  }
}
