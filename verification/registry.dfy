/** What holds of a server's player list, counters and tracker messages in
    every state of every run. */
module Registry {
  import opened RelayRules
  import opened ExpirySweep
  import opened Players

  datatype Event =
    | PacketArrives(from: Address, pkt: Packet, now: int)
    | SweepDue(now: int)
    | BlackListSweepDue(now: int)
    | ReportDue

  function React(cfg: Config, s: Server, ev: Event): (Server, Outcome)
  {
    match ev
    case PacketArrives(from, pkt, now) => HandlePacket(cfg, s, from, pkt, now)
    case SweepDue(now) => (SweepPlayers(cfg, s, now), Done)
    case BlackListSweepDue(now) => (SweepBlackList(s, now), Done)
    case ReportDue => (ReportPositions(cfg, s), Done)
  }

  /** A run from the start of the server, with an arbitrary first ID. It ends
      where the program loses track of a sender. */
  function Exec(cfg: Config, anyID: nat, events: seq<Event>): (Server, Outcome)
  {
    if events == [] then (Server([], anyID, ZERO, 0, [], [], [], []), Done)
    else
      var (s, outcome) := Exec(cfg, anyID, events[..|events| - 1]);
      if outcome == SenderLost then (s, outcome) else React(cfg, s, events[|events| - 1])
  }

  // ---------------------------------------------------------------------
  // Invariants

  /** Counters of local and remote clients count the list; packet and byte
      counters are those of the listed and the dropped players together. */
  predicate Balanced(players: seq<Player>, dropped: seq<Player>, t: Totals)
  {
    var listed, gone := Tally(players), Tally(dropped);
    && t.locals == listed.locals
    && t.remotes == listed.remotes
    && t.pktsRcvd == listed.pktsRcvd + gone.pktsRcvd
    && t.bytesRcvd == listed.bytesRcvd + gone.bytesRcvd
    && t.pktsSent == listed.pktsSent + gone.pktsSent
    && t.bytesSent == listed.bytesSent + gone.bytesSent
  }

  predicate WellOrdered(players: seq<Player>, maxId: nat)
  {
    && (forall i :: 0 <= i < |players| ==> players[i].id <= maxId)
    && (forall i, j :: 0 <= i < j < |players| ==> players[i].id < players[j].id)
  }

  predicate Unique(players: seq<Player>)
  {
    && (forall i, j :: 0 <= i < j < |players| && !players[i].hasErrors && !players[j].hasErrors ==>
          players[i].name != players[j].name)
    && (forall i, j :: 0 <= i < j < |players| && players[i].hasErrors && players[j].hasErrors ==>
          players[i].address.ip != players[j].address.ip)
  }

  /** Whether the tracker has been told of a session of that name: Broken if
      CONNECT and DISCONNECT do not alternate, starting with CONNECT. */
  datatype Phase = Closed | Open | Broken

  function Session(track: seq<TrackMsg>, name: string): Phase
  {
    if track == [] then Closed
    else NextPhase(Session(track[..|track| - 1], name), track[|track| - 1], name)
  }

  function NextPhase(phase: Phase, msg: TrackMsg, name: string): Phase
  {
    match msg
    case Connect(n) => if n != name then phase else if phase == Closed then Open else Broken
    case Disconnect(n) => if n != name then phase else if phase == Open then Closed else Broken
    case Positions(_) => phase
  }

  predicate Listed(players: seq<Player>, name: string)
  {
    exists i :: 0 <= i < |players| && players[i].IsPilot() && players[i].name == name
  }

  predicate Tracked(cfg: Config, players: seq<Player>, name: string)
  {
    cfg.isTracked && name != MPDUMMY && Listed(players, name)
  }

  ghost predicate SessionsInv(cfg: Config, players: seq<Player>, track: seq<TrackMsg>)
  {
    forall name :: Session(track, name) == if Tracked(cfg, players, name) then Open else Closed
  }

  ghost predicate Inv(cfg: Config, s: Server)
  {
    && Balanced(s.players, s.dropped, s.totals)
    && WellOrdered(s.players, s.maxId)
    && Unique(s.players)
    && SessionsInv(cfg, s.players, s.track)
  }

  // ---------------------------------------------------------------------
  // Changing entries without changing who they are

  predicate SameIdentity(a: Player, b: Player)
  {
    a.id == b.id && a.name == b.name && a.address == b.address && a.isLocal == b.isLocal && a.hasErrors == b.hasErrors
  }

  predicate SameIdentities(a: seq<Player>, b: seq<Player>)
  {
    |a| == |b| && forall i :: 0 <= i < |a| ==> SameIdentity(a[i], b[i])
  }

  lemma SameIdentitiesKeep(cfg: Config, a: seq<Player>, b: seq<Player>, maxId: nat, track: seq<TrackMsg>)
    requires SameIdentities(a, b)
    requires WellOrdered(a, maxId) && Unique(a) && SessionsInv(cfg, a, track)
    ensures WellOrdered(b, maxId) && Unique(b) && SessionsInv(cfg, b, track)
  {
    forall name
      ensures Listed(a, name) == Listed(b, name)
    {
      if Listed(a, name) {
        var i :| 0 <= i < |a| && a[i].IsPilot() && a[i].name == name;
        assert b[i].IsPilot() && b[i].name == name;
      }
      if Listed(b, name) {
        var i :| 0 <= i < |b| && b[i].IsPilot() && b[i].name == name;
        assert a[i].IsPilot() && a[i].name == name;
      }
    }
  }

  /** Difference of two sets of counters. */
  function Minus(a: Totals, b: Totals): Totals
  {
    Totals(a.pktsRcvd - b.pktsRcvd, a.bytesRcvd - b.bytesRcvd, a.pktsSent - b.pktsSent, a.bytesSent - b.bytesSent,
           a.locals - b.locals, a.remotes - b.remotes)
  }

  lemma {:induction false} TallyUpdate(players: seq<Player>, i: nat, p: Player)
    requires i < |players|
    ensures Tally(players[i := p]) == Tally(players).Plus(Minus(TotalsOf(p), TotalsOf(players[i])))
  {
    var n := |players| - 1;
    var q := players[i := p];
    if i < n {
      assert q[..n] == players[..n][i := p];
      TallyUpdate(players[..n], i, p);
    } else {
      assert q[..n] == players[..n];
    }
  }

  lemma {:induction false} TallyWithout(players: seq<Player>, i: nat)
    requires i < |players|
    ensures Tally(Without(players, i)) == Minus(Tally(players), TotalsOf(players[i]))
  {
    var n := |players| - 1;
    if i < n {
      assert Without(players, i)[..n - 1] == Without(players[..n], i);
      TallyWithout(players[..n], i);
    } else {
      assert Without(players, i) == players[..n];
    }
  }

  lemma TallySnoc(players: seq<Player>, p: Player)
    ensures Tally(players + [p]) == Tally(players).Plus(TotalsOf(p))
  {
    assert (players + [p])[..|players|] == players;
  }

  /** One entry changed: its counters and those of the list by the same amount. */
  lemma UpdateKeepsInv(cfg: Config, s: Server, s': Server, i: nat, p: Player, d: Totals)
    requires Inv(cfg, s) && i < |s.players| && SameIdentity(s.players[i], p)
    requires TotalsOf(p) == TotalsOf(s.players[i]).Plus(d)
    requires s'.players == s.players[i := p] && s'.totals == s.totals.Plus(d)
    requires s'.maxId == s.maxId && s'.track == s.track && s'.dropped == s.dropped
    ensures Inv(cfg, s')
  {
    hide SessionsInv, WellOrdered, Unique, Tally;
    TallyUpdate(s.players, i, p);
    SameIdentitiesKeep(cfg, s.players, s'.players, s.maxId, s.track);
  }

  lemma MarkSeenKeepsInv(cfg: Config, s: Server, ip: Ip, now: int)
    requires Inv(cfg, s)
    ensures Inv(cfg, s.(players := MarkSeen(s.players, ip, now)))
  {
    hide SessionsInv, WellOrdered, Unique, Tally;
    SameTally(s.players, MarkSeen(s.players, ip, now));
    SameIdentitiesKeep(cfg, s.players, MarkSeen(s.players, ip, now), s.maxId, s.track);
  }

  lemma {:induction false} SameTally(a: seq<Player>, b: seq<Player>)
    requires |a| == |b| && forall i :: 0 <= i < |a| ==> TotalsOf(a[i]) == TotalsOf(b[i])
    ensures Tally(a) == Tally(b)
  {
    if a != [] {
      SameTally(a[..|a| - 1], b[..|b| - 1]);
    }
  }

  // ---------------------------------------------------------------------
  // Adding and dropping

  lemma SessionSnoc(track: seq<TrackMsg>, msg: TrackMsg, name: string)
    ensures Session(track + [msg], name) == NextPhase(Session(track, name), msg, name)
  {
    assert (track + [msg])[..|track|] == track;
  }

  lemma ListedSnoc(players: seq<Player>, p: Player, name: string)
    ensures Listed(players + [p], name) <==> Listed(players, name) || (p.IsPilot() && p.name == name)
  {
    if Listed(players, name) {
      var i :| 0 <= i < |players| && players[i].IsPilot() && players[i].name == name;
      assert (players + [p])[i].IsPilot();
    }
    if p.IsPilot() && p.name == name {
      assert (players + [p])[|players|].IsPilot();
    }
  }

  lemma ListedWithout(players: seq<Player>, i: nat, name: string)
    requires i < |players| && Unique(players)
    ensures Listed(Without(players, i), name) <==>
            Listed(players, name) && !(players[i].IsPilot() && players[i].name == name)
  {
    var w := Without(players, i);
    if Listed(players, name) && !(players[i].IsPilot() && players[i].name == name) {
      var j :| 0 <= j < |players| && players[j].IsPilot() && players[j].name == name;
      assert w[if j < i then j else j - 1] == players[j];
    }
    if Listed(w, name) {
      var j :| 0 <= j < |w| && w[j].IsPilot() && w[j].name == name;
      var k := if j < i then j else j + 1;
      assert players[k] == w[j];
    }
  }

  lemma AppendKeeps(players: seq<Player>, p: Player, maxId: nat)
    requires WellOrdered(players, maxId) && Unique(players) && p.id == maxId + 1
    requires !p.hasErrors ==> forall i :: 0 <= i < |players| ==> players[i].name != p.name
    requires p.hasErrors ==> forall i :: 0 <= i < |players| ==> players[i].address.ip != p.address.ip
    ensures WellOrdered(players + [p], maxId + 1) && Unique(players + [p])
  {
  }

  /** A session opens with the entry of a pilot not listed before. */
  lemma OpenKeepsSessions(cfg: Config, s: Server, s': Server, p: Player)
    requires SessionsInv(cfg, s.players, s.track)
    requires p.IsPilot() ==> !Listed(s.players, p.name)
    requires s'.players == s.players + [p]
    requires s'.track == if p.IsPilot() && cfg.isTracked && p.name != MPDUMMY then s.track + [Connect(p.name)] else s.track
    ensures SessionsInv(cfg, s'.players, s'.track)
  {
    hide Session, Listed;
    forall name
      ensures Session(s'.track, name) == if Tracked(cfg, s'.players, name) then Open else Closed
    {
      ListedSnoc(s.players, p, name);
      SessionSnoc(s.track, Connect(p.name), name);
    }
  }

  /** The list grows by an entry that clashes with no other. */
  lemma {:induction false} AddKeepsInv(cfg: Config, s: Server, p: Player)
    requires Inv(cfg, s)
    requires !p.hasErrors ==> forall i :: 0 <= i < |s.players| ==> s.players[i].name != p.name
    requires p.hasErrors ==> forall i :: 0 <= i < |s.players| ==> s.players[i].address.ip != p.address.ip
    ensures var s' := AddPlayer(s, p);
            Inv(cfg, if p.IsPilot() then Tell(cfg, s', p.name, Connect(p.name)) else s')
  {
    hide Tally, WellOrdered, Unique, SessionsInv;
    var q := p.(id := s.maxId + 1);
    TallySnoc(s.players, q);
    assert TotalsOf(q) == TotalsOf(p);
    AppendKeeps(s.players, q, s.maxId);
    assert p.IsPilot() ==> !Listed(s.players, p.name);
    var s' := AddPlayer(s, p);
    OpenKeepsSessions(cfg, s, if p.IsPilot() then Tell(cfg, s', p.name, Connect(p.name)) else s', q);
  }

  lemma WithoutKeeps(players: seq<Player>, i: nat, maxId: nat)
    requires i < |players| && WellOrdered(players, maxId) && Unique(players)
    ensures WellOrdered(Without(players, i), maxId) && Unique(Without(players, i))
  {
    var w := Without(players, i);
    assert forall j :: 0 <= j < |w| ==> w[j] == players[if j < i then j else j + 1];
  }

  /** The session of a dropped pilot closes. */
  lemma DropKeepsSessions(cfg: Config, s: Server, i: nat)
    requires SessionsInv(cfg, s.players, s.track) && Unique(s.players) && i < |s.players|
    ensures SessionsInv(cfg, Without(s.players, i), DropClient(cfg, s, i).track)
  {
    var p, s' := s.players[i], DropClient(cfg, s, i);
    assert p.IsPilot() ==> Listed(s.players, p.name);
    hide Session, Listed, Unique;
    forall name
      ensures Session(s'.track, name) == if Tracked(cfg, s'.players, name) then Open else Closed
    {
      ListedWithout(s.players, i, name);
      SessionSnoc(s.track, Disconnect(p.name), name);
    }
  }

  lemma DropKeepsInv(cfg: Config, s: Server, i: nat)
    requires Inv(cfg, s) && i < |s.players|
    ensures Inv(cfg, DropClient(cfg, s, i))
  {
    hide Tally, WellOrdered, Unique, SessionsInv;
    TallyWithout(s.players, i);
    TallySnoc(s.dropped, s.players[i]);
    WithoutKeeps(s.players, i, s.maxId);
    DropKeepsSessions(cfg, s, i);
  }

  lemma {:induction false} AddBadKeepsInv(cfg: Config, s: Server, from: Address, error: string, bytes: nat, now: int)
    requires Inv(cfg, s)
    ensures Inv(cfg, AddBadClient(cfg, s, from, error, true, bytes, now))
  {
    hide Inv;
    var i := LastAtIp(s.players, from.ip);
    if i < |s.players| {
      var seen := s.(players := MarkSeen(s.players, from.ip, now));
      MarkSeenKeepsInv(cfg, s, from.ip, now);
      UpdateKeepsInv(cfg, seen, AddBadClient(cfg, s, from, error, true, bytes, now), i,
                     seen.players[i].UpdateRcvd(bytes, now), Totals(1, bytes, 0, 0, 0, 0));
    } else {
      AddKeepsInv(cfg, s, BadPlayer(cfg, from, error, true, bytes, now));
    }
  }

  lemma {:induction false} AddClientKeepsInv(cfg: Config, s: Server, from: Address, pkt: Packet, now: int)
    requires Inv(cfg, s) && IndexOfName(s.players, pkt.name) == |s.players|
    ensures Inv(cfg, AddClient(cfg, s, from, pkt, now))
  {
    var p := NewPlayer(cfg, from, pkt, now);
    AddKeepsInv(cfg, s, p);
    var s1 := AddPlayer(s, p);
    var s2 := s1.(peak := if |s1.players| > s1.peak then |s1.players| else s1.peak);
    hide SessionsInv, Balanced, WellOrdered, Unique;
    assert AddClient(cfg, s, from, pkt, now) == if pkt.relay then s2 else Tell(cfg, s2, pkt.name, Connect(pkt.name));
  }

  lemma AcceptKeepsInv(cfg: Config, s: Server, from: Address, pkt: Packet, now: int)
    requires Inv(cfg, s)
    ensures Inv(cfg, Accept(cfg, s, from, pkt, now).0)
  {
    hide Inv;
    var i := IndexOfName(s.players, pkt.name);
    if i == |s.players| {
      AddClientKeepsInv(cfg, s, from, pkt, now);
    } else {
      var p := s.players[i].(lastSeen := now);
      var found := s.(players := s.players[i := p]);
      UpdateKeepsInv(cfg, s, found, i, p, ZERO);
      var s' := UpdateSender(cfg, found, i, pkt, now).0;
      UpdateKeepsInv(cfg, found, s', i, s'.players[i], Totals(1, pkt.bytes, 0, 0, 0, 0));
    }
  }

  // ---------------------------------------------------------------------
  // The walk and the sweeps

  lemma VisitIdentity(cfg: Config, from: Player, pkt: Packet, now: int, c: Player)
    ensures SameIdentity(c, Visit(cfg, from, pkt, now, c))
    ensures TotalsOf(Visit(cfg, from, pkt, now, c)) ==
            TotalsOf(c).Plus(if Receives(cfg, from, pkt, c) then Totals(0, 0, 1, pkt.bytes, 0, 0) else ZERO)
  {
  }

  lemma WalkStepKeepsInv(cfg: Config, s: Server, from: Player, pkt: Packet, now: int, k: nat)
    requires k < |s.players| && Inv(cfg, Walked(cfg, s, from, pkt, now, k))
    ensures Inv(cfg, Walked(cfg, s, from, pkt, now, k + 1))
  {
    hide Inv, Walked, Visit, Receives, TotalsOf;
    WalkedStepList(cfg, s, from, pkt, now, k);
    WalkedStepCounters(cfg, s, from, pkt, now, k);
    var w, w', c := Walked(cfg, s, from, pkt, now, k), Walked(cfg, s, from, pkt, now, k + 1), s.players[k];
    var i := Cursor(cfg, s, from, pkt, now, k);
    if c.TimedOut(now) {
      DropKeepsInv(cfg, w, i);
      SameForInv(cfg, DropClient(cfg, w, i), w');
    } else {
      VisitIdentity(cfg, from, pkt, now, c);
      UpdateKeepsInv(cfg, w, w', i, Visit(cfg, from, pkt, now, c),
                     if Receives(cfg, from, pkt, c) then Totals(0, 0, 1, pkt.bytes, 0, 0) else ZERO);
    }
  }

  lemma {:induction false} WalkKeepsInv(cfg: Config, s: Server, from: Player, pkt: Packet, now: int, k: nat)
    requires Inv(cfg, s) && k <= |s.players|
    ensures Inv(cfg, Walked(cfg, s, from, pkt, now, k))
  {
    if k == 0 {
      WalkStarts(cfg, s, from, pkt, now);
    } else {
      hide Inv, Walked;
      WalkKeepsInv(cfg, s, from, pkt, now, k - 1);
      WalkStepKeepsInv(cfg, s, from, pkt, now, k - 1);
    }
  }

  /** The invariant does not look at the other fields. */
  lemma SameForInv(cfg: Config, s: Server, s': Server)
    requires Inv(cfg, s)
    requires s'.players == s.players && s'.totals == s.totals && s'.maxId == s.maxId
    requires s'.track == s.track && s'.dropped == s.dropped
    ensures Inv(cfg, s')
  {
  }

  lemma {:induction false} HandlePacketKeepsInv(cfg: Config, s: Server, from: Address, pkt: Packet, now: int)
    requires Inv(cfg, s)
    ensures Inv(cfg, HandlePacket(cfg, s, from, pkt, now).0)
  {
    hide Inv, Walked, Accept, AddBadClient, IsBlocked;
    var s0 := s.(out := s.out + Crossfeed(cfg));
    var s' := HandlePacket(cfg, s, from, pkt, now).0;
    SameForInv(cfg, s, s0);
    if IsBlocked(s0.blackList, from.ip) {
      SameForInv(cfg, s, s');
    } else if pkt.fault.Some? {
      AddBadKeepsInv(cfg, s0, from, pkt.fault.value, pkt.bytes, now);
    } else if (pkt.relay && from.ip !in cfg.whitelist && from.ip !in cfg.relays) || pkt.kind == Ping || pkt.kind == Pong {
      SameForInv(cfg, s, s');
    } else {
      AcceptKeepsInv(cfg, s0, from, pkt, now);
      var (s1, sender) := Accept(cfg, s0, from, pkt, now);
      if sender.Some? {
        ForwardKeepsInv(cfg, s1, sender.value, pkt, now);
      }
    }
  }

  lemma ForwardKeepsInv(cfg: Config, s: Server, sender: nat, pkt: Packet, now: int)
    requires Inv(cfg, s) && sender < |s.players|
    ensures Inv(cfg, ForwardAccepted(cfg, s, sender, pkt, now).0)
  {
    hide Inv, Walked, RelaysFor;
    var p := s.players[sender];
    WalkKeepsInv(cfg, s, p, pkt, now, |s.players|);
    if SenderStays(s.players, sender, now) {
      SameForInv(cfg, Walked(cfg, s, p, pkt, now, |s.players|), ForwardAccepted(cfg, s, sender, pkt, now).0);
    } else {
      WalkKeepsInv(cfg, s, p, pkt, now, FirstTimedOut(s.players, now) + 1);
    }
  }

  /** The sweep from position `i` on, one drop at a time. */
  function SweepFrom(cfg: Config, s: Server, i: nat, now: int): Server
    decreases |s.players| - i
  {
    if i >= |s.players| then s
    else if s.players[i].Expired(now) then SweepFrom(cfg, DropClient(cfg, s, i), i + 1, now)
    else SweepFrom(cfg, s, i + 1, now)
  }

  lemma {:induction false} SweepFromKeepsInv(cfg: Config, s: Server, i: nat, now: int)
    requires Inv(cfg, s)
    ensures Inv(cfg, SweepFrom(cfg, s, i, now))
    decreases |s.players| - i
  {
    hide Inv;
    if i < |s.players| {
      if s.players[i].Expired(now) {
        DropKeepsInv(cfg, s, i);
        SweepFromKeepsInv(cfg, DropClient(cfg, s, i), i + 1, now);
      } else {
        SweepFromKeepsInv(cfg, s, i + 1, now);
      }
    }
  }

  function Low(players: seq<Player>, i: nat): nat
  {
    if i <= |players| then i else |players|
  }

  /** What the sweep leaves of the list from position `i` on, and drops. */
  function RestKept(players: seq<Player>, i: nat, now: int): seq<Player>
  {
    players[..Low(players, i)] + Sweep(players[Low(players, i)..], PlayerExpired(now))
  }

  function RestErased(players: seq<Player>, i: nat, now: int): seq<Player>
  {
    Erased(players[Low(players, i)..], PlayerExpired(now))
  }

  /** The server after dropping the entries `gone`, leaving `list`. */
  function AfterDrops(cfg: Config, s: Server, list: seq<Player>, gone: seq<Player>): Server
  {
    s.(players := list, track := s.track + Goodbyes(cfg, gone),
       totals := AllLeave(s.totals, gone), dropped := s.dropped + gone)
  }

  lemma DropThenDrops(cfg: Config, s: Server, i: nat, list: seq<Player>, gone: seq<Player>)
    requires i < |s.players|
    ensures AfterDrops(cfg, DropClient(cfg, s, i), list, gone) == AfterDrops(cfg, s, list, [s.players[i]] + gone)
  {
    hide Goodbyes, AllLeave;
    var p := s.players[i];
    GoodbyesCons(cfg, p, gone);
    AllLeaveCons(s.totals, p, gone);
    assert s.dropped + ([p] + gone) == (s.dropped + [p]) + gone;
  }

  lemma NoDrops(cfg: Config, s: Server)
    ensures AfterDrops(cfg, s, s.players, []) == s
  {
    assert s.track + [] == s.track;
  }

  lemma {:induction false} SweepFromResult(cfg: Config, s: Server, i: nat, now: int)
    requires i <= |s.players| + 1
    ensures SweepFrom(cfg, s, i, now) ==
            AfterDrops(cfg, s, RestKept(s.players, i, now), RestErased(s.players, i, now))
    decreases |s.players| - i
  {
    hide AfterDrops, RestKept, RestErased;
    var list := s.players;
    if i >= |list| {
      RestEnds(list, i, now);
      NoDrops(cfg, s);
    } else if list[i].Expired(now) {
      var s1 := DropClient(cfg, s, i);
      SweepFromResult(cfg, s1, i + 1, now);
      SweepRestDrop(list, i, now);
      DropThenDrops(cfg, s, i, RestKept(s1.players, i + 1, now), RestErased(s1.players, i + 1, now));
    } else {
      SweepFromResult(cfg, s, i + 1, now);
      SweepRestKeep(list, i, now);
    }
  }

  lemma RestEnds(list: seq<Player>, i: nat, now: int)
    requires i >= |list|
    ensures RestKept(list, i, now) == list && RestErased(list, i, now) == []
  {
    SweepEnds(list, PlayerExpired(now));
    hide Sweep, Erased;
    assert list[..|list|] == list && list[|list|..] == [];
  }

  lemma SweepRestKeep(list: seq<Player>, i: nat, now: int)
    requires i < |list| && !list[i].Expired(now)
    ensures RestKept(list, i, now) == RestKept(list, i + 1, now)
    ensures RestErased(list, i, now) == RestErased(list, i + 1, now)
  {
    hide Sweep, Erased;
    SweepKeep(list, i, PlayerExpired(now));
  }

  lemma SweepRestDrop(list: seq<Player>, i: nat, now: int)
    requires i < |list| && list[i].Expired(now)
    ensures RestKept(list, i, now) == RestKept(Without(list, i), i + 1, now)
    ensures RestErased(list, i, now) == [list[i]] + RestErased(Without(list, i), i + 1, now)
  {
    hide Sweep, Erased;
    SweepDrop(list, i, PlayerExpired(now));
  }

  lemma {:induction false} GoodbyesCons(cfg: Config, p: Player, gone: seq<Player>)
    ensures Goodbyes(cfg, [p] + gone) ==
            (if p.IsPilot() && cfg.isTracked && p.name != MPDUMMY then [Disconnect(p.name)] else []) + Goodbyes(cfg, gone)
  {
    var all := [p] + gone;
    if gone == [] {
      assert all[..0] == [];
    } else {
      assert all[..|all| - 1] == [p] + gone[..|gone| - 1];
      GoodbyesCons(cfg, p, gone[..|gone| - 1]);
    }
  }

  lemma {:induction false} AllLeaveCons(t: Totals, p: Player, gone: seq<Player>)
    ensures AllLeave(t, [p] + gone) == AllLeave(Leaves(t, p), gone)
  {
    var all := [p] + gone;
    if gone == [] {
      assert all[..0] == [];
    } else {
      assert all[..|all| - 1] == [p] + gone[..|gone| - 1];
      AllLeaveCons(t, p, gone[..|gone| - 1]);
    }
  }

  lemma SweepKeepsInv(cfg: Config, s: Server, now: int)
    requires Inv(cfg, s)
    ensures Inv(cfg, SweepPlayers(cfg, s, now))
  {
    hide Inv, Sweep, Erased, Goodbyes, AllLeave, SweepFrom;
    assert s.players[0..] == s.players;
    SweepFromResult(cfg, s, 0, now);
    assert RestKept(s.players, 0, now) == Sweep(s.players, PlayerExpired(now));
    SweepFromKeepsInv(cfg, s, 0, now);
  }

  lemma ReportKeepsInv(cfg: Config, s: Server)
    requires Inv(cfg, s)
    ensures Inv(cfg, ReportPositions(cfg, s))
  {
    hide Balanced, WellOrdered, Unique, Tracked, Session;
    forall name
      ensures Session(ReportPositions(cfg, s).track, name) == Session(s.track, name)
    {
      SessionSnoc(s.track, Positions(PilotNames(s.players)), name);
    }
  }

  lemma StartInv(cfg: Config, anyID: nat)
    ensures Inv(cfg, Server([], anyID, ZERO, 0, [], [], [], []))
  {
  }

  /** Main invariant: every state of every run, also the last one of a run that
      loses track of a sender. */
  lemma {:induction false} RunKeepsInv(cfg: Config, anyID: nat, events: seq<Event>)
    ensures Inv(cfg, Exec(cfg, anyID, events).0)
  {
    hide Inv, HandlePacket, SweepPlayers, ReportPositions;
    if events == [] {
      StartInv(cfg, anyID);
    } else {
      RunKeepsInv(cfg, anyID, events[..|events| - 1]);
      var s := Exec(cfg, anyID, events[..|events| - 1]).0;
      match events[|events| - 1]
      case PacketArrives(from, pkt, now) => HandlePacketKeepsInv(cfg, s, from, pkt, now);
      case SweepDue(now) => SweepKeepsInv(cfg, s, now);
      case BlackListSweepDue(now) => SameForInv(cfg, s, SweepBlackList(s, now));
      case ReportDue => ReportKeepsInv(cfg, s);
    }
  }

  // ---------------------------------------------------------------------
  // What follows for whole runs

  function CountLocal(players: seq<Player>): nat
  {
    if players == [] then 0 else CountLocal(players[1..]) + if players[0].isLocal then 1 else 0
  }

  lemma {:induction false} CountLocalSnoc(players: seq<Player>, p: Player)
    ensures CountLocal(players + [p]) == CountLocal(players) + if p.isLocal then 1 else 0
  {
    if players != [] {
      assert (players + [p])[1..] == players[1..] + [p];
      CountLocalSnoc(players[1..], p);
    }
  }

  lemma {:induction false} TallyCounts(players: seq<Player>)
    ensures Tally(players).locals == CountLocal(players)
    ensures Tally(players).remotes == |players| - CountLocal(players)
  {
    if players != [] {
      var front, p := players[..|players| - 1], players[|players| - 1];
      assert players == front + [p];
      TallyCounts(front);
      CountLocalSnoc(front, p);
    }
  }

  /** The registry: IDs increase along the list and stay at most the highest ID
      given out, error-free entries have distinct names, entries with errors
      distinct addresses, the client counters count the list, and the packet
      and byte counters of the list are those of all players that ever were. */
  lemma {:induction false} RegistryInvariant(cfg: Config, anyID: nat, events: seq<Event>)
    ensures var s := Exec(cfg, anyID, events).0;
            var listed, gone := Tally(s.players), Tally(s.dropped);
            && WellOrdered(s.players, s.maxId) && Unique(s.players)
            && s.totals.locals == CountLocal(s.players)
            && s.totals.remotes == |s.players| - CountLocal(s.players)
            && s.totals.pktsRcvd == listed.pktsRcvd + gone.pktsRcvd
            && s.totals.bytesRcvd == listed.bytesRcvd + gone.bytesRcvd
            && s.totals.pktsSent == listed.pktsSent + gone.pktsSent
            && s.totals.bytesSent == listed.bytesSent + gone.bytesSent
  {
    hide Session, Exec, Tally;
    RunKeepsInv(cfg, anyID, events);
    TallyCounts(Exec(cfg, anyID, events).0.players);
  }

  /** The tracker's view: for every callsign but the dummy, CONNECT and DISCONNECT
      alternate, starting with CONNECT, and the session is open exactly while a
      local error-free entry of that name is listed. */
  lemma {:induction false} SessionLog(cfg: Config, anyID: nat, events: seq<Event>, name: string)
    requires cfg.isTracked
    ensures var s := Exec(cfg, anyID, events).0;
            && Session(s.track, name) != Broken
            && (name != MPDUMMY ==> (Session(s.track, name) == Open <==> Listed(s.players, name)))
            && (name == MPDUMMY ==> Session(s.track, name) == Closed)
  {
    hide Session, Exec;
    RunKeepsInv(cfg, anyID, events);
  }

  lemma {:induction false} PilotNamesListed(players: seq<Player>, name: string)
    ensures name in PilotNames(players) <==> Listed(players, name)
  {
    if players != [] {
      var front, p := players[..|players| - 1], players[|players| - 1];
      assert players == front + [p];
      PilotNamesListed(front, name);
      ListedSnoc(front, p, name);
    }
  }

  lemma {:induction false} PilotNamesDistinct(players: seq<Player>)
    requires Unique(players)
    ensures Distinct(PilotNames(players))
  {
    if players != [] {
      var front, p := players[..|players| - 1], players[|players| - 1];
      PilotNamesDistinct(front);
      PilotNamesListed(front, p.name);
      if p.IsPilot() && Listed(front, p.name) {
        assert false;
      }
    }
  }

  /** A position report names every open session once, and the dummy callsign
      if it is listed; there is none when there is nothing to report. */
  lemma ReportNamesOpenSessions(cfg: Config, anyID: nat, events: seq<Event>)
    requires cfg.isTracked
    ensures var s := Exec(cfg, anyID, events).0;
            var names := PilotNames(s.players);
            && ReportPositions(cfg, s).track == s.track + (if names == [] then [] else [Positions(names)])
            && Distinct(names)
            && forall name :: name in names <==>
                 Session(s.track, name) == Open || (name == MPDUMMY && Listed(s.players, MPDUMMY))
  {
    hide Session, Exec;
    RunKeepsInv(cfg, anyID, events);
    var s := Exec(cfg, anyID, events).0;
    PilotNamesDistinct(s.players);
    forall name
      ensures name in PilotNames(s.players) <==>
              Session(s.track, name) == Open || (name == MPDUMMY && Listed(s.players, MPDUMMY))
    {
      PilotNamesListed(s.players, name);
    }
  }
}
