/** The entries of the player list and what one server does with them, as
    functions on values. The class in server.dfy does the same in place. */
module Players {
  import opened Wrappers
  import opened RelayRules
  import opened ExpirySweep

  datatype Address = Address(ip: Ip, port: nat)

  type Pos = (real, real, real)

  const UPDATE_INACTIVE_PERIOD := 1
  const DEFAULT_BLOCK_TIME := 172800
  const BAD_CLIENT := "* Bad Client *"
  const MPDUMMY := "mpdummy"

  /** FG_Player. */
  datatype Player = Player(
    id: nat,
    timeout: int,
    name: string,
    address: Address,
    joinTime: int,
    lastSeen: int,
    lastSent: int,
    pktsRcvd: int,
    bytesRcvd: int,
    pktsSent: int,
    bytesSent: int,
    isLocal: bool,
    hasErrors: bool,
    error: string,
    modelName: string,
    pos: Pos,
    radarRange: int,
    lastRelayedToInactive: int,
    doUpdate: bool)
  {
    function UpdateRcvd(bytes: nat, now: int): Player
    {
      this.(pktsRcvd := pktsRcvd + 1, bytesRcvd := bytesRcvd + bytes, lastSeen := now)
    }

    function UpdateSent(bytes: nat, now: int): Player
    {
      this.(pktsSent := pktsSent + 1, bytesSent := bytesSent + bytes, lastSent := now)
    }

    /** Listed with the tracker: local and free of errors. */
    predicate IsPilot()
    {
      isLocal && !hasErrors
    }

    predicate TimedOut(now: int)
    {
      hasErrors && now - lastSeen > timeout
    }

    /** What the expiry sweep looks for. */
    predicate Expired(now: int)
    {
      || (timeout != 0 && now - lastSeen > timeout)
      || (now - lastSeen > timeout && now - joinTime > 30)
    }
  }

  datatype Kind = PosData | Ping | Pong | OtherKind

  /** A received packet; `fault` is why it is not valid, if it is not; the two
      halves of the radar range are as found in the header. */
  datatype Packet = Packet(
    fault: Option<string>,
    relay: bool,
    kind: Kind,
    name: string,
    pos: Pos,
    modelName: string,
    radarHigh: nat,
    radarLow: nat,
    bytes: nat)
  {
    predicate Settled()
    {
      pos.0 != 0.0 && pos.1 != 0.0 && pos.2 != 0.0
    }

    function Body(): Body
    {
      if kind == PosData then Position(Settled()) else OtherMessage
    }

    /** Callsigns that start with "obs" are not shown to other clients. */
    predicate IsObserver()
    {
      "obs" <= name
    }
  }

  datatype Config = Config(
    isHub: bool,
    isTracked: bool,
    playerExpires: int,
    outOfReach: int,
    maxRadarRange: int,
    relays: seq<Ip>,
    whitelist: set<Ip>,
    crossfeeds: seq<Address>,
    distance: (Pos, Pos) -> real)

  datatype BlockEntry = BlockEntry(ip: Ip, timeout: int, lastSeen: int)
  {
    predicate Expired(now: int)
    {
      timeout != 0 && now - lastSeen > timeout
    }
  }

  datatype TrackMsg = Connect(name: string) | Disconnect(name: string) | Positions(names: seq<string>)

  datatype Output =
    | ToClient(id: nat, to: Address)
    | ToRelay(ip: Ip)
    | ToCrossfeed(to: Address)
    | PongTo(to: Address)

  /** Counters: of one player, of the list, or of several players together. */
  datatype Totals = Totals(pktsRcvd: int, bytesRcvd: int, pktsSent: int, bytesSent: int, locals: int, remotes: int)
  {
    function Plus(t: Totals): Totals
    {
      Totals(pktsRcvd + t.pktsRcvd, bytesRcvd + t.bytesRcvd, pktsSent + t.pktsSent, bytesSent + t.bytesSent,
             locals + t.locals, remotes + t.remotes)
    }
  }

  const ZERO := Totals(0, 0, 0, 0, 0, 0)

  function TotalsOf(p: Player): Totals
  {
    Totals(p.pktsRcvd, p.bytesRcvd, p.pktsSent, p.bytesSent,
           if p.isLocal then 1 else 0, if p.isLocal then 0 else 1)
  }

  function Tally(players: seq<Player>): Totals
  {
    if players == [] then ZERO
    else Tally(players[..|players| - 1]).Plus(TotalsOf(players[|players| - 1]))
  }

  /** FG_SERVER. `totals` are the counters of the player list and the numbers
      of local and remote clients; `track` are the messages queued for the
      tracker, `out` the datagrams sent, `dropped` the entries dropped. */
  datatype Server = Server(
    players: seq<Player>,
    maxId: nat,
    totals: Totals,
    peak: nat,
    blackList: seq<BlockEntry>,
    track: seq<TrackMsg>,
    out: seq<Output>,
    dropped: seq<Player>)

  // ---------------------------------------------------------------------
  // Searching

  /** The first entry of that name, or the length. */
  function IndexOfName(players: seq<Player>, name: string): (i: nat)
    ensures i <= |players|
    ensures i < |players| ==> players[i].name == name
    ensures forall j :: 0 <= j < i ==> players[j].name != name
  {
    if players == [] || players[0].name == name then 0 else 1 + IndexOfName(players[1..], name)
  }

  /** The first entry at that address, or the length. */
  function IndexOfIp(players: seq<Player>, ip: Ip): (i: nat)
    ensures i <= |players|
    ensures i < |players| ==> players[i].address.ip == ip
    ensures forall j :: 0 <= j < i ==> players[j].address.ip != ip
  {
    if players == [] || players[0].address.ip == ip then 0 else 1 + IndexOfIp(players[1..], ip)
  }

  /** The last entry at that address, or the length. */
  function LastAtIp(players: seq<Player>, ip: Ip): (i: nat)
    ensures i <= |players|
    ensures i < |players| ==> players[i].address.ip == ip
    ensures i == |players| ==> forall j :: 0 <= j < |players| ==> players[j].address.ip != ip
    ensures forall j :: i < j < |players| ==> players[j].address.ip != ip
  {
    if players == [] then 0
    else
      var n := |players| - 1;
      if players[n].address.ip == ip then n
      else
        var i := LastAtIp(players[..n], ip);
        if i == n then n + 1 else i
  }

  /** Looking up an address marks every entry there as seen. */
  function MarkSeen(players: seq<Player>, ip: Ip, now: int): (r: seq<Player>)
    ensures |r| == |players|
  {
    seq(|players|, i requires 0 <= i < |players| =>
      if players[i].address.ip == ip then players[i].(lastSeen := now) else players[i])
  }

  function MarkBlocked(list: seq<BlockEntry>, ip: Ip, now: int): (r: seq<BlockEntry>)
    ensures |r| == |list|
  {
    seq(|list|, i requires 0 <= i < |list| =>
      if list[i].ip == ip then list[i].(lastSeen := now) else list[i])
  }

  predicate IsBlocked(list: seq<BlockEntry>, ip: Ip)
  {
    exists i :: 0 <= i < |list| && list[i].ip == ip
  }

  // ---------------------------------------------------------------------
  // Adding and dropping

  function Tell(cfg: Config, s: Server, name: string, msg: TrackMsg): Server
  {
    if !cfg.isTracked || name == MPDUMMY then s else s.(track := s.track + [msg])
  }

  function AddPlayer(s: Server, p: Player): Server
  {
    s.(maxId := s.maxId + 1, players := s.players + [p.(id := s.maxId + 1)],
       totals := s.totals.Plus(TotalsOf(p)))
  }

  function BadPlayer(cfg: Config, from: Address, error: string, isLocal: bool, bytes: nat, now: int): Player
  {
    Player(0, cfg.playerExpires, BAD_CLIENT, from, now, now, 0, 1, bytes, 0, 0, isLocal, true, error,
           "* unknown *", (0.0, 0.0, 0.0), 0, 0, false)
  }

  function AddBadClient(cfg: Config, s: Server, from: Address, error: string, isLocal: bool, bytes: nat, now: int): Server
  {
    var seen := MarkSeen(s.players, from.ip, now);
    var i := LastAtIp(s.players, from.ip);
    if i < |s.players| then
      s.(players := seen[i := seen[i].UpdateRcvd(bytes, now)],
         totals := s.totals.Plus(Totals(1, bytes, 0, 0, 0, 0)))
    else AddPlayer(s, BadPlayer(cfg, from, error, isLocal, bytes, now))
  }

  /** The radar range of a new player. */
  function FirstRadarRange(cfg: Config, high: nat, low: nat): int
  {
    if low != 0 || high == 0 then cfg.outOfReach
    else if high <= cfg.maxRadarRange then high
    else cfg.outOfReach
  }

  function NewPlayer(cfg: Config, from: Address, pkt: Packet, now: int): Player
  {
    Player(0, cfg.playerExpires, pkt.name, from, now, now, 0, 0, 0, 0, 0, !pkt.relay, false, "",
           pkt.modelName, pkt.pos, FirstRadarRange(cfg, pkt.radarHigh, pkt.radarLow), 0, false)
  }

  function AddClient(cfg: Config, s: Server, from: Address, pkt: Packet, now: int): Server
  {
    var s1 := AddPlayer(s, NewPlayer(cfg, from, pkt, now));
    var s2 := s1.(peak := if |s1.players| > s1.peak then |s1.players| else s1.peak);
    if pkt.relay then s2 else Tell(cfg, s2, pkt.name, Connect(pkt.name))
  }

  function Without<T>(s: seq<T>, i: nat): (r: seq<T>)
    requires i < |s|
    ensures |r| == |s| - 1
  {
    s[..i] + s[i + 1..]
  }

  /** One client fewer of the kind of `p`. */
  function Leaves(t: Totals, p: Player): Totals
  {
    if p.isLocal then t.(locals := t.locals - 1) else t.(remotes := t.remotes - 1)
  }

  function DropClient(cfg: Config, s: Server, i: nat): Server
    requires i < |s.players|
  {
    var p := s.players[i];
    var s1 := if p.IsPilot() then Tell(cfg, s, p.name, Disconnect(p.name)) else s;
    s1.(players := Without(s.players, i), totals := Leaves(s.totals, p), dropped := s.dropped + [p])
  }

  // ---------------------------------------------------------------------
  // Accepting a packet

  /** The radar range after a further packet of the same player. */
  function NextRadarRange(cfg: Config, range: int, high: nat, low: nat): int
  {
    if high != 0 && low == 0 && high <= cfg.maxRadarRange then high else range
  }

  /** A packet from the address that introduced the callsign. */
  function UpdateSender(cfg: Config, s: Server, i: nat, pkt: Packet, now: int): (r: (Server, bool))
    requires i < |s.players|
    ensures |r.0.players| == |s.players|
  {
    var p := s.players[i].UpdateRcvd(pkt.bytes, now);
    var t := s.totals.Plus(Totals(1, pkt.bytes, 0, 0, 0, 0));
    if pkt.kind == PosData && !pkt.Settled() then (s.(players := s.players[i := p], totals := t), false)
    else
      var p1 := if pkt.kind == PosData then p.(pos := pkt.pos) else p;
      var p2 := p1.(radarRange := NextRadarRange(cfg, p1.radarRange, pkt.radarHigh, pkt.radarLow));
      (s.(players := s.players[i := p2], totals := t), true)
  }

  /** The list position of the sender, if the packet is to be forwarded. */
  function Accept(cfg: Config, s: Server, from: Address, pkt: Packet, now: int): (r: (Server, Option<nat>))
    ensures r.1.Some? ==> r.1.value < |r.0.players|
  {
    var i := IndexOfName(s.players, pkt.name);
    if i == |s.players| then
      if pkt.kind != PosData then (s, None) else (AddClient(cfg, s, from, pkt, now), Some(|s.players|))
    else
      var found := s.(players := s.players[i := s.players[i].(lastSeen := now)]);
      if s.players[i].address.ip != from.ip then (found, None)
      else
        var (s', ok) := UpdateSender(cfg, found, i, pkt, now);
        (s', if ok then Some(i) else None)
  }

  // ---------------------------------------------------------------------
  // Forwarding to local clients

  predicate Wants(cfg: Config, sender: Player, receiver: Player)
  {
    cfg.distance(sender.pos, receiver.pos) < receiver.radarRange as real
  }

  predicate Receives(cfg: Config, sender: Player, pkt: Packet, c: Player)
  {
    !c.hasErrors && c.name != pkt.name && !pkt.IsObserver() && Wants(cfg, sender, c) && c.isLocal
  }

  /** The sender itself is checked for a due update to inactive relays. */
  function CheckDue(p: Player, now: int): Player
  {
    if now - p.lastRelayedToInactive > UPDATE_INACTIVE_PERIOD then
      p.(doUpdate := true, lastRelayedToInactive := now)
    else p.(doUpdate := false)
  }

  function Visit(cfg: Config, sender: Player, pkt: Packet, now: int, c: Player): Player
  {
    if c.hasErrors then c
    else if c.name == pkt.name then CheckDue(c, now)
    else if Receives(cfg, sender, pkt, c) then c.UpdateSent(pkt.bytes, now)
    else c
  }

  /** The entries left by the walk, the datagrams it sends, and the entries it
      drops, for a walk over `list`. */
  function Visited(cfg: Config, sender: Player, pkt: Packet, now: int, list: seq<Player>): seq<Player>
  {
    if list == [] then []
    else
      var c := list[|list| - 1];
      Visited(cfg, sender, pkt, now, list[..|list| - 1])
      + if c.TimedOut(now) then [] else [Visit(cfg, sender, pkt, now, c)]
  }

  function Deliveries(cfg: Config, sender: Player, pkt: Packet, list: seq<Player>): seq<Output>
  {
    if list == [] then []
    else
      var c := list[|list| - 1];
      Deliveries(cfg, sender, pkt, list[..|list| - 1])
      + if Receives(cfg, sender, pkt, c) then [ToClient(c.id, c.address)] else []
  }

  function Overdue(now: int, list: seq<Player>): seq<Player>
  {
    if list == [] then []
    else
      var c := list[|list| - 1];
      Overdue(now, list[..|list| - 1]) + if c.TimedOut(now) then [c] else []
  }

  function AllLeave(t: Totals, gone: seq<Player>): Totals
  {
    if gone == [] then t else Leaves(AllLeave(t, gone[..|gone| - 1]), gone[|gone| - 1])
  }

  /** The walk after its first `k` entries. */
  function Walked(cfg: Config, s: Server, sender: Player, pkt: Packet, now: int, k: nat): Server
    requires k <= |s.players|
  {
    var past := s.players[..k];
    var sent := Deliveries(cfg, sender, pkt, past);
    s.(players := Visited(cfg, sender, pkt, now, past) + s.players[k..],
       totals := AllLeave(s.totals.Plus(Totals(0, 0, |sent|, |sent| * pkt.bytes, 0, 0)), Overdue(now, past)),
       out := s.out + sent,
       dropped := s.dropped + Overdue(now, past))
  }

  /** No entry up to and including the sender is about to be dropped. */
  predicate SenderStays(players: seq<Player>, sender: nat, now: int)
    requires sender < |players|
  {
    forall i :: 0 <= i <= sender ==> !players[i].TimedOut(now)
  }

  function FirstTimedOut(players: seq<Player>, now: int): (i: nat)
    ensures i <= |players|
    ensures i < |players| ==> players[i].TimedOut(now)
    ensures forall j :: 0 <= j < i ==> !players[j].TimedOut(now)
  {
    if players == [] || players[0].TimedOut(now) then 0 else 1 + FirstTimedOut(players[1..], now)
  }

  // ---------------------------------------------------------------------
  // Forwarding to relays

  /** A relay takes part in full-rate updates when the first player listed at
      its address is in range of the sender. */
  predicate IsInRange(cfg: Config, players: seq<Player>, relay: Ip, sender: Player)
  {
    var i := IndexOfIp(players, relay);
    i < |players| && Wants(cfg, sender, players[i])
  }

  function WantedBy(cfg: Config, players: seq<Player>, sender: Player): set<Ip>
  {
    set x | x in cfg.relays && (sender.doUpdate || IsInRange(cfg, players, x, sender))
  }

  function RelayOutputs(ips: seq<Ip>): (r: seq<Output>)
    ensures |r| == |ips|
  {
    seq(|ips|, i requires 0 <= i < |ips| => ToRelay(ips[i]))
  }

  function RelaysFor(cfg: Config, players: seq<Player>, sender: Player): seq<Ip>
  {
    RelayTargets(cfg.relays, cfg.isHub, Entry(sender.address.ip, sender.isLocal), WantedBy(cfg, players, sender))
  }

  function SendToRelays(cfg: Config, s: Server, sender: nat): Server
    requires sender < |s.players|
  {
    s.(out := s.out + RelayOutputs(RelaysFor(cfg, s.players, s.players[sender])))
  }

  // ---------------------------------------------------------------------
  // A whole packet

  /** `SenderLost`: the iterator to the sender has been invalidated by erasing
      an entry at or before it, and what the program does next is undefined. */
  datatype Outcome = Done | SenderLost

  function ForwardAccepted(cfg: Config, s: Server, sender: nat, pkt: Packet, now: int): (Server, Outcome)
    requires sender < |s.players|
  {
    var p := s.players[sender];
    if SenderStays(s.players, sender, now) then
      VisitedKeepsPlace(cfg, s, sender, pkt, now);
      (SendToRelays(cfg, Walked(cfg, s, p, pkt, now, |s.players|), sender), Done)
    else
      (Walked(cfg, s, p, pkt, now, FirstTimedOut(s.players, now) + 1), SenderLost)
  }

  function Crossfeed(cfg: Config): (r: seq<Output>)
    ensures |r| == |cfg.crossfeeds|
  {
    seq(|cfg.crossfeeds|, i requires 0 <= i < |cfg.crossfeeds| => ToCrossfeed(cfg.crossfeeds[i]))
  }

  function HandlePacket(cfg: Config, s0: Server, from: Address, pkt: Packet, now: int): (Server, Outcome)
  {
    var s := s0.(out := s0.out + Crossfeed(cfg));
    if IsBlocked(s.blackList, from.ip) then (s.(blackList := MarkBlocked(s.blackList, from.ip, now)), Done)
    else if pkt.fault.Some? then (AddBadClient(cfg, s, from, pkt.fault.value, true, pkt.bytes, now), Done)
    else if pkt.relay && from.ip !in cfg.whitelist && from.ip !in cfg.relays then
      (s.(blackList := s.blackList + [BlockEntry(from.ip, DEFAULT_BLOCK_TIME, now)]), Done)
    else if pkt.kind == Ping then (s.(out := s.out + [PongTo(from)]), Done)
    else if pkt.kind == Pong then (s, Done)
    else
      var (s1, sender) := Accept(cfg, s, from, pkt, now);
      if sender.None? then (s1, Done) else ForwardAccepted(cfg, s1, sender.value, pkt, now)
  }

  // ---------------------------------------------------------------------
  // Housekeeping

  /** The DISCONNECT messages for a number of dropped entries. */
  function Goodbyes(cfg: Config, gone: seq<Player>): seq<TrackMsg>
  {
    if gone == [] then []
    else
      var p := gone[|gone| - 1];
      Goodbyes(cfg, gone[..|gone| - 1])
      + if p.IsPilot() && cfg.isTracked && p.name != MPDUMMY then [Disconnect(p.name)] else []
  }

  function PlayerExpired(now: int): Player -> bool
  {
    (p: Player) => p.Expired(now)
  }

  function BlockExpired(now: int): BlockEntry -> bool
  {
    (b: BlockEntry) => b.Expired(now)
  }

  function SweepPlayers(cfg: Config, s: Server, now: int): Server
  {
    var bad := PlayerExpired(now);
    var gone := Erased(s.players, bad);
    s.(players := Sweep(s.players, bad), track := s.track + Goodbyes(cfg, gone),
       totals := AllLeave(s.totals, gone), dropped := s.dropped + gone)
  }

  function SweepBlackList(s: Server, now: int): Server
  {
    s.(blackList := Sweep(s.blackList, BlockExpired(now)))
  }

  function PilotNames(players: seq<Player>): seq<string>
  {
    if players == [] then []
    else
      var p := players[|players| - 1];
      PilotNames(players[..|players| - 1]) + if p.IsPilot() then [p.name] else []
  }

  /** The periodic position report. */
  function ReportPositions(cfg: Config, s: Server): Server
  {
    var names := PilotNames(s.players);
    if !cfg.isTracked || names == [] then s else s.(track := s.track + [Positions(names)])
  }

  // ---------------------------------------------------------------------

  lemma VisitedSnoc(cfg: Config, sender: Player, pkt: Packet, now: int, list: seq<Player>, k: nat)
    requires k < |list|
    ensures Visited(cfg, sender, pkt, now, list[..k + 1]) ==
            Visited(cfg, sender, pkt, now, list[..k])
            + if list[k].TimedOut(now) then [] else [Visit(cfg, sender, pkt, now, list[k])]
    ensures Deliveries(cfg, sender, pkt, list[..k + 1]) ==
            Deliveries(cfg, sender, pkt, list[..k])
            + if Receives(cfg, sender, pkt, list[k]) then [ToClient(list[k].id, list[k].address)] else []
    ensures Overdue(now, list[..k + 1]) == Overdue(now, list[..k]) + if list[k].TimedOut(now) then [list[k]] else []
  {
    assert list[..k + 1][..k] == list[..k];
  }

  lemma {:induction false} VisitedPrefix(cfg: Config, sender: Player, pkt: Packet, now: int, list: seq<Player>, k: nat)
    requires k <= |list| && forall i :: 0 <= i < k ==> !list[i].TimedOut(now)
    ensures |Visited(cfg, sender, pkt, now, list[..k])| == k
    ensures forall i :: 0 <= i < k ==> Visited(cfg, sender, pkt, now, list[..k])[i] == Visit(cfg, sender, pkt, now, list[i])
  {
    if k > 0 {
      VisitedPrefix(cfg, sender, pkt, now, list, k - 1);
      VisitedSnoc(cfg, sender, pkt, now, list, k - 1);
    }
  }

  lemma {:induction false} VisitedGrows(cfg: Config, sender: Player, pkt: Packet, now: int, list: seq<Player>, k: nat)
    requires k <= |list|
    ensures Visited(cfg, sender, pkt, now, list[..k]) <= Visited(cfg, sender, pkt, now, list)
    decreases |list| - k
  {
    if k < |list| {
      VisitedGrows(cfg, sender, pkt, now, list, k + 1);
      VisitedSnoc(cfg, sender, pkt, now, list, k);
    } else {
      assert list[..k] == list;
    }
  }

  /** A sender that stays keeps its place in the list. */
  lemma VisitedKeepsPlace(cfg: Config, s: Server, i: nat, pkt: Packet, now: int)
    requires i < |s.players| && SenderStays(s.players, i, now)
    ensures var after := Walked(cfg, s, s.players[i], pkt, now, |s.players|).players;
            i < |after| && after[i] == Visit(cfg, s.players[i], pkt, now, s.players[i])
  {
    var list := s.players;
    VisitedPrefix(cfg, list[i], pkt, now, list, i + 1);
    VisitedGrows(cfg, list[i], pkt, now, list, i + 1);
    assert list[..|list|] == list;
  }

  lemma {:induction false} AllLeavePlus(t: Totals, d: Totals, gone: seq<Player>)
    ensures AllLeave(t.Plus(d), gone) == AllLeave(t, gone).Plus(d)
  {
    if gone != [] {
      AllLeavePlus(t, d, gone[..|gone| - 1]);
    }
  }

  /** Where the cursor of the walk stands after `k` entries. */
  function Cursor(cfg: Config, s: Server, from: Player, pkt: Packet, now: int, k: nat): nat
    requires k <= |s.players|
  {
    |Visited(cfg, from, pkt, now, s.players[..k])|
  }

  lemma WalkStarts(cfg: Config, s: Server, from: Player, pkt: Packet, now: int)
    ensures Walked(cfg, s, from, pkt, now, 0) == s && Cursor(cfg, s, from, pkt, now, 0) == 0
  {
    assert |Deliveries(cfg, from, pkt, s.players[..0])| == 0;
  }

  lemma WalkedStepList(cfg: Config, s: Server, from: Player, pkt: Packet, now: int, k: nat)
    requires k < |s.players|
    ensures var w, w' := Walked(cfg, s, from, pkt, now, k), Walked(cfg, s, from, pkt, now, k + 1);
            var i, i', c := Cursor(cfg, s, from, pkt, now, k), Cursor(cfg, s, from, pkt, now, k + 1), s.players[k];
            && i < |w.players| && w.players[i] == c
            && |w.players| - i == |s.players| - k && |w'.players| - i' == |s.players| - (k + 1)
            && (if c.TimedOut(now)
                then i' == i && w'.players == Without(w.players, i)
                else i' == i + 1 && w'.players == w.players[i := Visit(cfg, from, pkt, now, c)])
  {
    hide Visit;
    VisitedSnoc(cfg, from, pkt, now, s.players, k);
    hide Visited;
    var L, c := s.players, s.players[k];
    var done := Visited(cfg, from, pkt, now, L[..k]);
    assert L[k..] == [c] + L[k + 1..];
    if c.TimedOut(now) {
      assert Without(done + L[k..], |done|) == done + L[k + 1..];
    } else {
      var v := Visit(cfg, from, pkt, now, c);
      assert (done + L[k..])[|done| := v] == (done + [v]) + L[k + 1..];
    }
  }

  lemma WalkedStepCounters(cfg: Config, s: Server, from: Player, pkt: Packet, now: int, k: nat)
    requires k < |s.players|
    ensures var w, w' := Walked(cfg, s, from, pkt, now, k), Walked(cfg, s, from, pkt, now, k + 1);
            var c := s.players[k];
            && w' == w.(players := w'.players, totals := w'.totals, out := w'.out, dropped := w'.dropped)
            && if c.TimedOut(now)
            then w'.totals == Leaves(w.totals, c) && w'.dropped == w.dropped + [c] && w'.out == w.out
            else
              && w'.dropped == w.dropped
              && if Receives(cfg, from, pkt, c)
                 then w'.out == w.out + [ToClient(c.id, c.address)]
                      && w'.totals == w.totals.Plus(Totals(0, 0, 1, pkt.bytes, 0, 0))
                 else w'.out == w.out && w'.totals == w.totals
  {
    VisitedSnoc(cfg, from, pkt, now, s.players, k);
    var L, c := s.players, s.players[k];
    var sent, sent' := Deliveries(cfg, from, pkt, L[..k]), Deliveries(cfg, from, pkt, L[..k + 1]);
    var gone, gone' := Overdue(now, L[..k]), Overdue(now, L[..k + 1]);
    assert Receives(cfg, from, pkt, c) ==> !c.TimedOut(now);
    hide Visited, Deliveries, Overdue, Receives;
    if c.TimedOut(now) {
      assert sent' == sent && gone' == gone + [c];
      AllLeaveSnoc(s.totals.Plus(Totals(0, 0, |sent|, |sent| * pkt.bytes, 0, 0)), gone, c);
    } else {
      assert gone' == gone;
      if Receives(cfg, from, pkt, c) {
        var d, e := Totals(0, 0, |sent|, |sent| * pkt.bytes, 0, 0), Totals(0, 0, 1, pkt.bytes, 0, 0);
        assert |sent'| * pkt.bytes == |sent| * pkt.bytes + pkt.bytes;
        assert s.totals.Plus(d).Plus(e) == s.totals.Plus(Totals(0, 0, |sent'|, |sent'| * pkt.bytes, 0, 0));
        AllLeavePlus(s.totals.Plus(d), e, gone);
      } else {
        assert sent' == sent;
      }
    }
  }

  lemma AllLeaveSnoc(t: Totals, gone: seq<Player>, p: Player)
    ensures AllLeave(t, gone + [p]) == Leaves(AllLeave(t, gone), p)
  {
    assert (gone + [p])[..|gone|] == gone;
  }
}
