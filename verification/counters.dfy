/** What the server's counters count: packets from the addresses that introduced their
    callsigns, invalid packets, and datagrams to clients. */
module Counters {
  import opened ExpirySweep
  import opened Players
  import opened Registry
  import opened Histories
  import opened Delivery
  import L = LazyRelay

  /** A packet is counted when it is invalid, or comes from where its callsign was listed. */
  ghost predicate Counts(cfg: Config, s: Server, ev: Event)
  {
    || (Arrives(s, ev) && ev.pkt.fault.Some?)
    || (Heard(cfg, s, ev) && exists p :: p in s.players && p.name == ev.pkt.name && p.address.ip == ev.from.ip)
  }

  ghost function PacketsCounted(cfg: Config, anyID: nat, events: seq<Event>): nat
  {
    if events == [] then 0
    else
      var front, ev := events[..|events| - 1], events[|events| - 1];
      PacketsCounted(cfg, anyID, front) + if Counts(cfg, Exec(cfg, anyID, front).0, ev) then 1 else 0
  }

  ghost function BytesCounted(cfg: Config, anyID: nat, events: seq<Event>): nat
  {
    if events == [] then 0
    else
      var front, ev := events[..|events| - 1], events[|events| - 1];
      BytesCounted(cfg, anyID, front) + if Counts(cfg, Exec(cfg, anyID, front).0, ev) then ev.pkt.bytes else 0
  }

  /** The length of what an event brings. */
  function Size(ev: Event): nat
  {
    if ev.PacketArrives? then ev.pkt.bytes else 0
  }

  ghost function BytesSent(cfg: Config, anyID: nat, events: seq<Event>): int
  {
    if events == [] then 0
    else
      var front, ev := events[..|events| - 1], events[|events| - 1];
      var before, after := Exec(cfg, anyID, front).0, Exec(cfg, anyID, events).0;
      BytesSent(cfg, anyID, front) + (ToClients(after.out) - ToClients(before.out)) * Size(ev)
  }

  /** How many of the datagrams go to clients. */
  function ToClients(out: seq<Output>): nat
  {
    if out == [] then 0 else ToClients(out[..|out| - 1]) + if out[|out| - 1].ToClient? then 1 else 0
  }

  lemma {:induction false} ToClientsAdd(a: seq<Output>, b: seq<Output>)
    ensures ToClients(a + b) == ToClients(a) + ToClients(b)
  {
    if b == [] {
      assert a + b == a;
    } else {
      assert (a + b)[..|a + b| - 1] == a + b[..|b| - 1];
      ToClientsAdd(a, b[..|b| - 1]);
    }
  }

  lemma {:induction false} AllToClients(out: seq<Output>)
    requires forall i :: 0 <= i < |out| ==> out[i].ToClient?
    ensures ToClients(out) == |out|
  {
    if out != [] {
      AllToClients(out[..|out| - 1]);
    }
  }

  lemma {:induction false} NoneToClients(out: seq<Output>)
    requires forall i :: 0 <= i < |out| ==> !out[i].ToClient?
    ensures ToClients(out) == 0
  {
    if out != [] {
      NoneToClients(out[..|out| - 1]);
    }
  }

  /** What a step adds to the counters; `size` is the length of the datagrams it sends to clients. */
  predicate Adds(s: Server, s': Server, packets: nat, bytes: nat, size: nat)
  {
    var copies := ToClients(s'.out) - ToClients(s.out);
    && s'.totals.pktsRcvd == s.totals.pktsRcvd + packets && s'.totals.bytesRcvd == s.totals.bytesRcvd + bytes
    && s'.totals.pktsSent == s.totals.pktsSent + copies && s'.totals.bytesSent == s.totals.bytesSent + copies * size
  }

  lemma {:induction false} LeavingCountsNothing(t: Totals, gone: seq<Player>)
    ensures var u := AllLeave(t, gone);
      u.pktsRcvd == t.pktsRcvd && u.bytesRcvd == t.bytesRcvd && u.pktsSent == t.pktsSent && u.bytesSent == t.bytesSent
  {
    if gone != [] {
      LeavingCountsNothing(t, gone[..|gone| - 1]);
    }
  }

  lemma WalkAdds(cfg: Config, s: Server, from: Player, pkt: Packet, now: int, k: nat)
    requires k <= |s.players|
    ensures Adds(s, Walked(cfg, s, from, pkt, now, k), 0, 0, pkt.bytes)
  {
    var past := s.players[..k];
    var sent := Deliveries(cfg, from, pkt, past);
    ClientsOnly(cfg, from, pkt, past);
    AllToClients(sent);
    ToClientsAdd(s.out, sent);
    LeavingCountsNothing(s.totals.Plus(Totals(0, 0, |sent|, |sent| * pkt.bytes, 0, 0)), Overdue(now, past));
  }

  lemma {:induction false} ClientsOnly(cfg: Config, from: Player, pkt: Packet, list: seq<Player>)
    ensures forall i :: 0 <= i < |Deliveries(cfg, from, pkt, list)| ==> Deliveries(cfg, from, pkt, list)[i].ToClient?
  {
    hide Receives;
    if list != [] {
      ClientsOnly(cfg, from, pkt, list[..|list| - 1]);
    }
  }

  lemma ForwardAdds(cfg: Config, s: Server, sender: nat, pkt: Packet, now: int)
    requires sender < |s.players|
    ensures Adds(s, ForwardAccepted(cfg, s, sender, pkt, now).0, 0, 0, pkt.bytes)
  {
    hide ToClients, Walked, RelaysFor;
    var p := s.players[sender];
    if SenderStays(s.players, sender, now) {
      VisitedKeepsPlace(cfg, s, sender, pkt, now);
      var w := Walked(cfg, s, p, pkt, now, |s.players|);
      WalkAdds(cfg, s, p, pkt, now, |s.players|);
      var relayed := RelayOutputs(RelaysFor(cfg, w.players, w.players[sender]));
      NoneToClients(relayed);
      ToClientsAdd(w.out, relayed);
    } else {
      WalkAdds(cfg, s, p, pkt, now, FirstTimedOut(s.players, now) + 1);
    }
  }

  lemma AcceptAdds(cfg: Config, s: Server, s0: Server, ev: Event)
    requires Regular(cfg, s) && Heard(cfg, s, ev) && ev.pkt.name != BAD_CLIENT && s0 == s.(out := s0.out)
    ensures var s1 := Accept(cfg, s0, ev.from, ev.pkt, ev.now).0;
      if Counts(cfg, s, ev) then Adds(s0, s1, 1, ev.pkt.bytes, ev.pkt.bytes) else Adds(s0, s1, 0, 0, ev.pkt.bytes)
  {
    hide ToClients;
    var i := IndexOfName(s.players, ev.pkt.name);
    if i < |s.players| {
      forall p | p in s.players && p.name == ev.pkt.name
        ensures p == s.players[i]
      {
        var k :| 0 <= k < |s.players| && s.players[k] == p;
        assert !s.players[i].hasErrors && !s.players[k].hasErrors by {
          assert s.players[i] in s.players && s.players[k] in s.players;
        }
      }
      assert s.players[i] in s.players;
    } else {
      forall p | p in s.players
        ensures p.name != ev.pkt.name
      {
      }
    }
  }

  lemma BadAdds(cfg: Config, s: Server, from: Address, error: string, bytes: nat, now: int)
    ensures Adds(s, AddBadClient(cfg, s, from, error, true, bytes, now), 1, bytes, bytes)
  {
    hide ToClients, MarkSeen, LastAtIp;
  }

  lemma CrossfeedAdds(cfg: Config, s: Server, size: nat)
    ensures Adds(s, s.(out := s.out + Crossfeed(cfg)), 0, 0, size)
  {
    hide ToClients;
    NoneToClients(Crossfeed(cfg));
    ToClientsAdd(s.out, Crossfeed(cfg));
  }

  lemma AddsOn(s: Server, s0: Server, s1: Server, s2: Server, packets: nat, bytes: nat, size: nat)
    requires Adds(s, s0, 0, 0, size) && Adds(s0, s1, packets, bytes, size) && Adds(s1, s2, 0, 0, size)
    ensures Adds(s, s2, packets, bytes, size)
  {
    hide ToClients;
    var a, b, c, d := ToClients(s.out), ToClients(s0.out), ToClients(s1.out), ToClients(s2.out);
    assert (b - a) * size + (c - b) * size + (d - c) * size == (d - a) * size;
  }

  lemma PongAdds(s: Server, to: Address, size: nat)
    ensures Adds(s, s.(out := s.out + [PongTo(to)]), 0, 0, size)
  {
    hide ToClients;
    NoneToClients([PongTo(to)]);
    ToClientsAdd(s.out, [PongTo(to)]);
  }

  lemma NothingAdds(s: Server, size: nat)
    ensures Adds(s, s, 0, 0, size)
  {
  }

  lemma PacketAdds(cfg: Config, s: Server, ev: Event)
    requires Regular(cfg, s) && ev.PacketArrives? && ev.pkt.name != BAD_CLIENT
    ensures var s' := React(cfg, s, ev).0;
      if Counts(cfg, s, ev) then Adds(s, s', 1, ev.pkt.bytes, ev.pkt.bytes) else Adds(s, s', 0, 0, ev.pkt.bytes)
  {
    hide Adds, Accept, ForwardAccepted, AddBadClient, IsBlocked, Regular, Crossfeed, MarkBlocked;
    var size := ev.pkt.bytes;
    var s0, s' := s.(out := s.out + Crossfeed(cfg)), React(cfg, s, ev).0;
    CrossfeedAdds(cfg, s, size);
    BlockedIs(s, ev);
    if ev.pkt.fault.Some? && Arrives(s, ev) {
      BadAdds(cfg, s0, ev.from, ev.pkt.fault.value, size, ev.now);
      NothingAdds(s', size);
      AddsOn(s, s0, s', s', 1, size, size);
    } else if Heard(cfg, s, ev) {
      HeardAdds(cfg, s, s0, ev);
    } else {
      OtherAdds(cfg, s, s0, ev);
      NothingAdds(s0, size);
      AddsOn(s, s0, s0, s', 0, 0, size);
    }
  }

  lemma HeardAdds(cfg: Config, s: Server, s0: Server, ev: Event)
    requires Regular(cfg, s) && ev.PacketArrives? && ev.pkt.name != BAD_CLIENT && Heard(cfg, s, ev)
    requires s0 == s.(out := s.out + Crossfeed(cfg))
    ensures var s' := React(cfg, s, ev).0;
      if Counts(cfg, s, ev) then Adds(s, s', 1, ev.pkt.bytes, ev.pkt.bytes) else Adds(s, s', 0, 0, ev.pkt.bytes)
  {
    hide Adds, Accept, ForwardAccepted, Regular, Counts, React, Heard, Crossfeed;
    var size, s' := ev.pkt.bytes, React(cfg, s, ev).0;
    CrossfeedAdds(cfg, s, size);
    AcceptAdds(cfg, s, s0, ev);
    HeardReacts(cfg, s, ev);
    var (s1, sender) := Accept(cfg, s0, ev.from, ev.pkt, ev.now);
    if sender.Some? {
      ForwardAdds(cfg, s1, sender.value, ev.pkt, ev.now);
    } else {
      NothingAdds(s1, size);
    }
    if Counts(cfg, s, ev) {
      AddsOn(s, s0, s1, s', 1, size, size);
    } else {
      AddsOn(s, s0, s1, s', 0, 0, size);
    }
  }

  /** A packet that is neither invalid nor heard: from a blocked address or an unknown relay, a
      ping or a pong. */
  lemma OtherAdds(cfg: Config, s: Server, s0: Server, ev: Event)
    requires ev.PacketArrives? && !Heard(cfg, s, ev) && !(Arrives(s, ev) && ev.pkt.fault.Some?)
    requires s0 == s.(out := s.out + Crossfeed(cfg))
    ensures Adds(s0, React(cfg, s, ev).0, 0, 0, ev.pkt.bytes)
  {
    hide Accept, ForwardAccepted, AddBadClient, IsBlocked, Crossfeed, MarkBlocked, ToClients;
    BlockedIs(s, ev);
    PongAdds(s0, ev.from, ev.pkt.bytes);
  }

  lemma EventAdds(cfg: Config, s: Server, ev: Event)
    requires Regular(cfg, s) && (ev.PacketArrives? ==> ev.pkt.name != BAD_CLIENT)
    ensures var s' := React(cfg, s, ev).0;
      if Counts(cfg, s, ev) then Adds(s, s', 1, ev.pkt.bytes, Size(ev)) else Adds(s, s', 0, 0, Size(ev))
  {
    hide ToClients, Regular, HandlePacket;
    match ev
    case PacketArrives(_, _, _) => PacketAdds(cfg, s, ev);
    case SweepDue(now) => LeavingCountsNothing(s.totals, Erased(s.players, PlayerExpired(now)));
    case BlackListSweepDue(_) =>
    case ReportDue =>
  }

  lemma StartCounts(cfg: Config, anyID: nat)
    ensures var s := Exec(cfg, anyID, []).0;
      s.totals.pktsRcvd == s.totals.bytesRcvd == s.totals.pktsSent == s.totals.bytesSent == 0 == ToClients(s.out)
  {
  }

  /** In every run that loses no sender, the counters are those numbers. */
  lemma {:induction false} CountersCount(cfg: Config, anyID: nat, events: seq<Event>)
    requires L.Callsigns(events) && Exec(cfg, anyID, events).1 == Done
    ensures var s := Exec(cfg, anyID, events).0;
      && s.totals.pktsRcvd == PacketsCounted(cfg, anyID, events)
      && s.totals.bytesRcvd == BytesCounted(cfg, anyID, events)
      && s.totals.pktsSent == ToClients(s.out)
      && s.totals.bytesSent == BytesSent(cfg, anyID, events)
  {
    hide Exec, React, Regular, Counts, ToClients;
    if events == [] {
      StartCounts(cfg, anyID);
    } else {
      var front, ev := events[..|events| - 1], events[|events| - 1];
      L.ExecSnoc(cfg, anyID, events);
      CountersCount(cfg, anyID, front);
      RunIsRegular(cfg, anyID, front);
      EventAdds(cfg, Exec(cfg, anyID, front).0, ev);
    }
  }
}
