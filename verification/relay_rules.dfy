/** The accept rule and the forward rule of one relay server, shared by the
    server class and by the model of a whole network of servers. */
module RelayRules {

  import opened Wrappers

  type Ip = nat

  /** What a packet carries, as far as accepting it is concerned: a position
      report (settled when none of its coordinates is zero) or anything else
      (chat and other message ids; ping and pong never get this far). */
  datatype Body = Position(settled: bool) | OtherMessage

  /** What a server remembers about a callsign: the address that introduced it
      and whether that first packet came straight from a client. */
  datatype Entry = Entry(from: Ip, isLocal: bool)

  /** What the server does with a packet for a callsign. */
  datatype Verdict = Ignore | Introduce | Update

  function Judge(entry: Option<Entry>, src: Ip, body: Body): Verdict
  {
    match entry
    case None => if body.Position? then Introduce else Ignore
    case Some(e) =>
      if e.from != src then Ignore
      else if body.Position? && !body.settled then Ignore
      else Update
  }

  /** The relays that get a copy: none for a remote player unless this server
      is a hub, never the address that introduced the player, and otherwise
      the relays for which an update is wanted. */
  function RelayTargets(relays: seq<Ip>, hub: bool, entry: Entry, wanted: set<Ip>): seq<Ip>
  {
    if !entry.isLocal && !hub then [] else WantedRelays(relays, entry.from, wanted)
  }

  function WantedRelays(relays: seq<Ip>, from: Ip, wanted: set<Ip>): (r: seq<Ip>)
    ensures forall x :: x in r <==> x in relays && x != from && x in wanted
  {
    if relays == [] then []
    else
      var rest := WantedRelays(relays[1..], from, wanted);
      if relays[0] != from && relays[0] in wanted then [relays[0]] + rest else rest
  }

  lemma WantedRelaysStep(relays: seq<Ip>, from: Ip, wanted: set<Ip>)
    requires relays != []
    ensures WantedRelays(relays, from, wanted) ==
            (if relays[0] != from && relays[0] in wanted then [relays[0]] else []) + WantedRelays(relays[1..], from, wanted)
  {
  }

  /** How often an address is listed. */
  function CountOf(s: seq<Ip>, x: Ip): nat
  {
    if s == [] then 0 else (if s[0] == x then 1 else 0) + CountOf(s[1..], x)
  }

  lemma {:induction false} CountIn(s: seq<Ip>, x: Ip)
    ensures CountOf(s, x) > 0 <==> x in s
  {
    if s != [] {
      CountIn(s[1..], x);
    }
  }

  /** A relay that is to get a packet gets it as often as it is listed. */
  lemma {:induction false} WantedCount(relays: seq<Ip>, from: Ip, wanted: set<Ip>, x: Ip)
    ensures CountOf(WantedRelays(relays, from, wanted), x) ==
            if x != from && x in wanted then CountOf(relays, x) else 0
  {
    if relays != [] {
      WantedCount(relays[1..], from, wanted, x);
    }
  }

  ghost predicate Distinct<T>(s: seq<T>)
  {
    forall i, j :: 0 <= i < j < |s| ==> s[i] != s[j]
  }

  lemma {:induction false} WantedRelaysDistinct(relays: seq<Ip>, from: Ip, wanted: set<Ip>)
    requires Distinct(relays)
    ensures Distinct(WantedRelays(relays, from, wanted))
  {
    if relays != [] {
      WantedRelaysDistinct(relays[1..], from, wanted);
    }
  }
}
