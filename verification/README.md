# fgms: a verified model

fgms is the multiplayer server of FlightGear. Clients send it UDP packets; it keeps a list of
the players it hears of, forwards each packet to the players in range and to other servers
(relays), tells a tracker who is flying, and can be administered over a telnet command line.
This project models the parts of it that are hard to get right, in Dafny, and proves what they
promise. Where the source updates objects and arrays in place, so does the model: each such
method is proved to compute a function of the old state, and the properties are proved of that
function over all inputs and all runs.

- **The network** (`relay_rules.dfy`, `relay_network.dfy`, `relay_once.dfy`, `relay_quiet.dfy`,
  `relay_expiry.dfy`, `relay_termination.dfy`, `relay_bounds.dfy`, `relay_crossfeed.dfy`,
  `sums.dfy`). Servers with any relay and crossfeed lists and any set of hubs, packets in flight,
  loss, reordering and expiry. No packet carries a sequence number or a hop count; whether a
  server accepts a packet once only, and whether forwarding ends, follows from the accept rule
  and the forward rule together with how the servers are linked. Both are characterised: by
  links and lists, for the configurations one would choose, and for any network by the ways that
  a copy can go.
- **One server** (`players.dfy`, `server.dfy`, `registry.dfy`, `forwarding.dfy`, `lazy_relay.dfy`,
  `sweep.dfy`). The player list walked and erased from in place, its counters and IDs, the
  tracker messages, the expiry sweeps, and the rate of updates to inactive relays.
  `simulation.dfy` proves that one server of the network model does with a packet what this
  server does. `histories.dfy`, `delivery.dfy`, `expiry.dfy` and `counters.dfy` say the same things
  in terms of the packets that arrived: what every entry holds, who is sent a packet, who leaves
  the lists and when, and what is counted.
- **The tracker client** (`tracker.dfy`, `tracker_protocol.dfy`, `tracker_progress.dfy`,
  `deframer.dfy`). A window of 25 messages without sequence numbers over connections that break,
  that they all get across in the end, and the receive buffer.
- **DES** (`des_tables.dfy`, `des_spec.dfy`, `des_boxes.dfy`, `des_laws.dfy`, `des.dfy`,
  `des_crypt.dfy`). The key schedule and the rounds over static arrays, the laws that the tables
  were designed to meet, and the password hash built on them. `L` and `R` are one array of 64
  cells, as the loops that run over both of them take them to be.
- **The command line** (`terminal.dfy`, `editor.dfy`, `editor_screen.dfy`, `editor_bytes.dfy`,
  `tokenizer.dfy`, `commands.dfy`, `command_lookup.dfy`, `completion.dfy`, `permissions.dfy`). The
  line editor against the terminal row it draws and against the bytes that are typed, the
  tokenizer, the abbreviation index, command lookup and completion, and that none of them leads
  to anything above the user's privilege.
- **Numbers as text** (`number_text.dfy`).

`dafny verify dfyconfig.toml` checks everything.

## Where the code differs from what is said about it

The model follows the code. These are proved, with the condition under which they happen.

- A packet can be accepted more than once. Throughout, clients send to servers and share no
  address with one (`Sane`).
  - While entries of a callsign expire only in quiet times, with nothing of it under way, and
    no server knows a server that feeds it by crossfeed (`FeedersUnknown`), this happens in some
    run if and only if a route without repetition ends with a relay listed twice by the server
    before it (`RelayOnce.AtMostOnceIff`). `AddRelay` compares address and name, so one address
    can be listed under two names or ports.
  - With quiet expiries in any network, if and only if two ways of a copy end at a server that
    takes it on both, and on both ways every server that has to accept it has to accept it from
    one side only (`RelayQuiet.AtMostOnceIff`). A server that is both a relay and a crossfeed
    target of a client's server and knows it is such a case, whatever the rest of the network.
  - With expiries at any time, if and only if any two ways end at a server that takes what comes
    on both (`RelayExpiry.AtMostOnceIff`); two relays of which one relays to the other are enough.
- Forwarding need not end. Crossfeeds in a circle pass copies on even where nobody accepts them
  (`RelayTermination.TerminatesIff`). With a crossfeed into a ring of hubs that leads back to the feeding
  server, one packet is accepted any number of times though no entry expires, as
  `SendToCrossfeed` comes before every check. The copies of a packet are bounded if and only if
  the ways are that a copy can go, for quiet expiries and for expiries at any time
  (`RelayBounds.BoundedIff`, `RelayBounds.AlwaysBoundedIff`).
- The iterator to the sender is held while the list is walked. When an overdue entry with errors
  stands at or before the sender, erasing it moves the list under the iterator, which then names
  the next player; the model stops the run there (`SenderLost`). Every server has a run of two
  packets that leads there.
- An expiry sweep steps over the element after each one it erases, so it takes several sweeps to
  clear adjacent expired entries: floor(log2 n) + 1 of them for a list of `n` if no more entries
  become idle in between (`Expiry.IdleAreGone`), and up to `n` otherwise. In a list of three an
  entry that is idle all along can outlive the two sweeps (`Expiry.IdleBetweenSweeps`), but each
  sweep moves it forward, so that `n` always do (`Expiry.IdleAreGoneAtLast`).
- `docs/pages/page_overview.cxx` promises updates to inactive relays at 1 Hz. The comparison with
  `UPDATE_INACTIVE_PERIOD` is strict, over whole seconds, so they are at least two seconds apart.
- The deframer resets its buffer when a message begins with byte 0x17: just the messages of a
  stream are passed on, and its tail is kept, if and only if none of them begins with that byte.
  A message that fills the buffer leaves no room to read into, and the client takes the
  connection for lost; on a stream without such first bytes this cannot happen if and only if
  messages are shorter than the buffer less one byte.
- After a deletion inside a line the edit cursor is left at the end of the line while the
  terminal's cursor stays where the deletion took place. Enter in the middle of a line writes the
  rest of the line again on the next row. Deleting keys do nothing in password mode.
- A command whose name begins another visible command's name can never be selected, not even by
  its full name.
- `StrToInt` accepts the digit whose value equals the base, takes the characters between `9` and
  `A` for 3 to 9, and in base 36 accepts `[`.
- The highest ID of a player list is not initialised; IDs start from whatever it is.

## Model

| member | source | states |
|---|---|---|
| RelayRules.WantedRelaysDistinct | src/server/fg_server.cxx:1161-1186 | the relays a packet goes to contain none twice if the relay list does not |
| RelayRules.WantedCount | src/server/fg_server.cxx:1161-1186 | a relay that is to get a packet gets it as often as it is listed |
| RelayNetwork.RunKeepsTree | src/server/fg_server.cxx:1340-1364 | over every run in which no entry of the callsign expires (`Sane`, `FeedersUnknown`), entries lead back to the client one level at a time, and datagrams under way come from servers that list the callsign |
| RelayNetwork.IntroductionsFormTree | src/server/fg_server.cxx:1340-1364 | in such a run, from every server that lists a callsign the chain "introduced by" leads without repetition, over hubs only, to the client's own server |
| RelayNetwork.TreeGrows | src/server/fg_server.cxx:1340-1364 | while no entry of the callsign expires, an introduction once made stays as it is |
| RelayOnce.ReceiveKeepsInv | src/server/fg_server.cxx:1262-1340 | a server that takes a datagram, sends the crossfeed copies, and then ignores it, blocks its sender or accepts it keeps the invariant of the network |
| RelayOnce.RunKeepsInv | src/server/fg_server.cxx:1161-1186 | over every run with quiet expiries (`Sane`, `FeedersUnknown`, no relay listed twice at the end of a route), each server accepts a packet once, after all servers on a route to it, and a datagram is on the wire no more often than its receiver is listed |
| RelayOnce.AtMostOnce | src/server/fg_server.cxx:1340-1364 | so no server accepts a packet twice |
| RelayOnce.DoublyListedDuplicates | src/server/fg_server.cxx:865-911 | where a route ends with a relay that is listed twice, a run without expiry makes it accept a packet twice, crossfeeds or not |
| RelayOnce.AtMostOnceIff | src/server/fg_server.cxx:1153-1187 | with `Sane` and `FeedersUnknown`, packets are accepted at most once in all runs with quiet expiries if and only if no route ends with a relay listed twice |
| RelayQuiet.RunHeard | src/server/fg_server.cxx:1340-1364 | over every run with quiet expiries in any network, every copy has come a way of its own, a server accepts no more often than there are ways on which it did, all of them from one side |
| RelayQuiet.HeardAgainDuplicates | src/server/fg_server.cxx:1127-1145 | two ways to a server that takes both, on which no server has to accept from two sides, make it accept twice in a run without expiry |
| RelayQuiet.AtMostOnceIff | src/server/fg_server.cxx:1340-1364 | in any `Sane` network, packets are accepted at most once in all runs with quiet expiries if and only if there are no two such ways |
| RelayExpiry.RunTraced | src/server/fg_server.cxx:1153-1187 | whatever expires, no two copies of a packet go the same way, by place in relay or crossfeed list, and none goes a way that the forward rule does not allow |
| RelayExpiry.HeardTwiceDuplicates | src/server/fg_server.cxx:1727-1735 | two ways to a server that takes what comes on both make it accept twice in some run |
| RelayExpiry.AtMostOnceIff | src/server/fg_server.cxx:1727-1735 | in any `Sane` network, packets are accepted at most once in all runs, whenever entries expire, if and only if there are no two such ways |
| RelayTermination.ForwardingTerminates | src/server/fg_server.cxx:1161-1186 | where packets are accepted at most once and crossfeed chains that packets come to have at most `k` links, forwarding a packet ends within a budget: the client's datagram, one to each relay listed, and what crossfeeds make of them |
| RelayTermination.TerminatesIff | src/server/fg_server.cxx:1127-1145 | there (`Sane`, `FeedersUnknown`, no relay listed twice at the end of a route) forwarding is bounded if and only if those chains are |
| RelayBounds.BoundedIff | src/server/fg_server.cxx:1127-1187 | in any `Sane` network, the deliveries and losses of a packet are bounded over all runs with quiet expiries if and only if the ways are that it can go while each server accepts from one side |
| RelayBounds.AlwaysBoundedIff | src/server/fg_server.cxx:1127-1187 | and over all runs, whatever expires, if and only if all ways are |
| RelayCrossfeed.FedAndRelayedHears | src/server/fg_server.cxx:1127-1145 | a server that is relay and crossfeed target of the client's server, and knows it, can hear a packet twice in the sense of `RelayQuiet.AtMostOnceIff` |
| RelayCrossfeed.FedAndRelayedDuplicates | src/server/fg_server.cxx:1270 | and in every network it accepts a packet twice in some run without expiry |
| RelayCrossfeed.RingAcceptsWithoutEnd | src/server/fg_server.cxx:1127-1145 | a crossfeed into a ring of hubs that leads back has one packet accepted, and delivered, `k` times, for every `k`, though no entry expires |
| RelayCrossfeed.RingIsUnbounded | src/server/fg_server.cxx:1127-1145 | so no bound on deliveries holds there |
| RelayCrossfeed.ListedTwice | src/server/fg_server.cxx:870-887 | a relay that the client's server lists twice accepts a packet twice |
| RelayCrossfeed.TriangleDuplicates | src/server/fg_server.cxx:1727-1735 | two relays of the client's server of which one, a hub, relays to the other: an expiry makes a packet be accepted twice |
| Simulation.HandlePacketSimulates | src/server/fg_server.cxx:1237-1508 | on a valid packet other than ping and pong, unless the sender is lost, the server's entries, blocked addresses and the datagrams for relays and crossfeed targets change as those of a server of the network model |
| Simulation.RunErrorsAreBad | src/server/fg_server.cxx:696-733 | in every run that loses no sender, entries with errors bear the name of bad clients, as that assumes |
| RelayServer.FgServer.FindByName | src/server/fg_list.hxx:409-427 | finds the first entry of that name and marks just it as seen |
| RelayServer.FgServer.Find | src/server/fg_list.hxx:348-396 | finds the last entry at an address, ports aside, and marks every entry there as seen |
| RelayServer.FgServer.Add | src/server/fg_list.hxx:292-301 | appends an entry with the next ID |
| RelayServer.FgServer.AddBadClient | src/server/fg_server.cxx:696-733 | counts a packet of a client with errors, listing it when its address is new; the whole new state |
| RelayServer.FgServer.AddClient | src/server/fg_server.cxx:742-856 | lists a new player and opens its tracker session; the whole new state |
| RelayServer.FgServer.UpdateTracker | src/server/fg_server.cxx:2067-2142 | queues CONNECT and DISCONNECT unless tracking is off or the callsign is the dummy |
| RelayServer.FgServer.DropClient | src/server/fg_server.cxx:1193-1226 | erases one entry, keeps the counters of clients in step and closes a pilot's session |
| RelayServer.FgServer.AcceptSender | src/server/fg_server.cxx:1339-1403 | the state after looking up and updating the sender, and whether the packet goes on |
| RelayServer.FgServer.WalkList | src/server/fg_server.cxx:1412-1497 | the walk with a moving cursor and erasures leaves exactly the list, output and counters of a walk over the original list |
| RelayServer.FgServer.IsRelayInRange | src/server/fg_server.cxx:2353-2385 | a relay counts as in range by the first player listed at its address that settles it |
| RelayServer.FgServer.SendToRelays | src/server/fg_server.cxx:1153-1187 | sends to the relays the forward rule names, in their order |
| RelayServer.FgServer.IsKnownRelay | src/server/fg_server.cxx:1002-1032 | lets whitelisted and configured relays pass and blocks any other for two days |
| RelayServer.FgServer.HandlePacket | src/server/fg_server.cxx:1237-1508 | everything a packet does to the server, and whether the iterator to the sender was lost |
| RelayServer.FgServer.SweepPlayers | src/server/fg_server.cxx:1727-1735 | the loop with position, iterator and erasures computes the sweep of the list |
| RelayServer.FgServer.SweepBlackList | src/server/fg_server.cxx:1736-1742 | the same for the blacklist |
| RelayServer.FgServer.ReportPositions | src/server/fg_server.cxx:2144-2203 | queues one position report of the local error-free players, none if there are none |
| Players.LastAtIp | src/server/fg_list.hxx:348-396 | the last entry at an address, if there is one |
| Players.VisitedKeepsPlace | src/server/fg_server.cxx:1413-1432 | a sender that no erasure precedes is found at the same place after the walk |
| Players.WalkedStepList | src/server/fg_server.cxx:1413-1497 | one step of the cursor, erasing or not, is one entry of the walk |
| Players.WalkedStepCounters | src/server/fg_list.hxx:606-615 | and the counters of the step are those of the entry |
| Registry.RunKeepsInv | src/server/fg_server.cxx:1237-1508 | every run of packets, sweeps and reports keeps counters, IDs, uniqueness and tracker sessions coherent, also when it ends in a lost sender |
| Registry.RegistryInvariant | src/server/fg_list.hxx:292-302 | after every run IDs increase along the list and stay at most the highest, error-free entries have distinct names and entries with errors distinct addresses, local and remote counters count the list, packet and byte totals are those of listed and dropped entries together |
| Registry.SessionLog | src/server/fg_server.cxx:2107-2142 | after every run, CONNECT and DISCONNECT of a callsign alternate starting with CONNECT, its session is open exactly while a local error-free entry of that name is listed, and the dummy has no session |
| Registry.ReportNamesOpenSessions | src/server/fg_server.cxx:2144-2203 | a position report names every open session once, and besides them at most the listed dummy |
| Registry.HandlePacketKeepsInv | src/server/fg_server.cxx:1237-1508 | one packet keeps the invariant |
| Registry.SweepKeepsInv | src/server/fg_server.cxx:1727-1735 | one sweep keeps it |
| Registry.SweepFromResult | src/server/fg_server.cxx:1727-1735 | dropping one entry after the other is the same as taking the swept list at once, with the erased entries' sessions closed in order |
| Registry.DropKeepsSessions | src/server/fg_server.cxx:1200-1203 | dropping a pilot closes its session and touches no other |
| Histories.EventFollows | src/server/fg_server.cxx:1237-1508 | every entry after an event is a new one, listed for a packet of an unknown callsign or an invalid packet from an address where nobody is listed, or an old one with just its time, position and range set by what arrived |
| Histories.EntriesAreTold | src/server/fg_server.cxx:1339-1403 | after every run that loses no sender, each listed player's position is that of the last settled report from the address that introduced it, or of the introducing packet, its range that of the last header from there with an allowed one, and its times those of the packets that listed it and by which it was last heard |
| Histories.ActiveStays | src/server/fg_server.cxx:1727-1735 | if the clock does not go backwards, a sweep at `now` keeps every entry of a callsign of which a packet was heard at a time `t` with `now - t` at most the time allowed |
| Delivery.RunFanOut | src/server/fg_server.cxx:1412-1497 | after every run that loses no sender, an accepted packet goes to exactly the local error-free players of other callsigns for whom the distance of the last reported positions is below the last range they asked for, and an observer's packet, or one not accepted, to none |
| Delivery.OnlyListed | src/server/fg_server.cxx:1412-1497 | nobody is sent a packet who is not listed, or is listed with errors |
| Delivery.NotAccepted | src/server/fg_server.cxx:1237-1350 | for a packet that neither introduces a callsign nor comes from where it was introduced, there are crossfeed copies or a pong at most |
| Delivery.CrossfedAndAnswered | src/server/fg_server.cxx:1262-1335 | whatever becomes of a packet, first of all every crossfeed target gets it, once for each time it is listed; and a valid ping is answered to where it came from, and nothing else is |
| Delivery.RelaysAfter | src/server/fg_server.cxx:1153-1187 | an accepted packet goes to exactly the configured relays other than its origin, if the player is local or the server a hub, and the update is due or the first player listed at the relay's address sees as far as the sender |
| Delivery.InRangeIsSeen | src/server/fg_server.cxx:2353-2385 | which is what decides whether a relay is in range |
| Expiry.OnlyIdleGo | src/server/fg_server.cxx:1727-1735 | after every run, a sweep at `now` drops an entry only if nothing was heard of it for longer than `playerExpires`, and, where that is 0, it was listed more than 30 seconds ago |
| Expiry.IdleAreGone | src/server/fg_server.cxx:1727-1735 | after every run, floor(log2 n) + 1 sweeps of a list of `n`, at times between which nobody becomes idle, keep exactly the entries that are not idle |
| Expiry.IdleBetweenSweeps | src/server/fg_server.cxx:1727-1735 | where somebody does, three entries of which the last was idle at both times are not cleared of it by two sweeps |
| Expiry.EverySweepMovesUp | src/server/fg_list.hxx:545-571 | an idle entry that a sweep leaves moves forward in the list |
| Expiry.IdleAreGoneAtLast | src/server/fg_server.cxx:1727-1735 | so as many sweeps as there are entries, at any times, leave no entry that was idle at all of them |
| Expiry.BadClientsGo | src/server/fg_server.cxx:1413-1432 | a packet that loses no sender drops an entry if and only if it is accepted and the entry is of a sender of invalid packets of whom nothing has come for longer than `playerExpires` |
| Expiry.BlocksAreTold | src/server/fg_server.cxx:1736-1742 | after every run each block is for two days from the last packet of its address |
| Expiry.BlockStays | src/server/fg_server.cxx:1736-1742 | a sweep of the blacklist keeps every address that sent something in the last two days |
| Expiry.SilentIsUnblocked | src/server/fg_server.cxx:1736-1742 | after every run, floor(log2 n) + 1 sweeps of a blacklist of `n`, at times between which nobody falls silent, unblock exactly the addresses silent for longer |
| Expiry.StrangerStaysBlocked | src/server/fg_server.cxx:1002-1032 | an unknown relay is blocked from its first relayed packet on for as long as it is never silent for more than two days |
| Expiry.BlockedIsIgnored | src/server/fg_server.cxx:1276-1285 | a packet from a blocked address has no effect but crossfeed copies and a longer block |
| Counters.CountersCount | src/server/fg_list.hxx:606-645 | after every run that loses no sender, the counters are the numbers of packets and bytes that were invalid or came from where their callsign was listed, and of datagrams and bytes sent to clients |
| Forwarding.FanOut | src/server/fg_server.cxx:1412-1497 | when the sender stays, a packet goes once and in list order to exactly the local error-free players other than the sender whose distance is below their radar range, to none for an observer, then to relays; exactly the overdue entries with errors are removed and every other is visited once |
| Forwarding.LostSenderNamesSuccessor | src/server/fg_server.cxx:1413-1432 | otherwise the iterator names the player after the sender, or the end of the list |
| Forwarding.SenderIsLost | src/server/fg_server.cxx:1413-1432 | for every configuration there is a run from the start that loses a sender |
| Forwarding.DeliveriesExact | src/server/fg_server.cxx:1412-1497 | a listed player gets a datagram if and only if it is to receive the packet |
| Forwarding.AcceptFollowsRule | src/server/fg_server.cxx:1339-1403 | the server accepts, introduces and ignores exactly as the accept rule of the network says, and its memory of every callsign changes just so |
| Forwarding.RelaysFollowRule | src/server/fg_server.cxx:1153-1187 | what it sends to relays is what the forward rule says, for some set of relays that want the packet |
| Forwarding.ForcedGaps | src/server/fg_server.cxx:1440-1451 | updates to inactive relays are at least two seconds apart, and `n` of them at least `2n` seconds |
| Forwarding.LazyRelayRate | src/server/fg_server.cxx:1440-1451 | any two updates to inactive relays are more than the update period apart, and at most 1 + floor(T/2) fall into T seconds |
| LazyRelay.ForcedAreUpdates | src/server/fg_server.cxx:1440-1451 | over every run that loses no sender, a player's packets are forced out to relays at exactly the times the due check picks from all times at which that player's packets are forwarded, whatever other players, sweeps and reports do in between |
| LazyRelay.ForcedRate | src/server/fg_server.cxx:1440-1451 | so they are forced out at most 1 + floor(T/2) times in any T seconds |
| LazyRelay.RunRate | src/server/fg_server.cxx:1153-1187 | and a relay that is never in range is sent at most 1 + floor(T/2) datagrams with a player's packets in any T seconds, for each time it is listed |
| LazyRelay.RunFresh | src/server/fg_server.cxx:1440-1451 | and when a packet of a player is forwarded, the last forced one is at most the update period old |
| LazyRelay.RelaysServed | src/server/fg_server.cxx:1153-1187 | a forwarded packet goes to a relay if and only if it is configured, not where the packet came from, the player is local or the server a hub, and the update is forced or the relay in range |
| LazyRelay.ForwardStep | src/server/fg_server.cxx:1338-1497 | one forwarded packet sets the clock of its sender and of no other player |
| Forwarding.LazyRelayFresh | src/server/fg_server.cxx:1440-1451 | at every accepted packet the last update to inactive relays is no older than the update period |
| ExpirySweep.SweepKeepsGood | src/server/fg_server.cxx:1727-1742 | a sweep keeps every element that is not expired, in order |
| ExpirySweep.ErasedAreBad | src/server/fg_list.hxx:545-571 | a sweep erases only expired elements |
| ExpirySweep.SweepPartitions | src/server/fg_list.hxx:307-332 | every element is either kept or erased, counted with repetitions |
| ExpirySweep.SweepHalvesRuns | src/server/fg_server.cxx:1727-1742 | every maximal run of `m` adjacent expired elements becomes one of floor(m/2) |
| ExpirySweep.SweepsClearExactly | src/server/fg_server.cxx:1727-1742 | `k` sweeps clear the list if and only if every run is shorter than 2^k |
| ExpirySweep.SweepsClear | src/server/fg_server.cxx:1727-1742 | floor(log2 n) + 1 sweeps leave exactly the unexpired elements of a list of `n` |
| TrackerClient.FgTracker.AddMessage | src/server/fg_tracker.cxx:246-252 | appends to the send queue |
| TrackerClient.FgTracker.ReQueueSentMsg | src/server/fg_tracker.cxx:227-239 | moves the sent queue, in order, in front of the send queue |
| TrackerClient.FgTracker.TrackerWrite | src/server/fg_tracker.cxx:368-406 | puts a message on the connection and keeps it as sent unless it is a control message; a failed write disconnects |
| TrackerClient.FgTracker.TakeFront | src/server/fg_tracker.cxx:551-558 | takes the front of the queue, only with fewer than 25 unacknowledged |
| TrackerClient.FgTracker.WriteTaken | src/server/fg_tracker.cxx:567-574 | writes the message in hand, or puts it back at the front |
| TrackerClient.FgTracker.Reconnect | src/server/fg_tracker.cxx:501-532 | requeues and opens a new connection or fails to |
| TrackerClient.FgTracker.ReplyFromServer | src/server/fg_tracker.cxx:413-467 | processes every reply in order |
| TrackerClient.DataIsTracked | src/server/fg_tracker.cxx:386-398 | every message that the server queues is kept until it is acknowledged |
| TrackerProtocol.RunKeepsInv | src/server/fg_tracker.cxx:474-583 | the invariant of client, connection, abandoned connections and tracker over every run |
| TrackerProtocol.QueueConservation | src/server/fg_tracker.cxx:551-574 | at every step the messages queued are, in order, the acknowledged ones, the sent queue, the message in hand and the send queue; at most 25 are sent and unacknowledged |
| TrackerProtocol.EndToEnd | src/server/fg_tracker.cxx:499-577 | the tracker has recorded a gap-free prefix of the messages queued, containing all acknowledged ones, and repetitions are at most 25 for each connection that ended, all together |
| TrackerProtocol.PerConnection | src/server/fg_tracker.cxx:499-577 | what is recorded on any one connection are messages one after the other, each once, from where the connection took them up, and at most 25 of them are at or after the start of the next connection |
| TrackerProtocol.WriteHandKeepsInv | src/server/fg_tracker.cxx:567-574 | writing keeps the correspondence of the sent queue with what is under way |
| TrackerProtocol.ReconnectKeepsInv | src/server/fg_tracker.cxx:501-532 | reconnecting keeps it, with frames of the old connection still able to arrive |
| TrackerProtocol.GapFreeCovers | src/server/fg_tracker.cxx:227-239 | what is recorded without gaps is exactly an initial segment |
| TrackerProgress.EverythingAcknowledged | src/server/fg_tracker.cxx:499-577 | from every state that can be reached, some continuation in which nothing more is queued has the tracker record and acknowledge everything queued so far |
| TrackerProgress.WindowIsUsed | src/server/fg_tracker.cxx:551-558 | where 25 messages or more are waiting, some continuation has 25 sent and not acknowledged |
| TrackerProgress.TrackerIsAnswered | src/server/fg_tracker.cxx:413-467 | a PING is answered by PONG, and what is not understood by an error message quoting it, on the connection it came on; PONG and error messages are not answered |
| TrackerProgress.NothingBeforeGreeting | src/server/fg_tracker.cxx:551-574 | on no connection is a message sent or recorded before the tracker has identified the client on it |
| Deframer.Reader.TrackerRead | src/server/fg_tracker.cxx:303-361 | what one receive call does to buffer, receive queue, counters and connection, errors included |
| Deframer.Reader.Deframe | src/server/fg_tracker.cxx:333-355 | the loop passes on and removes the complete messages; past the contents the buffer is filler |
| Deframer.Reader.FindNul | src/server/fg_tracker.cxx:342-345 | the first NUL of the buffer |
| Deframer.DeframingIgnoresChunks | src/server/fg_tracker.cxx:303-361 | however a stream is cut into reads, its frames are passed on in order and exactly the unfinished tail stays in the buffer, if and only if neither a message of it nor the tail begins with the filler byte |
| Deframer.ReadsFindRoom | src/server/fg_tracker.cxx:311-326 | when all messages and the tail are shorter than the buffer less one byte, every read finds room, so none of length 0 takes the connection for lost |
| Deframer.RoomIff | src/server/fg_tracker.cxx:311-326 | for a clean stream there is always room, in whatever reads that fit it comes, if and only if its messages are that short |
| Deframer.DrainNeverFiller | src/server/fg_tracker.cxx:333-341 | no message that begins with the filler byte is ever passed on |
| Deframer.FramesRoundTrip | src/server/fg_tracker.cxx:342-355 | the frames with their NULs and the tail make up the stream |
| Deframer.FramesAppend | src/server/fg_tracker.cxx:303-361 | frames and tail of a stream from those of its first part |
| Deframer.TextArrives | src/server/fg_tracker.cxx:303-361 | messages of printable characters, however cut into reads, are all passed on in order, with nothing left |
| Deframer.FillerDrops | src/server/fg_tracker.cxx:333-341 | what begins with the byte 0x17 is lost |
| Des.DesMachine.Setkey | src/libcli/crypt-win.c:98-141 | rotating C and D in place computes the key schedule in its closed form, every subkey bit being a fixed key bit found with the cumulative shift modulo 28 |
| Des.DesMachine.RotateLeft | src/libcli/crypt-win.c:123-131 | one rotation in place |
| Des.DesMachine.Encrypt | src/libcli/crypt-win.c:236-322 | encrypting in place computes the cipher with the subkeys in order, and with them reversed when the flag is set; nothing behind the block changes |
| Des.DesMachine.DoRound | src/libcli/crypt-win.c:250-307 | one round over the arrays is the round function |
| DesSpec.SIndex | src/libcli/crypt-win.c:282-288 | the index into a selection function stays below 64 |
| DesTables.FpUndoesIp | src/libcli/crypt-win.c:12-35 | the final permutation undoes the initial one |
| DesTables.IpUndoesFp | src/libcli/crypt-win.c:12-35 | and the initial one undoes the final one |
| DesTables.IpRows | src/libcli/crypt-win.c:12-21 | the initial permutation in closed form |
| DesBoxes.SelectSpells | src/libcli/crypt-win.c:282-298 | a selection function gives, as a number of four bits, the entry of the row its outer bits name and the column its middle bits name |
| DesBoxes.RowIsPermutation | src/libcli/crypt-win.c:163-203 | each of the 32 rows is a permutation of 0 to 15 |
| DesBoxes.MiddleBitsMatter | src/libcli/crypt-win.c:163-203 | with the outer bits fixed, different inputs give different outputs |
| DesBoxes.OneBitChangesTwo | src/libcli/crypt-win.c:163-203 | inputs that differ in one bit give outputs that differ in two at least |
| DesBoxes.MiddleBitsChangeTwo | src/libcli/crypt-win.c:163-203 | so do inputs that differ in just the two middle bits |
| DesBoxes.OuterBitsChange | src/libcli/crypt-win.c:163-203 | inputs that differ in the first two bits and agree in the last two give different outputs |
| DesLaws.EWindows | src/libcli/crypt-win.c:147-156 | the E table in closed form: four bits in a row for each selection function, and one from either side |
| DesLaws.ColumnsOfTheKey | src/libcli/crypt-win.c:43-55 | permuted choice 1 in closed form: key columns, each from the bottom up |
| DesLaws.NoParityBits | src/libcli/crypt-win.c:43-55 | no eighth bit of the key is used |
| DesLaws.Rotations | src/libcli/crypt-win.c:60-62 | the rotations before each subkey, which come to 28 |
| DesLaws.SubkeyPlaces | src/libcli/crypt-win.c:68-80 | which place of a subkey each bit of C and D takes, and which four of each it leaves out |
| DesLaws.NoBitStays | src/libcli/crypt-win.c:68-80 | no key bit goes to the same selection function in two rounds in a row |
| DesLaws.PlacedByP | src/libcli/crypt-win.c:209-218 | the permutation P has a given inverse |
| DesLaws.PSpreads | src/libcli/crypt-win.c:209-218 | the four bits of a selection function go to four different ones in the next round |
| DesLaws.RoundSpells | src/libcli/crypt-win.c:250-307 | in a round the right half becomes the left one, and the bits flipped in the left half spell, for each selection function, the entry that its right half bits mixed with key bits name |
| DesLaws.FirstKeyFirst | src/libcli/crypt-win.c:250-257 | the rounds take the keys in their order |
| DesLaws.LoadedAndStored | src/libcli/crypt-win.c:245-248 | the left half starts with the even columns of the block and the right half with the odd ones, and the result holds the exchanged halves in the same way |
| DesSpec.DecipheringRestores | src/libcli/crypt-win.c:236-322 | deciphering restores every block, for every key schedule and every E table (FIPS PUB 46-3, "Deciphering") |
| DesSpec.EncipheringRestores | src/libcli/crypt-win.c:236-322 | enciphering restores what was deciphered |
| DesSpec.RoundCancels | src/libcli/crypt-win.c:250-315 | a round with the halves exchanged is undone by the same round |
| DesSpec.ScheduleComplements | src/libcli/crypt-win.c:98-141 | the schedule of the complemented key is the complemented schedule |
| DesSpec.ComplementationProperty | src/libcli/crypt-win.c:236-322 | complementing key and block complements the result, for every E table |
| DesCrypt.Crypt | src/libcli/crypt-win.c:325-381 | the loops over password, salt, 25 encryptions and printing compute the hash |
| DesCrypt.PrintBlock | src/libcli/crypt-win.c:366-376 | prints the block six bits a character |
| DesCrypt.SaltTable | src/libcli/crypt-win.c:345-362 | the swaps in place make the salted E table, whose entries stay within 1 to 32 |
| DesCrypt.OnlyEightCharacters | src/libcli/crypt-win.c:334-338 | passwords that agree in seven bits of their first eight characters have the same hash |
| DesCrypt.DigitRoundTrip | src/libcli/crypt-win.c:351-353 | a printed digit read as a salt character is the digit |
| DesCrypt.TextDeterminesBlock | src/libcli/crypt-win.c:366-376 | hashes with equal text have equal blocks |
| DesCrypt.TimesInjective | src/libcli/crypt-win.c:363-364 | repeated encryption maps different blocks to different blocks |
| DesCrypt.HashIsUndone | src/libcli/crypt-win.c:363-364 | deciphering the block of a hash 25 times gives the zero block |
| DesCrypt.KeyHoldsText | src/libcli/crypt-win.c:332-338 | each eight bits of the key are a character of the password, most significant bit first, with a zero behind, and zeros where there is no character |
| DesCrypt.Alphabet | src/libcli/crypt-win.c:366-376 | hashes are printed in point, slash, numerals, upper and lower case letters |
| DesCrypt.SaltSwaps | src/libcli/crypt-win.c:345-362 | the twelve bits of the salt say which of the first twelve E entries change places with the ones 24 further on |
| TerminalRow.ShowText | src/libcli/editor.cxx:303-306 | printable text overwrites the row from the cursor on |
| TerminalRow.WriteShows | src/libcli/editor.cxx:303-306 | written anywhere in a shown text it replaces what was there and leaves only blanks behind the text |
| LineEditor.ReadKey | src/libcli/editor.cxx:138-181 | every key takes at least one byte and no more than there are: escapes three, telnet options two or three |
| LineEditor.Editor.ClearLine | src/libcli/editor.cxx:116-133 | new buffer, cursor and every character sent |
| LineEditor.Editor.DeleteBackwards | src/libcli/editor.cxx:186-243 | the same for deleting a character or a word, bell and password mode included |
| LineEditor.Editor.EraseWord | src/libcli/editor.cxx:201-216 | the erasing loops remove the blanks before the cursor and then the word |
| LineEditor.Editor.RedrawLine | src/libcli/editor.cxx:288-308 | redraws on the same row or the next one |
| LineEditor.Editor.ClearToEol | src/libcli/editor.cxx:313-333 | cuts the line at the cursor |
| LineEditor.Editor.Insert | src/libcli/editor.cxx:418-432 | inserts before the cursor and steps back on the screen |
| LineEditor.Editor.HandleKey | src/libcli/editor.cxx:459-549 | what a key does, and whether it finishes the line |
| LineEditor.Editor.GetLine | src/libcli/editor.cxx:437-561 | the line returned, the key that ended it and all output, for any bytes delivered |
| EditorScreen.KeyKeepsScreen | src/libcli/editor.cxx:459-549 | outside password mode a key keeps the row showing prompt and line, with its column at prompt length plus edit cursor, if and only if it does not delete inside the line |
| EditorScreen.TypingKeepsScreen | src/libcli/editor.cxx:448-549 | over any input, the screen is right whenever the editor waits for a key if and only if no deletion takes place inside the line |
| EditorScreen.PromptIsFaithful | src/libcli/editor.cxx:442-454 | reading starts with a right screen, also over the remains of a shorter row |
| EditorScreen.DeletionScreen | src/libcli/editor.cxx:222-242 | after any deletion the row shows the shortened line, with the terminal's cursor at the place of the deletion |
| EditorScreen.TypingAfterDeletionInside | src/libcli/editor.cxx:530-549 | what is typed after a deletion inside the line is appended to the line but overwrites the rest of it on the screen |
| EditorScreen.InsertionScreen | src/libcli/editor.cxx:418-432 | inserting in the middle keeps the screen right |
| EditorScreen.ClearLineScreen | src/libcli/editor.cxx:116-133 | clearing the line leaves the prompt alone on the row |
| EditorScreen.ClearToEolScreen | src/libcli/editor.cxx:313-333 | clearing to the end of the line keeps the screen right |
| EditorScreen.EnterEchoesRest | src/libcli/editor.cxx:480-488 | after Enter the next row shows what was behind the edit cursor, so it is empty only when the cursor was at the end |
| EditorScreen.KeyEdits | src/libcli/editor.cxx:459-549 | every key edits the text as an editor with a gap would; the position differs exactly after a deletion inside the line, and is then the end |
| EditorScreen.EditFollowsMeaning | src/libcli/editor.cxx:448-549 | the line read is the one the keys mean, in password mode too |
| EditorScreen.WordDeletion | src/libcli/editor.cxx:201-216 | deleting a word removes exactly the blanks before the cursor and the one word before them |
| EditorBytes.GetLineReads | src/libcli/editor.cxx:437-561 | for any bytes, the line returned and the code that ended it are what the bytes make, one after the other |
| EditorBytes.TypedIsRead | src/libcli/editor.cxx:530-549 | printable text other than "?", ended by Enter, is returned |
| EditorBytes.StartAndEnd | src/libcli/editor.cxx:523-528 | with Control-A between two texts the second comes first, and with Control-A and Control-E they stay in order |
| EditorBytes.Arrows | src/libcli/editor.cxx:138-181 | ESC [ D moves one place to the left and ESC [ C one to the right |
| EditorBytes.Backspace | src/libcli/editor.cxx:186-243 | bytes 8 and 127 remove the last character, but not from a password |
| EditorBytes.Cutting | src/libcli/editor.cxx:459-529 | Control-K cuts off what is behind the cursor, and Control-U empties the line |
| EditorBytes.WordRemoved | src/libcli/editor.cxx:201-216 | Control-W removes the last word and the blanks behind it, but not from a password |
| EditorBytes.LeftAlone | src/libcli/editor.cxx:459-529 | Control-C, Control-L, Control-Z, NUL and, in a line with text, Control-D leave the text alone |
| EditorBytes.LineEnds | src/libcli/editor.cxx:480-488 | CR, LF and Tab end the line as it stands |
| EditorBytes.OtherEnds | src/libcli/editor.cxx:459-549 | so do the arrows up and down, "?" at its end, and Control-D when it is empty |
| Tokenizer.SplitLine | src/libcli/libcli.cxx:1864-1906 | the loop over positions computes the tokens of a line, and ends on every string |
| Tokenizer.SplitPrint | src/libcli/libcli.cxx:1864-1906 | a line laid out from proper tokens, bare or quoted, splits into just these |
| Tokenizer.SplitLayout | src/libcli/libcli.cxx:1864-1906 | every line is laid out from the tokens it splits into, up to a quote that is never closed |
| Tokenizer.SplitIff | src/libcli/libcli.cxx:1864-1906 | a line splits into given tokens, with or without a missing quote, if and only if it can be laid out from them so |
| Tokenizer.BlankSeparates | src/libcli/libcli.cxx:1864-1906 | each of the blank characters separates two words |
| Tokenizer.QuotesHold | src/libcli/libcli.cxx:1864-1906 | between single or double quotes blanks separate nothing |
| Commands.BuildShortest | src/libcli/libcli.cxx:581-632 | gives every command the user can see, at every level, one more than the longest prefix it shares with a differently named visible command; all else in the tree stays |
| Commands.UniqueLength | src/libcli/libcli.cxx:594-626 | that length for one command |
| Commands.CountShared | src/libcli/libcli.cxx:609-621 | the comparison of two names |
| Commands.ReorderingKeepsIndex | src/libcli/libcli.cxx:2690-2693 | sorting the commands afterwards keeps the index right |
| CommandLookup.FindCommand | src/libcli/libcli.cxx:2134-2239 | what the search through the list leads to, help and errors included, and the code returned: asking for help counts as success below the top level |
| CommandLookup.HelpNames | src/libcli/libcli.cxx:2157-2180 | help lists exactly the visible commands that do something and whose names the word begins |
| CommandLookup.IndexTellsContested | src/libcli/libcli.cxx:2201-2206 | a word is shorter than the unique length of the first match if and only if it begins two different visible names |
| CommandLookup.FindResolves | src/libcli/libcli.cxx:2187-2239 | with a right index, lookup is plain prefix search at every level: one name selects, two are ambiguous, none is unknown |
| CommandLookup.ResolveIgnoresIndex | src/libcli/libcli.cxx:581-632 | what a command line means does not depend on the index |
| CommandLookup.SelectableIff | src/libcli/libcli.cxx:2187-2206 | some word selects a command if and only if its name begins no differently named visible command's |
| CommandLookup.Cli.constructor | src/libcli/libcli.cxx:2690-2706 | starts unprivileged in standard mode with a right index |
| CommandLookup.Cli.SetPrivilege | src/libcli/libcli.cxx:645-657 | changing the privilege keeps the index right for it and the commands the same |
| CommandLookup.Cli.SetMode | src/libcli/libcli.cxx:691-709 | changing the mode does too, and sets the description |
| CommandLookup.Cli.Execute | src/libcli/libcli.cxx:2307-2312 | whatever modes were set before, a command line leads where prefix search for the current user leads, with the return code of that |
| Permissions.OnlyPermitted | src/libcli/libcli.cxx:2134-2239 | whatever the line, what is run or listed as help is reached by commands of the user's mode and no higher privilege alone |
| Permissions.OffersPermitted | src/libcli/libcli.cxx:2329-2393 | so is every name listed for completion |
| Permissions.SpellsPermitted | src/libcli/libcli.cxx:2373-2384 | and every name that a completed line spells out |
| Permissions.QuestionMarkHelps | src/libcli/libcli.cxx:2157-2180 | a word with a question mark behind it lists the permitted commands that do something and whose names it begins, and runs nothing |
| Permissions.PrefixSelects | src/libcli/libcli.cxx:2187-2239 | a word that begins the name of one permitted command alone runs it or goes on below it |
| Permissions.PrefixFails | src/libcli/libcli.cxx:2187-2206 | one that begins two different permitted names is ambiguous, and one that begins none unknown |
| Completion.GetCompletions | src/libcli/libcli.cxx:2329-2393 | the completed line and the names listed, in all branches, also below unambiguous words |
| Completion.ListingIsOptions | src/libcli/libcli.cxx:2357-2370 | with a right index the names listed are all names that the first ambiguous word begins, in order, and none if there is no such word; an ambiguous first word leaves the line as it was |
| Completion.CompletionSpells | src/libcli/libcli.cxx:2373-2384 | words that abbreviate one command each are completed to the full names |
| Completion.SplitSpell | src/libcli/libcli.cxx:1864-1906 | plain names spelled out split into the names |
| Completion.CompletionKeepsMeaning | src/libcli/libcli.cxx:2329-2393 | the completed line splits into the full names, leads to the same command, and completes to itself |
| NumberText.StrToInt | src/server/fg_util.hxx:65-141 | the value and error of reading a text for a machine type |
| NumberText.NumToStr | src/server/fg_util.hxx:286-359 | the text of a whole number |
| NumberText.NumberRoundTrip | src/server/fg_util.hxx:65-141 | in bases 2 to 16 every 64-bit number but the least reads back as itself; a target narrower than 64 bits reports -2 if and only if it cannot hold the number |
| NumberText.TextRoundTrip | src/server/fg_util.hxx:286-359 | a text as the printer writes them is printed again from the number it reads as |
| NumberText.AcceptedCharacters | src/server/fg_util.hxx:110-121 | exactly which characters are accepted as digits |
| NumberText.ReadsTooMuch | src/server/fg_util.hxx:110-121 | the text "2" in base 2 and the text ":" in base 10 are read without error |
| NumberText.ErrorPosition | src/server/fg_util.hxx:120-125 | a positive error is the position of the first character that is not accepted, and every such character is reported |
| NumberText.CastFits | src/server/fg_util.hxx:134-139 | a number survives the cast if and only if the target can hold it |
| NumberText.NothingToRead | src/server/fg_util.hxx:65-141 | the empty text is the error -1 |
| NumberText.PlusIsRead | src/server/fg_util.hxx:65-141 | a plus in front of a number changes nothing |
| NumberText.MinusIsRead | src/server/fg_util.hxx:65-141 | a minus in front of a number negates it |
| NumberText.PointEnds | src/server/fg_util.hxx:110-121 | what follows a decimal point or comma is not read |

## Left out

- Sockets, select, signals, threads and locks: sends are an output log, a lock-protected body is one step, and one clock value is used per packet or sweep.
- Counters are unbounded integers; the wrap-around of 64-bit counters is not modelled.
- Geometry: `Distance` is an arbitrary function of two positions; orientation and geodetic coordinates are dropped.
- RelayServer.FgServer.HandlePacket: byte order, the radar range written back into the buffer and the magic are not modelled, so datagrams carry no bytes; what ping and pong answer is output, their contents are not.
- RelayServer.FgServer.HandlePacket: what the source does with the invalidated iterator is undefined; the model stops the run there.
- RelayServer.FgServer.HandlePacket: the packet counters of the server as a whole are not modelled.
- RelayServer.FgServer.AddClient: orientation, ATC type and protocol version of the new player are dropped.
- RelayServer.FgServer.SendToRelays: the sent counters of the relay list's entries are not modelled.
- RelayServer.FgServer.IsKnownRelay: received counters and last-seen times of whitelist and relay list entries are not modelled.
- Network: ports are dropped from relay addresses, as address comparison ignores them; duplication of datagrams by the network is not modelled; every datagram may be lost.
- Reading and writing the message backlog of the tracker client at start and shutdown, server re-initialisation and shutdown.
- TrackerClient.FgTracker.TrackerWrite: the contents of the statistics line are a placeholder that is neither data nor kept, a write either delivers a whole frame or none of it, and packet counters are dropped; timeouts appear as steps that lose the connection.
- TrackerProtocol.EndToEnd: that the tracker records each data message and answers it with one OK, in order, is an assumption about it.
- Histories.ActiveStays: assumes that the clock does not go backwards; `playerExpires` is one value for a whole run.
- TrackerProgress.EverythingAcknowledged: says what can still happen from every state; that it does happen takes a network that lets a connection through at some time, which is not modelled.
- Registry.SessionLog: password, aircraft and time in tracker messages are not modelled; tracking is not switched while a server runs; the build option that tracks remote players is off.
- Simulation.HandlePacketSimulates: is about one packet; that an expiry sweep is a number of expiries of the network model is not stated.
- LazyRelay.ForcedAreUpdates: assumes that no packet bears the name kept for clients with errors, which is longer than a callsign field.
- Deframer.Reader.FindNul: the search for NUL is bounded by the buffer, as the branch for "not found" takes it to be.
- Deframer.Reader.TrackerRead: a read has room for at least one byte; when there is room is what `Deframer.RoomIff` says.
- EditorScreen.TypingKeepsScreen: the terminal row is unbounded, prompt and line hold printable characters, output filters are off, and password mode is left out of the screen's part (not of the editing part).
- LineEditor.Editor.GetLine: the callback run on a timeout; bytes that are missing at the end of an escape sequence read as zero.
- Commands.BuildShortest: the tree is a value that is rebuilt, so the sharing of command objects by reference is not modelled.
- CommandLookup.FindCommand: callbacks are numbers with arbitrary results, their bodies are not modelled; an empty word, for which the source reads in front of a string, is an outcome of its own.
- Completion.CompletionKeepsMeaning: words that begin no name, and arguments behind a command without subcommands, which the source joins or drops.
- Command history, pager, filters, help texts, password comparison, and the bodies of the administration commands.
- NumberText.StrToInt: an overflow of 64 bits while reading is undefined in the source and an outcome of its own here; reading and printing of fractions is not modelled.
