/** The tracker client, the connection and the tracker together, as a step
    system. The connection is FIFO in both directions and may break, or be cut
    in one direction, at any step; frames of a broken connection may still
    arrive later. The tracker records each data message it takes off the
    connection and answers it with one "OK". */
module TrackerProtocol {
  import opened Wrappers
  import opened TrackerClient

  /** What is left on a connection the client has given up; `next` is the
      position, among the messages added, of the first data message on it. */
  datatype Stale = Stale(next: nat, up: seq<string>)

  /** History: `added` are the messages queued by the server, `recorded` what
      the tracker recorded, `order` their positions among the added ones, `via`
      the connections they came on, counted from the first try to connect, `next` the
      position of the first data message under way, `starts` the position at which each
      connection took up the messages, `connections` the number of connections
      opened, and `greeted` whether the tracker has identified the client on this one. */
  datatype System = System(
    me: Sender,
    isOpen: bool,
    down: seq<string>,
    downCut: bool,
    stale: seq<Stale>,
    recorded: seq<string>,
    order: seq<nat>,
    via: seq<nat>,
    next: nat,
    starts: seq<nat>,
    added: seq<string>,
    connections: nat,
    greeted: bool)

  datatype Step =
    | AddMessage(m: string)
    | Take
    | WriteHand
    | Read(n: nat)
    | LoseConnection
    | SendPing
    | Reconnect(success: bool, fates: seq<bool>)
    | CutUp(keep: nat)
    | CutDown(keep: nat)
    | TrackerTakes
    | TrackerSays(str: string)
    | StaleArrives(i: nat)
    | StaleLost(i: nat)

  const INITIAL :=
    System(Sender([], [], [], false, false, Socket([], false, []), None, []),
           false, [], false, [], [], [], [], 0, [0], [], 0, false)

  predicate Enabled(y: System, step: Step)
  {
    match step
    case AddMessage(m) => IsData(m)
    case Take => y.me.MayTake()
    case WriteHand => y.me.hand.Some?
    case Read(n) => y.isOpen && 0 < n <= |y.down|
    case LoseConnection => true
    case SendPing => y.isOpen
    case Reconnect(_, _) => !y.me.connected && y.me.hand.None?
    case CutUp(keep) => keep <= |y.me.socket.up|
    case CutDown(keep) => keep <= |y.down|
    case TrackerTakes => y.me.socket.up != []
    case TrackerSays(str) => y.isOpen && str != "OK"
    case StaleArrives(i) => i < |y.stale| && y.stale[i].up != []
    case StaleLost(i) => i < |y.stale|
  }

  function Apply(y: System, step: Step): System
    requires Enabled(y, step)
  {
    match step
    case AddMessage(m) => y.(me := y.me.AddMessage(m), added := y.added + [m])
    case Take => y.(me := y.me.Take())
    case WriteHand => y.(me := y.me.WriteHand())
    case Read(n) => y.(me := y.me.(recv := y.down[..n]).ReplyAll(), down := y.down[n..])
    case LoseConnection => y.(me := y.me.(connected := false))
    case SendPing => y.(me := y.me.Write("PING").0)
    case Reconnect(success, fates) => ApplyReconnect(y, success, fates)
    case CutUp(keep) => y.(me := y.me.(socket := y.me.socket.(up := y.me.socket.up[..keep], cut := true)))
    case CutDown(keep) => y.(down := y.down[..keep], downCut := true)
    case TrackerTakes =>
      var frame := y.me.socket.up[0];
      var y' := y.(me := y.me.(socket := y.me.socket.(up := y.me.socket.up[1..])));
      if !IsData(frame) then y'
      else y'.(recorded := y.recorded + [frame], order := y.order + [y.next], via := y.via + [|y.stale|],
               next := y.next + 1, down := if y.downCut then y.down else y.down + ["OK"])
    case TrackerSays(str) =>
      y.(down := if y.downCut then y.down else y.down + [str], greeted := y.greeted || "IDENTIFIED" <= str)
    case StaleArrives(i) =>
      var t := y.stale[i];
      if !IsData(t.up[0]) then y.(stale := y.stale[i := t.(up := t.up[1..])])
      else y.(recorded := y.recorded + [t.up[0]], order := y.order + [t.next], via := y.via + [i],
              stale := y.stale[i := Stale(t.next + 1, t.up[1..])])
    case StaleLost(i) => y.(stale := y.stale[i := y.stale[i].(up := [])])
  }

  /** The client opens a new connection, or fails to; what is still on the old
      one may arrive later. */
  function ApplyReconnect(y: System, success: bool, fates: seq<bool>): System
  {
    y.(me := y.me.Reconnect(success, fates), isOpen := success, down := [], downCut := false,
       next := |y.me.acked|, stale := y.stale + [Stale(y.next, y.me.socket.up)], starts := y.starts + [|y.me.acked|],
       connections := if success then y.connections + 1 else y.connections, greeted := false)
  }

  /** The state after a run; a step that is not enabled is skipped. */
  function Exec(steps: seq<Step>): System
  {
    if steps == [] then INITIAL
    else
      var y := Exec(steps[..|steps| - 1]);
      var step := steps[|steps| - 1];
      if Enabled(y, step) then Apply(y, step) else y
  }

  // ---------------------------------------------------------------------
  // Invariant

  /** The data messages among some frames. */
  function Data(frames: seq<string>): seq<string>
  {
    if frames == [] then []
    else (if IsData(frames[0]) then [frames[0]] else []) + Data(frames[1..])
  }

  /** One past the largest position recorded. */
  function High(order: seq<nat>): nat
  {
    if order == [] then 0
    else
      var h := High(order[..|order| - 1]);
      var last := order[|order| - 1];
      if last < h then h else last + 1
  }

  /** Nothing is recorded before everything queued ahead of it. */
  predicate GapFree(order: seq<nat>)
  {
    order == [] ||
    (GapFree(order[..|order| - 1]) && order[|order| - 1] <= High(order[..|order| - 1]))
  }

  predicate IsSlice(all: seq<string>, at: nat, part: seq<string>)
  {
    at + |part| <= |all| && forall k :: 0 <= k < |part| ==> part[k] == all[at + k]
  }

  function Hand(me: Sender): seq<string>
  {
    if me.hand.Some? then [me.hand.value] else []
  }

  function Load(stale: seq<Stale>): nat
  {
    if stale == [] then 0 else |Data(stale[0].up)| + Load(stale[1..])
  }

  /** Connections that have come to an end. */
  function Ended(y: System): nat
  {
    if y.isOpen && y.connections > 0 then y.connections - 1 else y.connections
  }

  /** Acknowledgements under way or received and not yet processed. */
  function Oks(y: System): nat
  {
    multiset(y.me.recv)["OK"] + multiset(y.down)["OK"]
  }

  /** Nothing is lost or reordered inside the client. */
  predicate Conserved(me: Sender, added: seq<string>)
  {
    && added == me.acked + me.sent + Hand(me) + me.queue
    && |me.sent| + |Hand(me)| <= WINDOW
  }

  /** The connection: acknowledgements under way belong to the oldest sent
      messages, and the data messages under way to the ones after them. */
  predicate InFlight(acked: nat, oks: nat, sent: nat, data: seq<string>, cut: bool, next: nat, added: seq<string>)
  {
    && acked + oks <= next
    && IsSlice(added, next, data)
    && next + |data| <= acked + sent
    && (!cut ==> next + |data| == acked + sent)
  }

  predicate Recorded(order: seq<nat>, recorded: seq<string>, added: seq<string>)
  {
    && GapFree(order)
    && |recorded| == |order|
    && forall j :: 0 <= j < |order| ==> order[j] < |added| && recorded[j] == added[order[j]]
  }

  predicate StaleInv(stale: seq<Stale>, high: nat, added: seq<string>)
  {
    forall i :: 0 <= i < |stale| ==> stale[i].next <= high && IsSlice(added, stale[i].next, Data(stale[i].up))
  }

  /** Every recording is the first one of its message, or one of at most a
      window per connection that has ended. */
  predicate Bounded(y: System)
  {
    && y.next <= High(y.order)
    && |y.order| + Load(y.stale) <= y.next + WINDOW * Ended(y)
    && (y.isOpen ==> y.connections > 0)
    && (!y.isOpen ==> y.me.sent == [] && y.me.hand.None? && !y.me.connected)
  }

  predicate AllData(msgs: seq<string>)
  {
    forall m :: m in msgs ==> IsData(m)
  }

  predicate Inv(y: System)
  {
    && Conserved(y.me, y.added)
    && AllData(y.added)
    && InFlight(|y.me.acked|, Oks(y), |y.me.sent|, Data(y.me.socket.up), y.me.socket.cut, y.next, y.added)
    && Recorded(y.order, y.recorded, y.added)
    && StaleInv(y.stale, High(y.order), y.added)
    && Bounded(y)
  }

  // ---------------------------------------------------------------------
  // Facts about the pieces

  lemma {:induction false} DataSnoc(frames: seq<string>, f: string)
    ensures Data(frames + [f]) == Data(frames) + if IsData(f) then [f] else []
  {
    hide IsData;
    if frames != [] {
      assert (frames + [f])[1..] == frames[1..] + [f];
      DataSnoc(frames[1..], f);
    }
  }

  lemma {:induction false} DataTake(frames: seq<string>, keep: nat)
    requires keep <= |frames|
    ensures Data(frames[..keep]) <= Data(frames)
  {
    hide IsData;
    if keep > 0 {
      assert frames[..keep][1..] == frames[1..][..keep - 1];
      DataTake(frames[1..], keep - 1);
    }
  }

  lemma SliceTake(all: seq<string>, at: nat, part: seq<string>, first: seq<string>)
    requires IsSlice(all, at, part) && first <= part
    ensures IsSlice(all, at, first) && |first| <= |part|
  {
  }

  lemma SliceTail(all: seq<string>, at: nat, part: seq<string>)
    requires IsSlice(all, at, part) && part != []
    ensures at < |all| && all[at] == part[0] && IsSlice(all, at + 1, part[1..])
  {
  }

  lemma SliceSnoc(all: seq<string>, at: nat, part: seq<string>)
    requires IsSlice(all, at, part) && at + |part| < |all|
    ensures IsSlice(all, at, part + [all[at + |part|]])
  {
  }

  lemma SliceGrows(all: seq<string>, m: string, at: nat, part: seq<string>)
    requires IsSlice(all, at, part)
    ensures IsSlice(all + [m], at, part)
  {
  }

  lemma {:induction false} LoadSnoc(stale: seq<Stale>, t: Stale)
    ensures Load(stale + [t]) == Load(stale) + |Data(t.up)|
  {
    hide IsData, Data;
    if stale != [] {
      assert (stale + [t])[1..] == stale[1..] + [t];
      LoadSnoc(stale[1..], t);
    }
  }

  lemma {:induction false} LoadUpdate(stale: seq<Stale>, i: nat, t: Stale)
    requires i < |stale|
    ensures Load(stale[i := t]) == Load(stale) - |Data(stale[i].up)| + |Data(t.up)|
  {
    hide IsData, Data;
    if i > 0 {
      assert stale[i := t][1..] == stale[1..][i - 1 := t];
      LoadUpdate(stale[1..], i - 1, t);
    } else {
      assert stale[i := t][1..] == stale[1..];
    }
  }

  lemma StaleAt(stale: seq<Stale>, i: nat, high: nat, added: seq<string>)
    requires StaleInv(stale, high, added) && i < |stale|
    ensures stale[i].next <= high && IsSlice(added, stale[i].next, Data(stale[i].up))
  {
  }

  lemma StaleUpdate(stale: seq<Stale>, i: nat, t: Stale, high: nat, high': nat, added: seq<string>)
    requires StaleInv(stale, high, added) && i < |stale| && high <= high'
    requires t.next <= high' && IsSlice(added, t.next, Data(t.up))
    ensures StaleInv(stale[i := t], high', added)
  {
    hide IsData, Data, IsSlice;
  }

  /** Recording the message at position `at`, which nothing queued earlier
      stays behind. */
  lemma Record(order: seq<nat>, recorded: seq<string>, added: seq<string>, at: nat)
    requires Recorded(order, recorded, added) && at <= High(order) && at < |added|
    ensures Recorded(order + [at], recorded + [added[at]], added)
    ensures High(order + [at]) == if at < High(order) then High(order) else at + 1
  {
    assert (order + [at])[..|order|] == order;
  }

  /** Only the three kinds of data message count as data. */
  lemma {:induction false} ControlIsNoData(str: string)
    ensures !IsData(DEBUG_LINE) && !IsData(HEADER) && !IsData("PING") && !IsData("PONG") && !IsData("")
    ensures var e := "ERROR Unrecognized message \"" + str + "\""; !IsData(e) && !Tracked(e)
    ensures !Tracked(HEADER) && !Tracked("PING") && !Tracked("PONG")
  {
    var e := "ERROR Unrecognized message \"" + str + "\"";
    assert e[0] == 'E' && "ERROR" <= e;
    assert HEADER[0] == 'V' && HEADER[1..] == PROTOCOL_VERSION + " " && "20151207"[0] == '2';
    assert "DEBUG last_msg.size="[1] == 'E' && "DISCONNECT "[1] == 'I' && "CONNECT "[0] == 'C';
    assert "POSITION "[2] == 'S';
  }

  /** What the invariant looks at in the client. */
  predicate SameFlow(a: Sender, b: Sender)
  {
    && a.queue == b.queue && a.sent == b.sent && a.recv == b.recv && a.hand == b.hand && a.acked == b.acked
    && Data(a.socket.up) == Data(b.socket.up) && a.socket.cut == b.socket.cut
    && (a.connected || !b.connected)
  }

  lemma SameFlowKeepsInv(y: System, me: Sender)
    requires Inv(y) && SameFlow(y.me, me)
    ensures Inv(y.(me := me))
  {
    hide IsData, Data, AllData, InFlight, Recorded, StaleInv, High, Load;
  }

  lemma PutData(k: Socket, str: string)
    ensures var (k', ok) := k.Put(str);
            && k'.cut == k.cut
            && Data(k'.up) == if ok && !k.cut && IsData(str) then Data(k.up) + [str] else Data(k.up)
  {
    hide IsData, Data;
    DataSnoc(k.up, str);
  }

  /** Writing either fails and changes nothing that matters, or puts a tracked
      message into the sent queue and a data message, unless cut, on its way. */
  lemma WriteEffect(me: Sender, m: string)
    ensures var (s, ok) := me.Write(m);
            && s.queue == me.queue && s.recv == me.recv && s.hand == me.hand && s.acked == me.acked
            && s.socket.cut == me.socket.cut && (me.connected || !s.connected)
            && s.sent == (if ok && Tracked(m) then me.sent + [m] else me.sent)
            && Data(s.socket.up) == if ok && !me.socket.cut && IsData(m) then Data(me.socket.up) + [m]
                                    else Data(me.socket.up)
  {
    ControlIsNoData("");
    hide IsData, Tracked, Data, Socket.Put;
    PutData(me.socket, m);
    PutData(me.socket.Put(m).0, DEBUG_LINE);
  }

  lemma ControlWrite(me: Sender, str: string)
    requires !IsData(str) && !Tracked(str)
    ensures SameFlow(me, me.Write(str).0)
  {
    hide IsData, Tracked, Data, Sender.Write;
    WriteEffect(me, str);
  }

  // ---------------------------------------------------------------------
  // Every step keeps the invariant

  lemma AddKeepsInv(y: System, m: string)
    requires Inv(y) && IsData(m)
    ensures Inv(Apply(y, AddMessage(m)))
  {
    hide IsData, Data, GapFree, High, Load, IsSlice;
    var y' := Apply(y, AddMessage(m));
    assert y'.added == y'.me.acked + y'.me.sent + Hand(y'.me) + y'.me.queue;
    SliceGrows(y.added, m, y.next, Data(y.me.socket.up));
    forall i | 0 <= i < |y.stale|
      ensures IsSlice(y'.added, y.stale[i].next, Data(y.stale[i].up))
    {
      SliceGrows(y.added, m, y.stale[i].next, Data(y.stale[i].up));
    }
  }

  lemma TakeKeepsInv(y: System)
    requires Inv(y) && y.me.MayTake()
    ensures Inv(Apply(y, Take))
  {
    hide IsData, Data, AllData, InFlight, Recorded, StaleInv, High, Load;
    var y' := Apply(y, Take);
    assert y'.added == y'.me.acked + y'.me.sent + Hand(y'.me) + y'.me.queue;
  }

  /** The message in hand moves to the end of the sent queue or back to the front of the
      send queue. */
  lemma HandMoves(acked: seq<string>, sent: seq<string>, m: string, queue: seq<string>)
    ensures var all := acked + sent + [m] + queue;
      && |acked| + |sent| < |all| && all[|acked| + |sent|] == m
      && all == acked + (sent + [m]) + [] + queue
      && all == acked + sent + [] + ([m] + queue)
  {
  }

  lemma HandSent(y: System, me: Sender)
    requires Inv(y) && y.me.hand.Some?
    requires me.queue == y.me.queue && me.sent == y.me.sent + [y.me.hand.value] && me.hand.None?
    requires me.recv == y.me.recv && me.acked == y.me.acked && (y.me.connected || !me.connected)
    requires me.socket.cut == y.me.socket.cut
    requires Data(me.socket.up) ==
      if me.socket.cut then Data(y.me.socket.up) else Data(y.me.socket.up) + [y.me.hand.value]
    ensures Inv(y.(me := me))
  {
    hide IsData, Data, InFlight, AllData, Recorded, StaleInv, Load, High;
    HandMoves(y.me.acked, y.me.sent, y.me.hand.value, y.me.queue);
    FlowGrows(|y.me.acked|, Oks(y), |y.me.sent|, Data(y.me.socket.up), y.me.socket.cut, y.next, y.added);
  }

  lemma HandKept(y: System, me: Sender)
    requires Inv(y) && y.me.hand.Some?
    requires me.queue == [y.me.hand.value] + y.me.queue && me.sent == y.me.sent && me.hand.None?
    requires me.recv == y.me.recv && me.acked == y.me.acked && (y.me.connected || !me.connected)
    requires me.socket.cut == y.me.socket.cut && Data(me.socket.up) == Data(y.me.socket.up)
    ensures Inv(y.(me := me))
  {
    hide IsData, Data, InFlight, AllData, Recorded, StaleInv, Load, High;
    HandMoves(y.me.acked, y.me.sent, y.me.hand.value, y.me.queue);
  }

  lemma WriteHandKeepsInv(y: System)
    requires Inv(y) && y.me.hand.Some?
    ensures Inv(Apply(y, WriteHand))
  {
    HandIsData(y);
    hide Inv, IsData, Tracked, Data, Sender.Write;
    var m := y.me.hand.value;
    WriteEffect(y.me, m);
    DataIsTracked(m);
    if y.me.Write(m).1 {
      HandSent(y, y.me.WriteHand());
    } else {
      HandKept(y, y.me.WriteHand());
    }
  }

  lemma HandIsData(y: System)
    requires Inv(y) && y.me.hand.Some?
    ensures IsData(y.me.hand.value)
  {
    hide IsData, Data, InFlight, Recorded, StaleInv, Load, High;
    HandMoves(y.me.acked, y.me.sent, y.me.hand.value, y.me.queue);
    assert y.me.hand.value in y.added;
  }

  lemma FlowGrows(acked: nat, oks: nat, sent: nat, data: seq<string>, cut: bool, next: nat, added: seq<string>)
    requires InFlight(acked, oks, sent, data, cut, next, added) && acked + sent < |added|
    ensures InFlight(acked, oks, sent + 1, if cut then data else data + [added[acked + sent]], cut, next, added)
  {
    if !cut {
      SliceSnoc(added, next, data);
    }
  }

  /** An acknowledgement takes the oldest sent message, and there is one. */
  lemma AckKeepsInv(y: System, recv: seq<string>)
    requires Inv(y) && y.me.recv == ["OK"] + recv
    ensures y.me.sent != []
    ensures Inv(y.(me := y.me.(recv := recv, acked := y.me.acked + [y.me.sent[0]], sent := y.me.sent[1..])))
  {
    hide IsData, Data, AllData, IsSlice, Recorded, StaleInv, High, Load;
    var me := y.me;
    assert multiset(me.recv) == multiset{"OK"} + multiset(recv);
    var y' := y.(me := me.(recv := recv, acked := me.acked + [me.sent[0]], sent := me.sent[1..]));
    assert me.sent == [me.sent[0]] + me.sent[1..];
    assert y'.added == y'.me.acked + y'.me.sent + Hand(y'.me) + y'.me.queue;
  }

  /** Any other reply taken off the receive queue. */
  lemma SkipReplyKeepsInv(y: System, str: string, recv: seq<string>)
    requires Inv(y) && y.me.recv == [str] + recv && str != "OK"
    ensures Inv(y.(me := y.me.(recv := recv)))
  {
    hide IsData, Data, AllData, IsSlice, Recorded, StaleInv, High, Load;
    assert multiset(y.me.recv) == multiset{str} + multiset(recv);
  }

  /** One reply processed. */
  lemma ReplyKeepsInv(y: System)
    requires Inv(y) && y.me.recv != []
    ensures Inv(y.(me := y.me.(recv := y.me.recv[1..]).Reply(y.me.recv[0])))
  {
    hide IsData, Tracked, Data, Inv, Sender.Write;
    var str, recv := y.me.recv[0], y.me.recv[1..];
    if str == "OK" {
      AckKeepsInv(y, recv);
    } else {
      SkipReplyKeepsInv(y, str, recv);
      var me := y.me.(recv := recv);
      ControlIsNoData(str);
      ControlWrite(me, "PONG");
      ControlWrite(me, "ERROR Unrecognized message \"" + str + "\"");
      assert SameFlow(me, me.Reply(str));
      SameFlowKeepsInv(y.(me := me), me.Reply(str));
    }
  }

  lemma {:induction false} ReplyAllKeepsInv(y: System)
    requires Inv(y)
    ensures Inv(y.(me := y.me.ReplyAll()))
    decreases |y.me.recv|
  {
    hide Inv, Sender.Reply;
    if y.me.recv != [] {
      ReplyKeepsInv(y);
      ReplyKeepsRecv(y.me.(recv := y.me.recv[1..]), y.me.recv[0]);
      ReplyAllKeepsInv(y.(me := y.me.(recv := y.me.recv[1..]).Reply(y.me.recv[0])));
    }
  }

  lemma ReplyKeepsRecv(me: Sender, str: string)
    ensures me.Reply(str).recv == me.recv
  {
    hide IsData, Tracked;
  }

  lemma ReadKeepsInv(y: System, n: nat)
    requires Inv(y) && y.me.recv == [] && Enabled(y, Read(n))
    ensures Inv(Apply(y, Read(n)))
  {
    hide IsData, Data, AllData, IsSlice, Recorded, StaleInv, High, Load, Sender.ReplyAll;
    assert y.down == y.down[..n] + y.down[n..];
    assert multiset(y.down) == multiset(y.down[..n]) + multiset(y.down[n..]);
    ReplyAllKeepsInv(y.(me := y.me.(recv := y.down[..n]), down := y.down[n..]));
  }

  /** Reconnecting: everything unacknowledged goes back to the front of the
      queue, and what is still on the old connection stays there. */
  lemma ReconnectKeepsInv(y: System, success: bool, fates: seq<bool>)
    requires Inv(y) && y.me.recv == [] && Enabled(y, Reconnect(success, fates))
    ensures Inv(Apply(y, Reconnect(success, fates)))
  {
    var t, y' := Stale(y.next, y.me.socket.up), ApplyReconnect(y, success, fates);
    FreshConnection(y.me, success, fates);
    LoadSnoc(y.stale, t);
    StaleSnoc(y.stale, t, High(y.order), y.added);
    Requeued(y, y');
  }

  lemma FreshConnection(me: Sender, success: bool, fates: seq<bool>)
    requires me.hand.None?
    ensures var s := me.Reconnect(success, fates);
            && s.queue == me.sent + me.queue && s.sent == [] && s.recv == me.recv
            && s.hand.None? && s.acked == me.acked && s.connected == success
            && Data(s.socket.up) == [] && !s.socket.cut
  {
    ControlIsNoData("");
    hide IsData, Tracked, Data, Sender.Write, Socket.Put;
    assert Data([]) == [] by { EmptyData(); }
    PutData(Socket([], false, fates), "");
    WriteEffect(me.ReQueue().(identified := false, socket := Socket([], false, fates).Put("").0), HEADER);
  }

  lemma EmptyData()
    ensures Data([]) == []
  {
  }

  lemma StaleSnoc(stale: seq<Stale>, t: Stale, high: nat, added: seq<string>)
    requires StaleInv(stale, high, added) && t.next <= high && IsSlice(added, t.next, Data(t.up))
    ensures StaleInv(stale + [t], high, added)
  {
    hide IsData, Data, IsSlice;
  }

  lemma Requeued(y: System, y': System)
    requires Inv(y) && y.me.recv == [] && y.me.hand.None?
    requires y'.me.queue == y.me.sent + y.me.queue && y'.me.sent == [] && y'.me.recv == []
    requires y'.me.hand.None? && y'.me.acked == y.me.acked && y'.me.connected == y'.isOpen
    requires Data(y'.me.socket.up) == [] && y'.down == [] && y'.next == |y.me.acked|
    requires y'.added == y.added && y'.order == y.order && y'.recorded == y.recorded
    requires StaleInv(y'.stale, High(y.order), y.added)
    requires Load(y'.stale) == Load(y.stale) + |Data(y.me.socket.up)|
    requires y'.connections == if y'.isOpen then y.connections + 1 else y.connections
    ensures Inv(y')
  {
    hide IsData, Data, AllData, Recorded, StaleInv, High, Load;
    assert y'.added == y'.me.acked + y'.me.sent + Hand(y'.me) + y'.me.queue;
  }

  lemma CutUpKeepsInv(y: System, keep: nat)
    requires Inv(y) && Enabled(y, CutUp(keep))
    ensures Inv(Apply(y, CutUp(keep)))
  {
    hide IsData, Data, AllData, Recorded, StaleInv, High, Load, IsSlice;
    var up := y.me.socket.up;
    DataTake(up, keep);
    SliceTake(y.added, y.next, Data(up), Data(up[..keep]));
  }

  lemma CutDownKeepsInv(y: System, keep: nat)
    requires Inv(y) && Enabled(y, CutDown(keep))
    ensures Inv(Apply(y, CutDown(keep)))
  {
    hide IsData, Data, AllData, Recorded, StaleInv, High, Load, IsSlice;
    assert y.down == y.down[..keep] + y.down[keep..];
    assert multiset(y.down) == multiset(y.down[..keep]) + multiset(y.down[keep..]);
  }

  lemma {:induction false} TrackerTakesKeepsInv(y: System)
    requires Inv(y) && Enabled(y, TrackerTakes)
    ensures Inv(Apply(y, TrackerTakes))
  {
    var up := y.me.socket.up;
    hide IsData, Data, AllData, Recorded, StaleInv, High, Load, IsSlice;
    DataHead(up);
    if IsData(up[0]) {
      SliceTail(y.added, y.next, Data(up));
      Record(y.order, y.recorded, y.added, y.next);
      assert multiset(y.down + ["OK"]) == multiset(y.down) + multiset{"OK"};
      StaleGrows(y.stale, High(y.order), High(y.order + [y.next]), y.added);
    } else {
      SameFlowKeepsInv(y, y.me.(socket := y.me.socket.(up := up[1..])));
    }
  }

  lemma DataHead(up: seq<string>)
    requires up != []
    ensures if IsData(up[0]) then Data(up) != [] && Data(up)[0] == up[0] && Data(up)[1..] == Data(up[1..])
            else Data(up) == Data(up[1..])
  {
    hide IsData;
  }

  lemma StaleGrows(stale: seq<Stale>, high: nat, high': nat, added: seq<string>)
    requires StaleInv(stale, high, added) && high <= high'
    ensures StaleInv(stale, high', added)
  {
    hide IsData, Data, IsSlice;
  }

  lemma TrackerSaysKeepsInv(y: System, str: string)
    requires Inv(y) && Enabled(y, TrackerSays(str))
    ensures Inv(Apply(y, TrackerSays(str)))
  {
    hide IsData, Data, AllData, Recorded, StaleInv, High, Load, IsSlice;
    assert multiset(y.down + [str]) == multiset(y.down) + multiset{str};
  }

  lemma {:induction false} StaleArrivesKeepsInv(y: System, i: nat)
    requires Inv(y) && Enabled(y, StaleArrives(i))
    ensures Inv(Apply(y, StaleArrives(i)))
  {
    hide IsData, Data, AllData, InFlight, Recorded, StaleInv, High, Load, IsSlice;
    var t := y.stale[i];
    StaleAt(y.stale, i, High(y.order), y.added);
    DataHead(t.up);
    if IsData(t.up[0]) {
      SliceTail(y.added, t.next, Data(t.up));
      Record(y.order, y.recorded, y.added, t.next);
      LoadUpdate(y.stale, i, Stale(t.next + 1, t.up[1..]));
      StaleUpdate(y.stale, i, Stale(t.next + 1, t.up[1..]), High(y.order), High(y.order + [t.next]), y.added);
    } else {
      LoadUpdate(y.stale, i, t.(up := t.up[1..]));
      StaleUpdate(y.stale, i, t.(up := t.up[1..]), High(y.order), High(y.order), y.added);
    }
  }

  lemma {:induction false} StaleLostKeepsInv(y: System, i: nat)
    requires Inv(y) && i < |y.stale|
    ensures Inv(Apply(y, StaleLost(i)))
  {
    hide IsData, Data, AllData, InFlight, Recorded, StaleInv, High, Load, IsSlice;
    var t := y.stale[i].(up := []);
    EmptyData();
    StaleAt(y.stale, i, High(y.order), y.added);
    SliceTake(y.added, t.next, Data(y.stale[i].up), []);
    LoadUpdate(y.stale, i, t);
    StaleUpdate(y.stale, i, t, High(y.order), High(y.order), y.added);
  }

  lemma StepDrainsReplies(y: System, step: Step)
    requires y.me.recv == [] && Enabled(y, step)
    ensures Apply(y, step).me.recv == []
  {
    hide IsData, Sender.Write, Sender.Reconnect, Sender.ReplyAll;
    match step
    case WriteHand => WriteKeepsRecv(y.me, y.me.hand.value);
    case SendPing => WriteKeepsRecv(y.me, "PING");
    case Reconnect(success, fates) => ReconnectKeepsRecv(y.me, success, fates);
    case _ =>
  }

  lemma WriteKeepsRecv(me: Sender, str: string)
    ensures me.Write(str).0.recv == me.recv
  {
    hide Tracked;
  }

  lemma ReconnectKeepsRecv(me: Sender, success: bool, fates: seq<bool>)
    ensures me.Reconnect(success, fates).recv == me.recv
  {
    hide Tracked;
  }

  lemma {:induction false} StepKeepsInv(y: System, step: Step)
    requires Inv(y) && y.me.recv == [] && Enabled(y, step)
    ensures Inv(Apply(y, step))
  {
    hide Inv, IsData, Tracked, Sender.Reconnect, Sender.Write, Sender.ReplyAll, Sender.WriteHand, Data;
    match step
    case AddMessage(m) => AddKeepsInv(y, m);
    case Take => TakeKeepsInv(y);
    case WriteHand => WriteHandKeepsInv(y);
    case Read(n) => ReadKeepsInv(y, n);
    case LoseConnection => SameFlowKeepsInv(y, y.me.(connected := false));
    case SendPing =>
      ControlIsNoData("");
      ControlWrite(y.me, "PING");
      SameFlowKeepsInv(y, y.me.Write("PING").0);
    case Reconnect(success, fates) => ReconnectKeepsInv(y, success, fates);
    case CutUp(keep) => CutUpKeepsInv(y, keep);
    case CutDown(keep) => CutDownKeepsInv(y, keep);
    case TrackerTakes => TrackerTakesKeepsInv(y);
    case TrackerSays(str) => TrackerSaysKeepsInv(y, str);
    case StaleArrives(i) => StaleArrivesKeepsInv(y, i);
    case StaleLost(i) => StaleLostKeepsInv(y, i);
  }

  /** Main invariant: every state of every run. */
  lemma {:induction false} RunKeepsInv(steps: seq<Step>)
    ensures Inv(Exec(steps)) && Exec(steps).me.recv == []
  {
    hide IsData, Tracked, Enabled, Apply;
    if steps != [] {
      var y, step := Exec(steps[..|steps| - 1]), steps[|steps| - 1];
      RunKeepsInv(steps[..|steps| - 1]);
      if Enabled(y, step) {
        StepKeepsInv(y, step);
        StepDrainsReplies(y, step);
      }
    }
  }

  // ---------------------------------------------------------------------
  // What follows for whole runs

  lemma {:induction false} GapFreeCovers(order: seq<nat>, i: nat)
    requires GapFree(order)
    ensures i in order <==> i < High(order)
  {
    if order != [] {
      GapFreeCovers(order[..|order| - 1], i);
      assert order == order[..|order| - 1] + [order[|order| - 1]];
    }
  }

  /** Nothing is lost or reordered on the way through the client's queues, and
      at most a window of messages waits for an acknowledgement. */
  lemma QueueConservation(steps: seq<Step>)
    ensures var y := Exec(steps);
            && y.added == y.me.acked + y.me.sent + Hand(y.me) + y.me.queue
            && |y.me.sent| <= 25
  {
    RunKeepsInv(steps);
  }

  /** What the tracker has recorded is a gap-free prefix of the messages queued;
      nothing is recorded before everything ahead of it; every acknowledged
      message is recorded; and a connection that ended costs at most a window
      of repetitions. */
  lemma EndToEnd(steps: seq<Step>)
    ensures var y := Exec(steps);
            && (forall i: nat :: i in y.order <==> i < High(y.order))
            && GapFree(y.order)
            && |y.me.acked| <= High(y.order) <= |y.added|
            && y.me.acked == y.added[..|y.me.acked|]
            && |y.recorded| == |y.order|
            && (forall j :: 0 <= j < |y.order| ==> y.order[j] < |y.added| && y.recorded[j] == y.added[y.order[j]])
            && |y.recorded| <= High(y.order) + 25 * Ended(y)
  {
    RunKeepsInv(steps);
    var y := Exec(steps);
    forall i: nat
      ensures i in y.order <==> i < High(y.order)
    {
      GapFreeCovers(y.order, i);
    }
    if High(y.order) > 0 {
      assert High(y.order) - 1 in y.order;
    }
  }

  // ---------------------------------------------------------------------
  // Connection by connection

  /** The positions recorded on connection `k`, in the order of their arrival. */
  function On(order: seq<nat>, via: seq<nat>, k: nat): seq<nat>
    requires |order| == |via|
  {
    if order == [] then []
    else
      var n := |order| - 1;
      On(order[..n], via[..n], k) + if via[n] == k then [order[n]] else []
  }

  lemma OnSnoc(order: seq<nat>, via: seq<nat>, p: nat, c: nat, k: nat)
    requires |order| == |via|
    ensures On(order + [p], via + [c], k) == On(order, via, k) + if c == k then [p] else []
  {
    assert (order + [p])[..|order|] == order && (via + [c])[..|via|] == via;
  }

  /** The position that comes next on connection `k`, and how much data is still on it. */
  function NextOn(y: System, k: nat): nat
    requires k <= |y.stale|
  {
    if k < |y.stale| then y.stale[k].next else y.next
  }

  /** Positions one after the other. */
  predicate Consecutive(s: seq<nat>, from: nat, to: nat)
  {
    from + |s| == to && forall i :: 0 <= i < |s| ==> s[i] == from + i
  }

  predicate ConnectionAt(y: System, k: nat)
    requires k <= |y.stale| && |y.starts| == |y.stale| + 1 && |y.via| == |y.order|
  {
    && Consecutive(On(y.order, y.via, k), y.starts[k], NextOn(y, k))
    && (k < |y.stale| ==>
          y.starts[k] <= y.starts[k + 1] && y.stale[k].next + |Data(y.stale[k].up)| <= y.starts[k + 1] + WINDOW)
  }

  predicate ConnectionInv(y: System)
  {
    && |y.via| == |y.order| && |y.starts| == |y.stale| + 1
    && y.starts[|y.stale|] <= |y.me.acked|
    && (forall j :: 0 <= j < |y.via| ==> y.via[j] <= |y.stale|)
    && forall k: nat :: k <= |y.stale| ==> ConnectionAt(y, k)
  }

  lemma {:induction false} NothingOn(order: seq<nat>, via: seq<nat>, k: nat)
    requires |order| == |via| && forall j :: 0 <= j < |via| ==> via[j] < k
    ensures On(order, via, k) == []
  {
    if order != [] {
      NothingOn(order[..|order| - 1], via[..|via| - 1], k);
    }
  }

  /** Steps that record nothing and leave the connections as they are. */
  lemma SameConnections(y: System, y': System)
    requires ConnectionInv(y)
    requires y'.order == y.order && y'.via == y.via && y'.starts == y.starts && y'.next == y.next && y'.stale == y.stale
    requires |y'.me.acked| >= |y.me.acked|
    ensures ConnectionInv(y')
  {
    hide Data, On, Consecutive;
    forall k: nat | k <= |y'.stale|
      ensures ConnectionAt(y', k)
    {
      assert ConnectionAt(y, k);
    }
  }

  /** A message is recorded on connection `c`, of which it was the next. */
  lemma RecordedOn(y: System, y': System, c: nat)
    requires ConnectionInv(y) && c <= |y.stale|
    requires y'.order == y.order + [NextOn(y, c)] && y'.via == y.via + [c] && y'.starts == y.starts
    requires y'.me.acked == y.me.acked && |y'.stale| == |y.stale|
    requires y'.next == if c == |y.stale| then y.next + 1 else y.next
    requires forall k: nat :: k < |y.stale| && k != c ==> y'.stale[k] == y.stale[k]
    requires c < |y.stale| ==>
      y'.stale[c].next == y.stale[c].next + 1 && |Data(y'.stale[c].up)| + 1 == |Data(y.stale[c].up)|
    ensures ConnectionInv(y')
  {
    hide Data, On;
    forall k: nat | k <= |y'.stale|
      ensures ConnectionAt(y', k)
    {
      assert ConnectionAt(y, k);
      OnSnoc(y.order, y.via, NextOn(y, c), c, k);
    }
  }

  /** Data is taken off a connection that has been given up. */
  lemma LessOn(y: System, y': System, c: nat)
    requires ConnectionInv(y) && c < |y.stale|
    requires y'.order == y.order && y'.via == y.via && y'.starts == y.starts && y'.next == y.next
    requires y'.me.acked == y.me.acked && |y'.stale| == |y.stale|
    requires forall k: nat :: k < |y.stale| && k != c ==> y'.stale[k] == y.stale[k]
    requires y'.stale[c].next == y.stale[c].next && |Data(y'.stale[c].up)| <= |Data(y.stale[c].up)|
    ensures ConnectionInv(y')
  {
    hide Data, On, Consecutive;
    forall k: nat | k <= |y'.stale|
      ensures ConnectionAt(y', k)
    {
      assert ConnectionAt(y, k);
    }
  }

  lemma WithinWindow(y: System)
    requires Inv(y)
    ensures y.next + |Data(y.me.socket.up)| <= |y.me.acked| + WINDOW
  {
    hide Data, IsData, AllData, Recorded, StaleInv, Bounded, IsSlice;
  }

  lemma NewConnection(y: System, y': System)
    requires ConnectionInv(y) && y.next + |Data(y.me.socket.up)| <= |y.me.acked| + WINDOW
    requires y'.order == y.order && y'.via == y.via && y'.me.acked == y.me.acked && y'.next == |y.me.acked|
    requires y'.starts == y.starts + [|y.me.acked|] && y'.stale == y.stale + [Stale(y.next, y.me.socket.up)]
    ensures ConnectionInv(y')
  {
    hide Data, On;
    NothingOn(y.order, y.via, |y'.stale|);
    forall k: nat | k <= |y'.stale|
      ensures ConnectionAt(y', k)
    {
      if k <= |y.stale| {
        assert ConnectionAt(y, k);
      }
    }
  }

  lemma AckedGrows(y: System, step: Step)
    requires Enabled(y, step)
    ensures |Apply(y, step).me.acked| >= |y.me.acked|
  {
    hide IsData, Tracked;
    if step.Read? {
      ReplyAllAcks(y.me.(recv := y.down[..step.n]));
    }
  }

  lemma {:induction false} ReplyAllAcks(me: Sender)
    ensures |me.ReplyAll().acked| >= |me.acked|
    decreases |me.recv|
  {
    hide IsData, Tracked;
    if me.recv != [] {
      var me' := me.(recv := me.recv[1..]).Reply(me.recv[0]);
      ReplyKeepsRecv(me.(recv := me.recv[1..]), me.recv[0]);
      ReplyAllAcks(me');
    }
  }

  lemma StepKeepsConnections(y: System, step: Step)
    requires ConnectionInv(y) && Inv(y) && y.me.recv == [] && Enabled(y, step)
    ensures ConnectionInv(Apply(y, step))
  {
    hide ConnectionInv, Inv, IsData, Tracked, Sender.Reconnect, Sender.Write, Sender.ReplyAll, Sender.WriteHand, Data;
    var y' := Apply(y, step);
    AckedGrows(y, step);
    match step
    case TrackerTakes =>
      if IsData(y.me.socket.up[0]) {
        RecordedOn(y, y', |y.stale|);
      } else {
        SameConnections(y, y');
      }
    case StaleArrives(i) =>
      DataHead(y.stale[i].up);
      if IsData(y.stale[i].up[0]) {
        RecordedOn(y, y', i);
      } else {
        LessOn(y, y', i);
      }
    case StaleLost(i) =>
      EmptyData();
      LessOn(y, y', i);
    case Reconnect(success, fates) =>
      FreshConnection(y.me, success, fates);
      WithinWindow(y);
      NewConnection(y, y');
    case _ => SameConnections(y, y');
  }

  lemma StartConnections()
    ensures ConnectionInv(INITIAL)
  {
  }

  lemma {:induction false} RunKeepsConnections(steps: seq<Step>)
    ensures ConnectionInv(Exec(steps))
  {
    hide Enabled, Apply, ConnectionInv, Inv;
    if steps == [] {
      StartConnections();
    } else {
      var before, step := steps[..|steps| - 1], steps[|steps| - 1];
      RunKeepsConnections(before);
      RunKeepsInv(before);
      if Enabled(Exec(before), step) {
        StepKeepsConnections(Exec(before), step);
      }
    }
  }

  /** How many of the positions are `at` or after it. */
  function CountFrom(s: seq<nat>, at: nat): nat
  {
    if s == [] then 0 else CountFrom(s[..|s| - 1], at) + if s[|s| - 1] >= at then 1 else 0
  }

  lemma {:induction false} ConsecutiveFrom(s: seq<nat>, from: nat, to: nat, at: nat)
    requires Consecutive(s, from, to) && from <= at
    ensures CountFrom(s, at) == if to <= at then 0 else to - at
  {
    if s != [] {
      ConsecutiveFrom(s[..|s| - 1], from, to - 1, at);
    }
  }

  /** What is recorded on any one connection are messages one after the other, from where
      it took them up, each once; and of these at most a window were put on it again by the
      next connection. */
  lemma PerConnection(steps: seq<Step>, k: nat)
    requires k <= |Exec(steps).stale|
    ensures var y := Exec(steps);
      && |y.via| == |y.order| && |y.starts| == |y.stale| + 1
      && (forall j :: 0 <= j < |y.via| ==> y.via[j] <= |y.stale|)
      && (forall i :: 0 <= i < |On(y.order, y.via, k)| ==> On(y.order, y.via, k)[i] == y.starts[k] + i)
      && (k < |y.stale| ==>
            y.starts[k] <= y.starts[k + 1] && CountFrom(On(y.order, y.via, k), y.starts[k + 1]) <= 25)
  {
    RunKeepsConnections(steps);
    var y := Exec(steps);
    hide Exec, On, Data;
    assert ConnectionAt(y, k);
    if k < |y.stale| {
      ConsecutiveFrom(On(y.order, y.via, k), y.starts[k], NextOn(y, k), y.starts[k + 1]);
    }
  }
}
