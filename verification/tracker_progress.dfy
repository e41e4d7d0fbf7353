/** The tracker client does get its messages across: whatever has happened, a run can go on
    so that everything queued is recorded and acknowledged. */
module TrackerProgress {
  import opened TrackerClient
  import opened TrackerProtocol

  lemma ExecSnoc(steps: seq<Step>, step: Step)
    ensures Exec(steps + [step]) == var y := Exec(steps); if Enabled(y, step) then Apply(y, step) else y
  {
    assert (steps + [step])[..|steps|] == steps;
  }

  predicate AllTrue(fates: seq<bool>)
  {
    forall i :: 0 <= i < |fates| ==> fates[i]
  }

  /** The client may send, nothing is under way, and enough writes will succeed. */
  predicate Ready(y: System, writes: nat)
  {
    && y.isOpen && y.me.connected && y.me.identified
    && y.me.hand.None? && y.me.sent == [] && y.me.recv == []
    && y.me.socket.up == [] && !y.me.socket.cut && AllTrue(y.me.socket.fates) && |y.me.socket.fates| >= writes
    && y.down == [] && !y.downCut
  }

  predicate NoData(frames: seq<string>)
  {
    forall f :: f in frames ==> !IsData(f)
  }

  /** The tracker takes everything off the connection. */
  lemma {:induction false} Drain(steps: seq<Step>) returns (all: seq<Step>)
    requires NoData(Exec(steps).me.socket.up)
    ensures steps <= all
    ensures var y := Exec(steps);
      Exec(all) == y.(me := y.me.(socket := y.me.socket.(up := [])))
    decreases |Exec(steps).me.socket.up|
  {
    hide IsData;
    var y := Exec(steps);
    if y.me.socket.up == [] {
      all := steps;
    } else {
      ExecSnoc(steps, TrackerTakes);
      assert y.me.socket.up[0] in y.me.socket.up;
      all := Drain(steps + [TrackerTakes]);
    }
  }

  /** The client may send, with less than a window unacknowledged. */
  predicate MaySend(y: System)
  {
    && y.me.connected && y.me.identified && y.me.hand.None? && |y.me.sent| < WINDOW
    && !y.me.socket.cut && AllTrue(y.me.socket.fates) && |y.me.socket.fates| >= 2
    && y.me.queue != [] && IsData(y.me.queue[0])
  }

  /** It takes the next message and writes it. */
  lemma Written(y: System)
    requires MaySend(y)
    ensures Enabled(y, Take) && Enabled(Apply(y, Take), WriteHand)
    ensures var m, k := y.me.queue[0], y.me.socket;
      Apply(Apply(y, Take), WriteHand) ==
        y.(me := y.me.(queue := y.me.queue[1..], sent := y.me.sent + [m],
                       socket := Socket(k.up + [m, DEBUG_LINE], false, k.fates[2..])))
  {
    DataIsTracked(y.me.queue[0]);
    hide IsData, Tracked;
    var m, k := y.me.queue[0], y.me.socket;
    assert k.up + [m] + [DEBUG_LINE] == k.up + [m, DEBUG_LINE];
    assert k.fates[1..][1..] == k.fates[2..];
  }

  /** The tracker records the message, and its answer acknowledges it. */
  lemma Answered(y: System, m: string)
    requires y.isOpen && y.me.recv == [] && y.me.sent == [m] && IsData(m)
    requires y.me.socket.up == [m, DEBUG_LINE] && y.down == [] && !y.downCut
    ensures Enabled(y, TrackerTakes) && Enabled(Apply(y, TrackerTakes), TrackerTakes)
    ensures var z := Apply(Apply(y, TrackerTakes), TrackerTakes);
      && Enabled(z, Read(1))
      && Apply(z, Read(1)) ==
           y.(me := y.me.(sent := [], acked := y.me.acked + [m], socket := y.me.socket.(up := [])),
              recorded := y.recorded + [m], order := y.order + [y.next], via := y.via + [|y.stale|], next := y.next + 1)
  {
    ControlIsNoData("");
    hide IsData;
    assert [m, DEBUG_LINE][1..] == [DEBUG_LINE] && [DEBUG_LINE][1..] == [];
    var z := Apply(Apply(y, TrackerTakes), TrackerTakes);
    assert z.down == ["OK"] && z.down[..1] == ["OK"] && z.down[1..] == [];
    OkAcks(z.me, m);
  }

  lemma OkAcks(me: Sender, m: string)
    requires me.sent == [m]
    ensures me.(recv := ["OK"]).ReplyAll() == me.(recv := [], sent := [], acked := me.acked + [m])
  {
    assert "OK"[0] != "IDENTIFIED"[0];
    assert ["OK"][1..] == [] && [m][1..] == [];
    var one := me.(recv := ["OK"]).(recv := ["OK"][1..]).Reply("OK");
    assert one == me.(recv := [], sent := [], acked := me.acked + [m]);
    assert me.(recv := ["OK"]).ReplyAll() == one.ReplyAll();
  }

  /** One message goes across and is acknowledged. */
  lemma OneAcross(steps: seq<Step>, writes: nat) returns (all: seq<Step>)
    requires Ready(Exec(steps), writes + 2) && Exec(steps).me.queue != [] && IsData(Exec(steps).me.queue[0])
    ensures steps <= all && Ready(Exec(all), writes)
    ensures var y, z := Exec(steps), Exec(all);
      && z.me.queue == y.me.queue[1..] && z.me.acked == y.me.acked + [y.me.queue[0]] && z.added == y.added
      && z.recorded == y.recorded + [y.me.queue[0]]
  {
    hide IsData, Exec, Apply;
    var y := Exec(steps);
    assert MaySend(y);
    Written(y);
    assert [] + [y.me.queue[0]] == [y.me.queue[0]];
    assert [] + [y.me.queue[0], DEBUG_LINE] == [y.me.queue[0], DEBUG_LINE];
    Answered(Apply(Apply(y, Take), WriteHand), y.me.queue[0]);
    all := steps + [Take] + [WriteHand] + [TrackerTakes] + [TrackerTakes] + [Read(1)];
    ExecSnoc(steps, Take);
    ExecSnoc(steps + [Take], WriteHand);
    ExecSnoc(steps + [Take] + [WriteHand], TrackerTakes);
    ExecSnoc(steps + [Take] + [WriteHand] + [TrackerTakes], TrackerTakes);
    ExecSnoc(steps + [Take] + [WriteHand] + [TrackerTakes] + [TrackerTakes], Read(1));
  }

  /** The whole queue goes across, one message after the other. */
  lemma {:induction false} AllAcross(steps: seq<Step>) returns (all: seq<Step>)
    requires Ready(Exec(steps), 2 * |Exec(steps).me.queue|) && AllData(Exec(steps).me.queue)
    ensures steps <= all
    ensures var y, z := Exec(steps), Exec(all);
      && z.me.acked == y.me.acked + y.me.queue && z.recorded == y.recorded + y.me.queue && z.added == y.added
    decreases |Exec(steps).me.queue|
  {
    hide IsData, Exec, Ready;
    var queue := Exec(steps).me.queue;
    if queue == [] {
      all := steps;
    } else {
      assert queue[0] in queue;
      var next := OneAcross(steps, 2 * (|queue| - 1));
      assert forall m :: m in queue[1..] ==> m in queue;
      all := AllAcross(next);
      assert queue == [queue[0]] + queue[1..];
    }
  }

  // ---------------------------------------------------------------------
  // From any state to a fresh connection

  /** The sender thread puts down what it holds. */
  lemma HandEmptied(steps: seq<Step>) returns (all: seq<Step>)
    ensures steps <= all && Exec(all).me.hand.None? && Exec(all).added == Exec(steps).added
    ensures Exec(all).me.acked == Exec(steps).me.acked
  {
    hide IsData, Tracked, Exec;
    all := steps;
    if Exec(steps).me.hand.Some? {
      ExecSnoc(steps, WriteHand);
      all := steps + [WriteHand];
    }
  }

  /** The client loses its connection and opens another. */
  lemma Reconnected(y: System, fates: seq<bool>)
    requires y.me.hand.None? && AllTrue(fates) && |fates| >= 3
    ensures Enabled(y, LoseConnection)
    ensures var x := Apply(y, LoseConnection);
      && Enabled(x, Reconnect(true, fates))
      && var z := Apply(x, Reconnect(true, fates));
         && z.isOpen && z.me.connected && !z.me.identified && z.me.hand.None? && z.me.sent == []
         && z.me.recv == y.me.recv && z.me.queue == y.me.sent + y.me.queue && z.me.acked == y.me.acked
         && z.me.socket == Socket(["", HEADER, DEBUG_LINE], false, fates[3..])
         && z.down == [] && !z.downCut && z.added == y.added && z.recorded == y.recorded
  {
    ControlIsNoData("");
    hide IsData, Tracked;
    assert fates[1..][1..][1..] == fates[3..];
    assert [] + [""] + [HEADER] + [DEBUG_LINE] == ["", HEADER, DEBUG_LINE];
  }

  /** The tracker identifies the client. */
  lemma Identified(y: System)
    requires y.isOpen && y.me.recv == [] && y.down == [] && !y.downCut
    ensures Enabled(y, TrackerSays("IDENTIFIED"))
    ensures var x := Apply(y, TrackerSays("IDENTIFIED"));
      Enabled(x, Read(1)) && Apply(x, Read(1)) == y.(me := y.me.(identified := true), greeted := true)
  {
    hide IsData, Tracked;
    assert "IDENTIFIED"[0] != "OK"[0];
    var x := Apply(y, TrackerSays("IDENTIFIED"));
    assert x.down == ["IDENTIFIED"] && x.down[..1] == ["IDENTIFIED"] && x.down[1..] == [];
    IdentifiedIs(y.me);
  }

  lemma IdentifiedIs(me: Sender)
    requires me.recv == []
    ensures me.(recv := ["IDENTIFIED"]).ReplyAll() == me.(identified := true)
  {
    assert ["IDENTIFIED"][1..] == [];
    var one := me.(recv := ["IDENTIFIED"]).(recv := ["IDENTIFIED"][1..]).Reply("IDENTIFIED");
    assert one == me.(identified := true);
    assert me.(recv := ["IDENTIFIED"]).ReplyAll() == one.ReplyAll();
  }

  function Fates(n: nat): (fates: seq<bool>)
    ensures |fates| == n && AllTrue(fates)
  {
    seq(n, _ => true)
  }

  lemma NothingReceived(steps: seq<Step>)
    ensures Exec(steps).me.recv == []
  {
    hide Inv;
    RunKeepsInv(steps);
  }

  /** A new connection, on which the tracker has identified the client. */
  lemma Afresh(steps: seq<Step>) returns (all: seq<Step>)
    ensures steps <= all && Exec(all).me.hand.None? && Exec(all).added == Exec(steps).added
    ensures Exec(all).me.acked == Exec(steps).me.acked
    ensures Ready(Exec(all), 2 * |Exec(all).me.queue|) && Exec(all).me.sent == []
  {
    hide IsData, Exec, Apply, Ready;
    var first := HandEmptied(steps);
    var y := Exec(first);
    NothingReceived(first);
    var n := |y.me.sent| + |y.me.queue|;
    var fates := Fates(3 + 2 * n);
    Reconnected(y, fates);
    ExecSnoc(first, LoseConnection);
    ExecSnoc(first + [LoseConnection], Reconnect(true, fates));
    var second := first + [LoseConnection] + [Reconnect(true, fates)];
    Identified(Exec(second));
    ExecSnoc(second, TrackerSays("IDENTIFIED"));
    ExecSnoc(second + [TrackerSays("IDENTIFIED")], Read(1));
    var third := second + [TrackerSays("IDENTIFIED")] + [Read(1)];
    ControlIsNoData("");
    assert NoData(Exec(third).me.socket.up);
    all := Drain(third);
    IsReady(Exec(all), fates[3..], 2 * n);
  }

  lemma IsReady(y: System, fates: seq<bool>, n: nat)
    requires y.isOpen && y.me.connected && y.me.identified && y.me.hand.None? && y.me.sent == [] && y.me.recv == []
    requires y.me.socket == Socket([], false, fates) && AllTrue(fates) && |fates| == n && y.down == [] && !y.downCut
    ensures Ready(y, n)
  {
  }

  /** Progress: from every state that can be reached, a run can go on, with nothing queued any
      more, to where the tracker has acknowledged everything queued before, and recorded it. */
  lemma EverythingAcknowledged(steps: seq<Step>)
    ensures exists more :: && Exec(steps + more).me.acked == Exec(steps).added
                           && Exec(steps + more).added == Exec(steps).added
                           && High(Exec(steps + more).order) == |Exec(steps).added|
  {
    var anew := Afresh(steps);
    RunKeepsInv(anew);
    hide IsData, Exec, Apply, Ready;
    QueueIsData(Exec(anew));
    var all := AllAcross(anew);
    RunKeepsInv(all);
    EndToEnd(all);
    var more := all[|steps|..];
    assert steps + more == all;
  }

  lemma QueueIsData(y: System)
    requires Inv(y) && y.me.hand.None? && y.me.sent == []
    ensures AllData(y.me.queue) && y.added == y.me.acked + y.me.queue
  {
    hide IsData, InFlight, Recorded, StaleInv, Bounded;
    assert y.added == y.me.acked + y.me.queue;
  }

  /** `n` messages sent and not acknowledged yet. */
  lemma {:induction false} SendMany(steps: seq<Step>, n: nat) returns (all: seq<Step>)
    requires Ready(Exec(steps), 2 * n) && AllData(Exec(steps).me.queue) && n <= |Exec(steps).me.queue| && n <= WINDOW
    ensures steps <= all && Exec(all).me.sent == Exec(steps).me.queue[..n] && Exec(all).me.queue == Exec(steps).me.queue[n..]
    ensures Exec(all) == Exec(steps).(me := Exec(all).me)
    ensures var z := Exec(all).me;
      && z.connected && z.identified && z.hand.None? && !z.socket.cut
      && z.socket.fates == Exec(steps).me.socket.fates[2 * n..]
  {
    hide IsData, Exec, Apply;
    all := steps;
    if n > 0 {
      var queue, fates := Exec(steps).me.queue, Exec(steps).me.socket.fates;
      var before := SendMany(steps, n - 1);
      var y := Exec(before);
      assert queue[n - 1] in queue;
      assert MaySend(y);
      Written(y);
      ExecSnoc(before, Take);
      ExecSnoc(before + [Take], WriteHand);
      all := before + [Take] + [WriteHand];
      assert queue[..n] == queue[..n - 1] + [queue[n - 1]] && queue[n - 1..][1..] == queue[n..];
      assert fates[2 * (n - 1)..][2..] == fates[2 * n..];
    }
  }

  /** And it makes full use of the window: where at least as many messages are waiting, a run
      can go on to where that many are sent and not acknowledged. */
  lemma WindowIsUsed(steps: seq<Step>)
    requires |Exec(steps).added| - |Exec(steps).me.acked| >= 25
    ensures exists more :: |Exec(steps + more).me.sent| == 25 && Exec(steps + more).added == Exec(steps).added
  {
    var anew := Afresh(steps);
    RunKeepsInv(anew);
    hide IsData, Exec, Apply;
    QueueIsData(Exec(anew));
    var all := SendMany(anew, WINDOW);
    var more := all[|steps|..];
    assert steps + more == all;
  }

  // ---------------------------------------------------------------------
  // Answers

  /** The tracker says one thing on an idle connection, and the client reads it. */
  lemma SaidAndRead(y: System, str: string)
    requires y.isOpen && y.me.recv == [] && y.down == [] && !y.downCut && str != "OK"
    ensures Enabled(y, TrackerSays(str))
    ensures var x := Apply(y, TrackerSays(str));
      Enabled(x, Read(1)) && Apply(x, Read(1)).me == y.me.(recv := []).Reply(str)
  {
    hide Sender.Reply;
    var x := Apply(y, TrackerSays(str));
    assert x.down == [str] && x.down[..1] == [str] && x.down[1..] == [] && [str][1..] == [];
    ReplyKeepsRecv(y.me.(recv := []), str);
    var me := y.me.(recv := [str]);
    assert me.(recv := me.recv[1..]) == y.me.(recv := []);
    assert me.ReplyAll() == me.(recv := me.recv[1..]).Reply(me.recv[0]).ReplyAll();
  }

  /** A PING is answered by PONG, and what is not understood by an error message, on the
      connection it came on; PONG and error messages are not answered. */
  lemma TrackerIsAnswered(y: System, str: string)
    requires y.isOpen && y.me.recv == [] && y.down == [] && !y.downCut && str != "OK"
    requires !y.me.socket.cut && |y.me.socket.fates| >= 1 && y.me.socket.fates[0]
    ensures Enabled(y, TrackerSays(str))
    ensures var x := Apply(y, TrackerSays(str));
      && Enabled(x, Read(1))
      && var up, up' := y.me.socket.up, Apply(x, Read(1)).me.socket.up;
         if str == "PING" then up + ["PONG"] <= up'
         else if str == "PONG" || "ERROR" <= str || "IDENTIFIED" <= str then up' == up
         else up + ["ERROR Unrecognized message \"" + str + "\""] <= up'
  {
    hide IsData, Tracked;
    SaidAndRead(y, str);
    assert "PING"[0] == 'P' && "PONG"[0] == 'P' && "ERROR"[0] == 'E' && "IDENTIFIED"[0] == 'I';
    hide Sender.ReplyAll;
  }

  // ---------------------------------------------------------------------
  // Nothing before the tracker has identified the client

  /** Whether the tracker has done so on this connection is what the client goes by. */
  predicate Greeting(y: System)
  {
    && (y.me.identified ==> y.greeted)
    && (forall f :: f in y.down && "IDENTIFIED" <= f ==> y.greeted)
    && (!y.greeted ==> y.me.sent == [] && y.me.hand.None? && Data(y.me.socket.up) == [])
    && (forall j :: 0 <= j < |y.via| && y.via[j] == |y.stale| ==> y.greeted)
  }

  lemma ReplyGreets(me: Sender, str: string)
    ensures var s := me.Reply(str);
      && (s.identified ==> me.identified || "IDENTIFIED" <= str)
      && Data(s.socket.up) == Data(me.socket.up) && s.hand == me.hand && (me.sent == [] ==> s.sent == [])
  {
    ControlIsNoData(str);
    hide IsData, Tracked, Data, Sender.Write;
    ControlWrite(me, "PONG");
    ControlWrite(me, "ERROR Unrecognized message \"" + str + "\"");
    WriteIdentifies(me, "PONG");
    WriteIdentifies(me, "ERROR Unrecognized message \"" + str + "\"");
  }

  lemma WriteIdentifies(me: Sender, str: string)
    ensures me.Write(str).0.identified == me.identified
  {
  }

  lemma {:induction false} RepliesGreet(me: Sender)
    ensures var s := me.ReplyAll();
      && (s.identified ==> me.identified || exists f :: f in me.recv && "IDENTIFIED" <= f)
      && Data(s.socket.up) == Data(me.socket.up) && s.hand == me.hand && (me.sent == [] ==> s.sent == [])
    decreases |me.recv|
  {
    hide Sender.Reply, Data;
    if me.recv != [] {
      var rest := me.(recv := me.recv[1..]);
      ReplyGreets(rest, me.recv[0]);
      ReplyKeepsRecv(rest, me.recv[0]);
      RepliesGreet(rest.Reply(me.recv[0]));
      assert me.recv[0] in me.recv && forall f :: f in me.recv[1..] ==> f in me.recv;
    }
  }

  lemma ReadGreets(y: System, n: nat)
    requires Greeting(y) && y.me.recv == [] && Enabled(y, Read(n))
    ensures Greeting(Apply(y, Read(n)))
  {
    hide Data, Sender.ReplyAll;
    RepliesGreet(y.me.(recv := y.down[..n]));
    assert forall f :: f in y.down[..n] || f in y.down[n..] ==> f in y.down;
  }

  lemma WritingGreets(y: System, me: Sender)
    requires Greeting(y) && me.identified == y.me.identified && (y.greeted || SameFlow(y.me, me))
    ensures Greeting(y.(me := me))
  {
    hide Data;
  }

  lemma NewConnectionGreets(y: System, success: bool, fates: seq<bool>)
    requires Greeting(y) && ConnectionInv(y) && y.me.hand.None?
    ensures Greeting(ApplyReconnect(y, success, fates))
  {
    FreshConnection(y.me, success, fates);
    hide Data;
    ReconnectIdentifies(y.me, success, fates);
  }

  lemma ReconnectIdentifies(me: Sender, success: bool, fates: seq<bool>)
    ensures !me.Reconnect(success, fates).identified
  {
    hide Tracked;
  }

  lemma ViaBelow(y: System)
    requires ConnectionInv(y)
    ensures |y.via| == |y.order| && forall j :: 0 <= j < |y.via| ==> y.via[j] <= |y.stale|
  {
    hide Data;
  }

  lemma StepGreets(y: System, step: Step)
    requires Greeting(y) && ConnectionInv(y) && y.me.recv == [] && Enabled(y, step)
    ensures Greeting(Apply(y, step))
  {
    hide IsData, Tracked, Data, Sender.Write, Sender.ReplyAll, Sender.Reconnect, ConnectionInv;
    match step
    case Read(n) => ReadGreets(y, n);
    case WriteHand =>
      WriteIdentifies(y.me, y.me.hand.value);
      WritingGreets(y, y.me.WriteHand());
    case SendPing =>
      ControlIsNoData("");
      ControlWrite(y.me, "PING");
      WriteIdentifies(y.me, "PING");
      WritingGreets(y, y.me.Write("PING").0);
    case Reconnect(success, fates) => NewConnectionGreets(y, success, fates);
    case TrackerTakes => DataHead(y.me.socket.up);
    case CutUp(keep) => DataTake(y.me.socket.up, keep);
    case CutDown(keep) => assert forall f :: f in y.down[..keep] ==> f in y.down;
    case StaleArrives(i) => ViaBelow(y);
    case _ =>
  }

  /** On no connection is anything sent, or recorded, before the tracker has identified the
      client on it. */
  lemma {:induction false} NothingBeforeGreeting(steps: seq<Step>)
    ensures var y := Exec(steps);
      && Greeting(y) && |y.via| == |y.order|
      && (!y.greeted ==> y.me.sent == [] && y.me.hand.None? && Data(y.me.socket.up) == []
                         && On(y.order, y.via, |y.stale|) == [])
  {
    hide Enabled, Apply, Greeting, ConnectionInv, Inv, Data, On;
    RunKeepsConnections(steps);
    if steps == [] {
      StartGreets();
    } else {
      var before, step := steps[..|steps| - 1], steps[|steps| - 1];
      NothingBeforeGreeting(before);
      RunKeepsConnections(before);
      RunKeepsInv(before);
      if Enabled(Exec(before), step) {
        StepGreets(Exec(before), step);
      }
    }
    NotGreeted(Exec(steps));
  }

  lemma StartGreets()
    ensures Greeting(INITIAL)
  {
  }

  lemma NotGreeted(y: System)
    requires Greeting(y) && ConnectionInv(y)
    ensures |y.via| == |y.order|
    ensures !y.greeted ==>
      y.me.sent == [] && y.me.hand.None? && Data(y.me.socket.up) == [] && On(y.order, y.via, |y.stale|) == []
  {
    hide Data;
    if !y.greeted {
      NothingOn(y.order, y.via, |y.stale|);
    }
  }
}
