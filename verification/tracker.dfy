/** The tracker client of one server: a send queue, a queue of sent but
    unacknowledged messages, and the replies of the tracker. */
module TrackerClient {
  import opened Wrappers

  const PROTOCOL_VERSION := "20151207"
  const WINDOW := 25

  /** Stands for the statistics line written after every message. */
  const DEBUG_LINE := "DEBUG last_msg.size="

  /** `needle` occurs in `s` at position 1 and not at position 0. */
  predicate FirstFoundAtOne(s: string, needle: string)
  {
    |s| > 0 && needle <= s[1..] && !(needle <= s)
  }

  /** Stands for the version header, the first message on a connection. */
  const HEADER := "V" + PROTOCOL_VERSION + " "

  /** Whether a written message is kept until the tracker acknowledges it. */
  predicate Tracked(str: string)
  {
    !FirstFoundAtOne(str, PROTOCOL_VERSION) && !("ERROR" <= str) && str != "PING" && str != "PONG"
  }

  /** The messages the server queues for the tracker. */
  predicate IsData(str: string)
  {
    "CONNECT " <= str || "DISCONNECT " <= str || "POSITION " <= str
  }

  lemma DataIsTracked(str: string)
    requires IsData(str)
    ensures Tracked(str)
  {
    assert str[0] in ['C', 'D', 'P'] && str[1] in ['O', 'I'];
    assert str[1..][0] == str[1] && PROTOCOL_VERSION[0] == '2';
    assert "CONNECT "[3] == 'N' && "POSITION "[2] == 'S';
    assert str != "PING" && str != "PONG" by {
      assert "PING"[1] == 'I' && "PONG"[2] == 'N';
    }
    assert "ERROR"[0] == 'E';
  }

  /** The connection as the client sees it: the frames on their way to the
      tracker, whether the way is cut (frames still leave but do not arrive),
      and whether each of the coming writes will succeed. */
  datatype Socket = Socket(up: seq<string>, cut: bool, fates: seq<bool>)
  {
    function Put(str: string): (Socket, bool)
    {
      if fates == [] then (this, false)
      else if !fates[0] then (this.(fates := fates[1..]), false)
      else (this.(up := if cut then up else up + [str], fates := fates[1..]), true)
    }
  }

  /** `hand` is the message the sender thread holds between taking it from the
      queue and writing it; `acked` is the history of acknowledged messages. */
  datatype Sender = Sender(
    queue: seq<string>,
    sent: seq<string>,
    recv: seq<string>,
    connected: bool,
    identified: bool,
    socket: Socket,
    hand: Option<string>,
    acked: seq<string>)
  {
    function AddMessage(m: string): Sender
    {
      this.(queue := queue + [m])
    }

    function ReQueue(): Sender
    {
      this.(queue := sent + queue, sent := [])
    }

    function Write(str: string): (Sender, bool)
    {
      var (k, ok) := socket.Put(str);
      if !ok then (this.(socket := k, connected := false), false)
      else (this.(socket := k.Put(DEBUG_LINE).0, sent := if Tracked(str) then sent + [str] else sent), true)
    }

    predicate MayTake()
    {
      hand.None? && queue != [] && connected && identified && |sent| < WINDOW
    }

    function Take(): Sender
      requires MayTake()
    {
      this.(hand := Some(queue[0]), queue := queue[1..])
    }

    function WriteHand(): Sender
      requires hand.Some?
    {
      var (s, ok) := Write(hand.value);
      if ok then s.(hand := None) else s.(hand := None, queue := [hand.value] + s.queue)
    }

    /** The head of the sender loop when it is not connected: requeue and try to
        open a connection. A new connection starts with a lone NUL and the
        version header; that writing the header failed does not keep the client
        from being connected. */
    function Reconnect(success: bool, fates: seq<bool>): Sender
    {
      var me := ReQueue().(identified := false);
      if !success then me.(connected := false, socket := Socket([], false, []))
      else me.(socket := Socket([], false, fates).Put("").0).Write(HEADER).0.(connected := true)
    }

    /** One message from the tracker. */
    function Reply(str: string): Sender
    {
      if "IDENTIFIED" <= str then this.(identified := true)
      else if str == "OK" then
        if sent == [] then this else this.(acked := acked + [sent[0]], sent := sent[1..])
      else if str == "PING" then Write("PONG").0
      else if str == "PONG" || "ERROR" <= str then this
      else Write("ERROR Unrecognized message \"" + str + "\"").0
    }

    function ReplyAll(): (s: Sender)
      ensures s.recv == []
      decreases |recv|
    {
      if recv == [] then this
      else this.(recv := recv[1..]).Reply(recv[0]).ReplyAll()
    }
  }

  /** FG_TRACKER. A method stands for one lock-protected piece of work of the
      sender thread (or, for AddMessage, of the server thread). */
  class FgTracker {
    var msgQueue: seq<string>
    var msgSentQueue: seq<string>
    var msgRecvQueue: seq<string>
    var connected: bool
    var identified: bool
    var socket: Socket
    ghost var hand: Option<string>
    ghost var acked: seq<string>

    constructor ()
      ensures View() == Sender([], [], [], false, false, Socket([], false, []), None, [])
    {
      msgQueue, msgSentQueue, msgRecvQueue := [], [], [];
      connected, identified := false, false;
      socket := Socket([], false, []);
      hand, acked := None, [];
    }

    ghost function View(): Sender
      reads this
    {
      Sender(msgQueue, msgSentQueue, msgRecvQueue, connected, identified, socket, hand, acked)
    }

    method AddMessage(message: string)
      modifies this
      ensures View() == old(View()).AddMessage(message)
    {
      msgQueue := msgQueue + [message];
    }

    method ReQueueSentMsg()
      modifies this
      ensures View() == old(View()).ReQueue()
    {
      ghost var s := View();
      while msgSentQueue != []
        invariant View() == s.(queue := msgQueue, sent := msgSentQueue)
        invariant msgSentQueue + msgQueue == s.sent + s.queue
        decreases |msgSentQueue|
      {
        var last := |msgSentQueue| - 1;
        assert msgSentQueue == msgSentQueue[..last] + [msgSentQueue[last]];
        msgQueue := [msgSentQueue[last]] + msgQueue;
        msgSentQueue := msgSentQueue[..last];
      }
    }

    method TrackerWrite(str: string) returns (ok: bool)
      modifies this
      ensures (View(), ok) == old(View()).Write(str)
    {
      var (k, written) := socket.Put(str);
      socket := k;
      if !written {
        connected := false;
        return false;
      }
      if FirstFoundAtOne(str, PROTOCOL_VERSION) {
      } else if "ERROR" <= str {
      } else if str == "PING" {
      } else if str == "PONG" {
      } else {
        msgSentQueue := msgSentQueue + [str];
      }
      socket := socket.Put(DEBUG_LINE).0;
      return true;
    }

    method TakeFront() returns (msg: string)
      requires View().MayTake()
      modifies this
      ensures View() == old(View()).Take() && hand == Some(msg)
    {
      msg := msgQueue[0];
      msgQueue := msgQueue[1..];
      hand := Some(msg);
    }

    method WriteTaken(msg: string)
      requires hand == Some(msg)
      modifies this
      ensures View() == old(View()).WriteHand()
    {
      var ok := TrackerWrite(msg);
      if !ok {
        msgQueue := [msg] + msgQueue;
      }
      hand := None;
    }

    method Reconnect(success: bool, fates: seq<bool>)
      requires !connected
      modifies this
      ensures View() == old(View()).Reconnect(success, fates)
    {
      ReQueueSentMsg();
      identified := false;
      socket := Socket([], false, []);
      if success {
        socket := Socket([], false, fates).Put("").0;
        var _ := TrackerWrite(HEADER);
      }
      connected := success;
    }

    method ReplyFromServer()
      modifies this
      ensures View() == old(View()).ReplyAll()
    {
      while msgRecvQueue != []
        invariant View().ReplyAll() == old(View()).ReplyAll()
        decreases |msgRecvQueue|
      {
        var str := msgRecvQueue[0];
        msgRecvQueue := msgRecvQueue[1..];
        if "IDENTIFIED" <= str {
          identified := true;
        } else if str == "OK" {
          if msgSentQueue != [] {
            acked := acked + [msgSentQueue[0]];
            msgSentQueue := msgSentQueue[1..];
          }
        } else if str == "PING" {
          var _ := TrackerWrite("PONG");
        } else if str == "PONG" {
        } else if "ERROR" <= str {
        } else {
          var _ := TrackerWrite("ERROR Unrecognized message \"" + str + "\"");
        }
      }
    }
  }
}
