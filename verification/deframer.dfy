/** The receive side of the tracker connection: a byte stream, read in
    arbitrary pieces into a fixed buffer, is cut into NUL-terminated messages.
    Free buffer space is filled with the byte 0x17, and a 0x17 at the start of
    the buffer is taken to mean that nothing is left in it. */
module Deframer {

  type Byte = b: int | 0 <= b < 256

  const NUL: Byte := 0
  const FILLER: Byte := 0x17

  /** Position of the first NUL, or the length if there is none. */
  function FirstNul(s: seq<Byte>): (n: nat)
    ensures n <= |s|
    ensures n < |s| ==> s[n] == NUL
    ensures forall i :: 0 <= i < n ==> s[i] != NUL
  {
    if s == [] || s[0] == NUL then 0 else 1 + FirstNul(s[1..])
  }

  /** The complete messages of a stream, and what follows the last of them. */
  function Frames(s: seq<Byte>): seq<seq<Byte>>
    decreases |s|
  {
    var n := FirstNul(s);
    if n == |s| then [] else [s[..n]] + Frames(s[n + 1..])
  }

  function Tail(s: seq<Byte>): seq<Byte>
    decreases |s|
  {
    var n := FirstNul(s);
    if n == |s| then s else Tail(s[n + 1..])
  }

  lemma FramesStep(s: seq<Byte>)
    ensures FirstNul(s) == |s| ==> Frames(s) == [] && Tail(s) == s
    ensures FirstNul(s) < |s| ==>
              var rest := s[FirstNul(s) + 1..];
              Frames(s) == [s[..FirstNul(s)]] + Frames(rest) && Tail(s) == Tail(rest)
  {
    hide FirstNul;
  }

  predicate StartsWithFiller(s: seq<Byte>)
  {
    s != [] && s[0] == FILLER
  }

  /** No message and no unfinished message begins with the filler byte. */
  predicate Clean(s: seq<Byte>)
  {
    (forall m :: m in Frames(s) ==> !StartsWithFiller(m)) && !StartsWithFiller(Tail(s))
  }

  /** What one read makes of the bytes in the buffer: the messages it passes on
      and the bytes it keeps. */
  function Drain(c: seq<Byte>): (seq<seq<Byte>>, seq<Byte>)
    decreases |c|
  {
    var n := FirstNul(c);
    if c == [] || c[0] == FILLER then ([], [])
    else if n == |c| then ([], c)
    else
      var (msgs, rest) := Drain(c[n + 1..]);
      ([c[..n]] + msgs, rest)
  }

  lemma DrainStep(c: seq<Byte>)
    ensures c == [] || c[0] == FILLER ==> Drain(c) == ([], [])
    ensures c != [] && c[0] != FILLER && FirstNul(c) == |c| ==> Drain(c) == ([], c)
    ensures c != [] && c[0] != FILLER && FirstNul(c) < |c| ==>
              var n := FirstNul(c);
              Drain(c) == ([c[..n]] + Drain(c[n + 1..]).0, Drain(c[n + 1..]).1)
  {
  }

  datatype RecvResult = Received(data: seq<Byte>) | NoData | Failed

  class Reader {
    const buf: array<Byte>
    var curlen: nat
    var msgRecvQueue: seq<seq<Byte>>
    var connected: bool
    var lostConnections: nat
    var pktsRcvd: nat
    var bytesRcvd: nat

    constructor (maxlen: nat)
      requires maxlen > 0
      ensures Valid() && fresh(buf) && buf.Length == maxlen
      ensures Contents() == [] && msgRecvQueue == [] && connected
    {
      buf := new Byte[maxlen](_ => FILLER);
      curlen, msgRecvQueue, connected := 0, [], true;
      lostConnections, pktsRcvd, bytesRcvd := 0, 0, 0;
    }

    /** The last byte of the buffer is never used, and everything past the
        contents is filler. */
    ghost predicate Valid()
      reads this, buf
    {
      curlen < buf.Length && forall i :: curlen <= i < buf.Length ==> buf[i] == FILLER
    }

    ghost function Contents(): seq<Byte>
      reads this, buf
      requires curlen <= buf.Length
    {
      buf[..curlen]
    }

    method BuffsockFree()
      requires curlen < buf.Length
      modifies buf
      ensures Valid() && Contents() == old(Contents())
    {
      forall i | curlen <= i < buf.Length {
        buf[i] := FILLER;
      }
    }

    /** strchr, stopping at the end of the buffer. */
    method FindNul() returns (pos: nat)
      ensures pos <= buf.Length
      ensures pos < buf.Length ==> buf[pos] == NUL
      ensures forall i :: 0 <= i < pos ==> buf[i] != NUL
    {
      pos := 0;
      while pos < buf.Length && buf[pos] != NUL
        invariant pos <= buf.Length
        invariant forall i :: 0 <= i < pos ==> buf[i] != NUL
      {
        pos := pos + 1;
      }
    }

    /** Takes the message that ends at `nul` out of the buffer. */
    method TakeMessage(nul: nat)
      requires Valid() && nul < curlen && nul == FirstNul(Contents())
      modifies this`curlen, this`msgRecvQueue, this`pktsRcvd, buf
      ensures Valid()
      ensures Contents() == old(Contents())[nul + 1..]
      ensures msgRecvQueue == old(msgRecvQueue) + [old(Contents())[..nul]]
      ensures pktsRcvd == old(pktsRcvd) + 1
    {
      var pos := nul + 1;
      var res := buf[..nul];
      assert res == Contents()[..nul];
      curlen := curlen - pos;
      forall i | 0 <= i < buf.Length - pos {
        buf[i] := buf[i + pos];
      }
      assert forall i :: 0 <= i < curlen ==> buf[i] == old(Contents())[pos..][i];
      assert Contents() == old(Contents())[pos..];
      msgRecvQueue := msgRecvQueue + [res];
      BuffsockFree();
      pktsRcvd := pktsRcvd + 1;
    }

    method TrackerRead(r: RecvResult)
      requires Valid()
      requires r.Received? ==> 0 < |r.data| <= buf.Length - curlen - 1
      modifies this, buf
      ensures Valid()
      ensures !r.Received? ==>
                && Contents() == old(Contents()) && msgRecvQueue == old(msgRecvQueue)
                && connected == (old(connected) && r == NoData)
                && lostConnections == old(lostConnections) + if r == Failed then 1 else 0
      ensures r.Received? ==>
                var (msgs, rest) := Drain(old(Contents()) + r.data);
                && msgRecvQueue == old(msgRecvQueue) + msgs
                && Contents() == rest
                && connected == old(connected)
                && pktsRcvd == old(pktsRcvd) + |msgs|
                && bytesRcvd == old(bytesRcvd) + |r.data|
    {
      if !r.Received? {
        if r == Failed {
          connected := false;
          lostConnections := lostConnections + 1;
        }
        return;
      }
      Store(r.data);
      Deframe();
      bytesRcvd := bytesRcvd + |r.data|;
    }

    /** What recv does to the buffer. */
    method Store(data: seq<Byte>)
      requires Valid() && |data| <= buf.Length - curlen - 1
      modifies this`curlen, buf
      ensures Valid() && Contents() == old(Contents()) + data
    {
      forall i | 0 <= i < |data| {
        buf[curlen + i] := data[i];
      }
      curlen := curlen + |data|;
    }

    method Deframe()
      requires Valid()
      modifies this`curlen, this`msgRecvQueue, this`pktsRcvd, buf
      ensures Valid()
      ensures var (msgs, rest) := Drain(old(Contents()));
              && msgRecvQueue == old(msgRecvQueue) + msgs
              && Contents() == rest
              && pktsRcvd == old(pktsRcvd) + |msgs|
    {
      hide Drain, FirstNul;
      ghost var all, queue, done := Contents(), msgRecvQueue, [];
      while true
        invariant Valid()
        invariant msgRecvQueue == queue + done && pktsRcvd == old(pktsRcvd) + |done|
        invariant Drain(all).0 == done + Drain(Contents()).0
        invariant Drain(all).1 == Drain(Contents()).1
        decreases curlen
      {
        ghost var c := Contents();
        DrainStep(c);
        if buf[0] == FILLER {
          assert curlen == 0 || c[0] == FILLER;
          curlen := 0;
          BuffsockFree();
          DrainStep(Contents());
          break;
        }
        assert curlen > 0 && c[0] == buf[0];
        var nul := FindNul();
        FirstNulBounded(nul);
        if nul == buf.Length {
          break;
        }
        TakeMessage(nul);
        assert done + ([c[..nul]] + Drain(c[nul + 1..]).0) == (done + [c[..nul]]) + Drain(c[nul + 1..]).0;
        done := done + [c[..nul]];
      }
    }

    /** The free space holds no NUL, so the search finds exactly the first NUL
        of the contents. */
    lemma FirstNulBounded(pos: nat)
      requires Valid()
      requires pos <= buf.Length && (pos < buf.Length ==> buf[pos] == NUL)
      requires forall i :: 0 <= i < pos ==> buf[i] != NUL
      ensures pos < buf.Length ==> pos < curlen && pos == FirstNul(Contents())
      ensures pos == buf.Length ==> FirstNul(Contents()) == curlen
    {
      var n := FirstNul(Contents());
      if n < curlen {
        assert buf[n] == NUL;
      }
    }
  }

  // ---------------------------------------------------------------------
  // Deframing does not depend on how the stream is cut

  /** All reads of a connection, oldest first. */
  function ReadAll(chunks: seq<seq<Byte>>): (seq<seq<Byte>>, seq<Byte>)
  {
    if chunks == [] then ([], [])
    else
      var (msgs, rest) := ReadAll(chunks[..|chunks| - 1]);
      var (more, rest') := Drain(rest + chunks[|chunks| - 1]);
      (msgs + more, rest')
  }

  function Join(chunks: seq<seq<Byte>>): seq<Byte>
  {
    if chunks == [] then [] else Join(chunks[..|chunks| - 1]) + chunks[|chunks| - 1]
  }

  lemma {:induction false} FirstNulAppend(a: seq<Byte>, b: seq<Byte>)
    ensures FirstNul(a) < |a| ==> FirstNul(a + b) == FirstNul(a)
  {
    var n, m := FirstNul(a), FirstNul(a + b);
    if n < |a| {
      assert (a + b)[n] == NUL;
      assert forall i :: 0 <= i < n ==> (a + b)[i] == a[i];
    }
  }

  /** Cutting a stream in two: the messages and the tail are those of the first
      part, followed by those of its tail with the second part. */
  lemma {:induction false} FramesAppend(a: seq<Byte>, b: seq<Byte>)
    ensures Frames(a + b) == Frames(a) + Frames(Tail(a) + b)
    ensures Tail(a + b) == Tail(Tail(a) + b)
    decreases |a|
  {
    hide Frames, Tail, FirstNul;
    var n := FirstNul(a);
    FramesStep(a);
    if n < |a| {
      FirstNulAppend(a, b);
      FramesStep(a + b);
      assert (a + b)[..n] == a[..n];
      assert (a + b)[n + 1..] == a[n + 1..] + b;
      FramesAppend(a[n + 1..], b);
    }
  }

  /** A first message or tail keeps its first byte when more bytes follow. */
  lemma {:induction false} FirstByteStays(t: seq<Byte>, b: seq<Byte>)
    requires StartsWithFiller(t) && FirstNul(t) == |t|
    ensures !Clean(t + b)
  {
    var s := t + b;
    var n := FirstNul(s);
    assert n > 0;
    if n < |s| {
      assert StartsWithFiller(s[..n]) && s[..n] in Frames(s);
    }
  }

  lemma {:induction false} TailHasNoNul(s: seq<Byte>)
    ensures FirstNul(Tail(s)) == |Tail(s)|
    decreases |s|
  {
    var n := FirstNul(s);
    if n < |s| {
      TailHasNoNul(s[n + 1..]);
    }
  }

  lemma CleanPrefix(a: seq<Byte>, b: seq<Byte>)
    requires Clean(a + b)
    ensures Clean(a) && Clean(Tail(a) + b)
  {
    FramesAppend(a, b);
    TailHasNoNul(a);
    if StartsWithFiller(Tail(a)) {
      FirstByteStays(Tail(a), b);
    }
  }

  lemma {:induction false} DrainClean(c: seq<Byte>)
    requires Clean(c)
    ensures Drain(c) == (Frames(c), Tail(c))
    decreases |c|
  {
    var n := FirstNul(c);
    if c != [] && n < |c| {
      assert c[..n] in Frames(c);
      assert n > 0 ==> c[..n][0] == c[0];
      DrainClean(c[n + 1..]);
    }
  }

  lemma {:induction false} DrainNeverFiller(c: seq<Byte>)
    ensures forall m :: m in Drain(c).0 ==> !StartsWithFiller(m)
    ensures !StartsWithFiller(Drain(c).1)
    decreases |c|
  {
    var n := FirstNul(c);
    if c != [] && c[0] != FILLER && n < |c| {
      DrainNeverFiller(c[n + 1..]);
    }
  }

  lemma {:induction false} ReadAllNeverFiller(chunks: seq<seq<Byte>>)
    ensures forall m :: m in ReadAll(chunks).0 ==> !StartsWithFiller(m)
    ensures !StartsWithFiller(ReadAll(chunks).1)
  {
    if chunks != [] {
      var (msgs, rest) := ReadAll(chunks[..|chunks| - 1]);
      ReadAllNeverFiller(chunks[..|chunks| - 1]);
      DrainNeverFiller(rest + chunks[|chunks| - 1]);
    }
  }

  lemma {:induction false} ReadAllClean(chunks: seq<seq<Byte>>)
    requires Clean(Join(chunks))
    ensures ReadAll(chunks) == (Frames(Join(chunks)), Tail(Join(chunks)))
  {
    if chunks != [] {
      var front, last := chunks[..|chunks| - 1], chunks[|chunks| - 1];
      CleanPrefix(Join(front), last);
      ReadAllClean(front);
      FramesAppend(Join(front), last);
      DrainClean(Tail(Join(front)) + last);
    }
  }

  /** However a stream is cut into reads, the messages passed on are its
      messages and the buffer holds its unfinished tail, exactly if neither a
      message nor the tail begins with the filler byte. */
  lemma DeframingIgnoresChunks(chunks: seq<seq<Byte>>)
    ensures ReadAll(chunks) == (Frames(Join(chunks)), Tail(Join(chunks))) <==> Clean(Join(chunks))
  {
    if Clean(Join(chunks)) {
      ReadAllClean(chunks);
    }
    ReadAllNeverFiller(chunks);
  }

  // ---------------------------------------------------------------------
  // Room in the buffer

  predicate IsSuffix(r: seq<Byte>, t: seq<Byte>)
  {
    |r| <= |t| && t[|t| - |r|..] == r
  }

  /** All messages and the unfinished one are shorter than `bound`. */
  predicate AllShorter(s: seq<Byte>, bound: int)
  {
    (forall m :: m in Frames(s) ==> |m| < bound) && |Tail(s)| < bound
  }

  lemma {:induction false} DrainKeepsSuffix(c: seq<Byte>)
    ensures Drain(c).1 == [] || Drain(c).1 == Tail(c)
    decreases |c|
  {
    var n := FirstNul(c);
    if c != [] && c[0] != FILLER && n < |c| {
      DrainKeepsSuffix(c[n + 1..]);
    }
  }

  lemma {:induction false} TailOfMore(q: seq<Byte>, x: seq<Byte>)
    ensures IsSuffix(Tail(x), Tail(q + x))
  {
    FramesAppend(q, x);
    TailHasNoNul(q);
    TailOfOpen(Tail(q), x);
  }

  lemma TailOfOpen(q: seq<Byte>, x: seq<Byte>)
    requires FirstNul(q) == |q|
    ensures IsSuffix(Tail(x), Tail(q + x))
  {
    var n, m := FirstNul(x), FirstNul(q + x);
    assert forall i :: 0 <= i < |q| ==> (q + x)[i] == q[i] != NUL;
    assert m < |q + x| ==> x[m - |q|] == NUL;
    assert n < |x| ==> (q + x)[|q| + n] == NUL;
    assert m == |q| + n;
    if n < |x| {
      assert (q + x)[m + 1..] == x[n + 1..];
    }
  }

  /** Whatever the stream, the buffer holds no more than its unfinished message. */
  lemma {:induction false} KeptIsUnfinished(chunks: seq<seq<Byte>>)
    ensures IsSuffix(ReadAll(chunks).1, Tail(Join(chunks)))
  {
    if chunks != [] {
      var front, last := chunks[..|chunks| - 1], chunks[|chunks| - 1];
      KeptIsUnfinished(front);
      var rest, open := ReadAll(front).1, Tail(Join(front));
      DrainKeepsSuffix(rest + last);
      FramesAppend(Join(front), last);
      var q := open[..|open| - |rest|];
      assert open + last == q + (rest + last);
      TailOfMore(q, rest + last);
    }
  }

  /** An unfinished message becomes a message or stays unfinished. */
  lemma UnfinishedIsShorter(a: seq<Byte>, b: seq<Byte>, bound: int)
    requires AllShorter(a + b, bound)
    ensures |Tail(a)| < bound
  {
    FramesAppend(a, b);
    TailHasNoNul(a);
    var s := Tail(a) + b;
    var n := FirstNul(s);
    assert forall i :: 0 <= i < |Tail(a)| ==> s[i] == Tail(a)[i] != NUL;
    FramesStep(s);
    hide Frames, Tail;
    if n < |s| {
      assert s[..n] in Frames(s);
    }
  }

  lemma {:induction false} JoinAppend(a: seq<seq<Byte>>, b: seq<seq<Byte>>)
    ensures Join(a + b) == Join(a) + Join(b)
  {
    if b == [] {
      assert a + b == a;
    } else {
      assert (a + b)[..|a + b| - 1] == a + b[..|b| - 1];
      JoinAppend(a, b[..|b| - 1]);
    }
  }

  /** With messages shorter than the buffer less two bytes, every read finds room in the
      buffer, so that none of them asks for nothing and takes the connection for lost. */
  lemma ReadsFindRoom(chunks: seq<seq<Byte>>, k: nat, maxlen: nat)
    requires k <= |chunks| && AllShorter(Join(chunks), maxlen - 1)
    ensures maxlen - |ReadAll(chunks[..k]).1| - 1 > 0
  {
    assert chunks == chunks[..k] + chunks[k..];
    JoinAppend(chunks[..k], chunks[k..]);
    KeptIsUnfinished(chunks[..k]);
    UnfinishedIsShorter(Join(chunks[..k]), Join(chunks[k..]), maxlen - 1);
  }

  lemma NoNulTail(s: seq<Byte>, n: nat)
    requires n <= |s| && n <= FirstNul(s)
    ensures Tail(s[..n]) == s[..n]
    ensures n == FirstNul(s) < |s| ==> Tail(s[..n + 1]) == []
  {
    assert FirstNul(s[..n]) == n;
    FramesStep(s[..n]);
    if n == FirstNul(s) < |s| {
      var t := s[..n + 1];
      assert t[n] == NUL && forall i :: 0 <= i < n ==> t[i] != NUL;
      assert t[n + 1..] == [];
      FramesStep(t);
    }
  }

  /** Just before its NUL, a message is what is unfinished. */
  lemma {:induction false} FrameIsTail(s: seq<Byte>, m: seq<Byte>) returns (k: nat)
    requires m in Frames(s)
    ensures k <= |s| && Tail(s[..k]) == m
    decreases |s|
  {
    hide Frames, Tail, FirstNul;
    var n := FirstNul(s);
    FramesStep(s);
    if n < |s| {
      if m == s[..n] {
        k := n;
        NoNulTail(s, n);
      } else {
        var rest := FrameIsTail(s[n + 1..], m);
        k := n + 1 + rest;
        NoNulTail(s, n);
        FramesAppend(s[..n + 1], s[n + 1..][..rest]);
        assert s[..k] == s[..n + 1] + s[n + 1..][..rest];
        assert [] + s[n + 1..][..rest] == s[n + 1..][..rest];
      }
    }
  }

  /** Reads that brought something, and no more than the buffer had room for. */
  predicate Fits(chunks: seq<seq<Byte>>, maxlen: nat)
  {
    forall i :: 0 <= i < |chunks| ==> 0 < |chunks[i]| <= maxlen - |ReadAll(chunks[..i]).1| - 1
  }

  ghost predicate AlwaysRoom(s: seq<Byte>, maxlen: nat)
  {
    forall chunks :: Fits(chunks, maxlen) && Join(chunks) <= s ==> maxlen - |ReadAll(chunks).1| - 1 > 0
  }

  lemma FitsSnoc(chunks: seq<seq<Byte>>, last: seq<Byte>, maxlen: nat)
    requires Fits(chunks, maxlen) && 0 < |last| <= maxlen - |ReadAll(chunks).1| - 1
    ensures Fits(chunks + [last], maxlen) && Join(chunks + [last]) == Join(chunks) + last
  {
    var more := chunks + [last];
    assert more[..|chunks|] == chunks;
    hide ReadAll;
    forall i | 0 <= i < |more|
      ensures 0 < |more[i]| <= maxlen - |ReadAll(more[..i]).1| - 1
    {
      assert i < |chunks| ==> more[..i] == chunks[..i];
    }
  }

  lemma NothingRead(maxlen: nat)
    ensures Fits([], maxlen) && Join([]) == []
  {
  }

  lemma HasRoom(s: seq<Byte>, chunks: seq<seq<Byte>>, maxlen: nat)
    requires AlwaysRoom(s, maxlen) && Fits(chunks, maxlen) && Join(chunks) <= s
    ensures maxlen - |ReadAll(chunks).1| - 1 > 0
  {
    hide ReadAll, Join, Fits;
  }

  lemma {:induction false} ByteByByte(s: seq<Byte>, k: nat, maxlen: nat) returns (chunks: seq<seq<Byte>>)
    requires k <= |s| && AlwaysRoom(s, maxlen)
    ensures Fits(chunks, maxlen) && Join(chunks) == s[..k]
  {
    hide ReadAll, Join, Fits, AlwaysRoom;
    if k == 0 {
      NothingRead(maxlen);
      chunks := [];
    } else {
      var before := ByteByByte(s, k - 1, maxlen);
      HasRoom(s, before, maxlen);
      FitsSnoc(before, [s[k - 1]], maxlen);
      assert s[..k] == s[..k - 1] + [s[k - 1]];
      chunks := before + [[s[k - 1]]];
    }
  }

  lemma CleanTail(s: seq<Byte>, k: nat, chunks: seq<seq<Byte>>)
    requires Clean(s) && k <= |s| && Join(chunks) == s[..k]
    ensures ReadAll(chunks).1 == Tail(s[..k])
  {
    assert s == s[..k] + s[k..];
    CleanPrefix(s[..k], s[k..]);
    ReadAllClean(chunks);
  }

  /** And no longer messages would do: with a clean stream there is always room, however
      it comes, exactly when its messages are that short. */
  lemma RoomIff(s: seq<Byte>, maxlen: nat)
    requires Clean(s)
    ensures AlwaysRoom(s, maxlen) <==> AllShorter(s, maxlen - 1)
  {
    hide ReadAll, Fits, Join, Clean, Tail, Frames;
    if AllShorter(s, maxlen - 1) {
      forall chunks | Fits(chunks, maxlen) && Join(chunks) <= s
        ensures maxlen - |ReadAll(chunks).1| - 1 > 0
      {
        var k := |Join(chunks)|;
        assert s == s[..k] + s[k..];
        CleanTail(s, k, chunks);
        UnfinishedIsShorter(s[..k], s[k..], maxlen - 1);
      }
    }
    if AlwaysRoom(s, maxlen) {
      forall m | m in Frames(s)
        ensures |m| < maxlen - 1
      {
        var k := FrameIsTail(s, m);
        ShortPrefix(s, k, maxlen);
      }
      assert s[..|s|] == s;
      ShortPrefix(s, |s|, maxlen);
    }
  }

  lemma ShortPrefix(s: seq<Byte>, k: nat, maxlen: nat)
    requires Clean(s) && k <= |s| && AlwaysRoom(s, maxlen)
    ensures |Tail(s[..k])| < maxlen - 1
  {
    hide ReadAll, Fits, Join, Clean, Tail;
    var chunks := ByteByByte(s, k, maxlen);
    CleanTail(s, k, chunks);
  }

  /** The messages followed by NULs, and then the tail, are the stream. */
  lemma {:induction false} FramesRoundTrip(s: seq<Byte>)
    ensures Unframe(Frames(s)) + Tail(s) == s
    decreases |s|
  {
    hide Frames, Tail, FirstNul;
    var n := FirstNul(s);
    FramesStep(s);
    if n < |s| {
      var rest := s[n + 1..];
      FramesRoundTrip(rest);
      assert ([s[..n]] + Frames(rest))[1..] == Frames(rest);
      assert s == s[..n] + [NUL] + rest;
    }
  }

  function Unframe(msgs: seq<seq<Byte>>): seq<Byte>
  {
    if msgs == [] then [] else msgs[0] + [NUL] + Unframe(msgs[1..])
  }

  // ---------------------------------------------------------------------
  // Messages of text

  predicate IsText(m: seq<Byte>)
  {
    forall i :: 0 <= i < |m| ==> 32 <= m[i] < 127
  }

  predicate AllText(msgs: seq<seq<Byte>>)
  {
    forall i :: 0 <= i < |msgs| ==> IsText(msgs[i])
  }

  lemma {:induction false} UnframedAgain(msgs: seq<seq<Byte>>)
    requires AllText(msgs)
    ensures Frames(Unframe(msgs)) == msgs && Tail(Unframe(msgs)) == []
  {
    hide Frames, Tail, FirstNul;
    var s := Unframe(msgs);
    FramesStep(s);
    if msgs == [] {
      assert FirstNul(s) == 0;
    } else {
      var m, rest := msgs[0], Unframe(msgs[1..]);
      assert IsText(m);
      assert s[|m|] == NUL && forall i :: 0 <= i < |m| ==> s[i] == m[i] != NUL;
      assert FirstNul(s) == |m|;
      assert s[..|m|] == m && s[|m| + 1..] == rest;
      UnframedAgain(msgs[1..]);
    }
  }

  lemma TextIsClean(msgs: seq<seq<Byte>>)
    requires AllText(msgs)
    ensures Clean(Unframe(msgs))
  {
    UnframedAgain(msgs);
    forall m | m in msgs
      ensures !StartsWithFiller(m)
    {
      var i :| 0 <= i < |msgs| && msgs[i] == m;
      assert IsText(msgs[i]);
    }
  }

  /** What begins with the byte 0x17 is lost. */
  lemma FillerDrops(s: seq<Byte>)
    ensures ReadAll([[0x17] + s]) == ([], [])
  {
    hide Drain, FirstNul;
    var c: seq<Byte> := [0x17] + s;
    DrainStep(c);
    assert [c][..0] == [];
    assert [] + [c][0] == c;
    assert ReadAll([c]).0 == [] && ReadAll([c]).1 == [];
  }

  /** Messages of printable characters, like those of the tracker, are all passed on, in
      order, and nothing is left, however the stream is cut into reads. */
  lemma TextArrives(msgs: seq<seq<Byte>>, chunks: seq<seq<Byte>>)
    requires AllText(msgs) && Join(chunks) == Unframe(msgs)
    ensures ReadAll(chunks) == (msgs, [])
  {
    TextIsClean(msgs);
    UnframedAgain(msgs);
    ReadAllClean(chunks);
  }
}
