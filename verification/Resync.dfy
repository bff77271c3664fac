/**
  The receive window of one connection over any sequence of packets: in order, out of order, and after a
  restart, when the first packet that is out of order is taken as the new beginning.
 */
module Resync {
  import opened Words
  import opened Sums
  import opened FlowControl

  /** Requests and responses are numbered apart. */
  predicate OfKind(p: Packet, k: Queue) {
    if k.Requests? then p.typ.Req? || p.typ.OneWayReq? else p.typ.Rsp? || p.typ.OneWayRsp?
  }

  function Expected(n: Numbers, k: Queue): U16 { if k.Requests? then n.reqExpSn else n.rspExpSn }

  function Acked(n: Numbers, k: Queue): U16 { if k.Requests? then n.reqAckSn else n.rspAckSn }

  function Other(k: Queue): Queue { if k.Requests? then Responses else Requests }

  /** Nothing but the window changes: not what is owed, queued or used for sending. */
  predicate OnlyWindow(e: Endpoint, e': Endpoint) {
    && e'.lim == e.lim && e'.lists == e.lists && e'.cr.msgs == e.cr.msgs && e'.cr.bytes == e.cr.bytes
    && e'.num.reqSn == e.num.reqSn && e'.num.rspSn == e.num.rspSn
  }

  /** The credits of `w` have been added, if flow control is on. */
  predicate Credited(e: Endpoint, e': Endpoint, w: seq<Packet>) {
    if e.lim.flowControl
    then
      && e'.cr.peerMsgs == (e.cr.peerMsgs + Total(MsgsOn, w)) % TWO16
      && e'.cr.peerBytes == (e.cr.peerBytes + Total(BytesOn, w)) % TWO64
    else e'.cr.peerMsgs == e.cr.peerMsgs && e'.cr.peerBytes == e.cr.peerBytes
  }

  function MsgsOn(p: Packet): nat { p.creditsMsgs }

  function BytesOn(p: Packet): nat { p.creditsBytes }

  /** One packet: in order it moves the window and its credits count; out of order it counts for nothing,
      except that right after a restart the window goes to behind it. */
  predicate Window(e: Endpoint, e': Endpoint, p: Packet, k: Queue) {
    && OnlyWindow(e, e')
    && Expected(e'.num, Other(k)) == Expected(e.num, Other(k)) && Acked(e'.num, Other(k)) == Acked(e.num, Other(k))
    && (if p.sn == Expected(e.num, k)
        then Expected(e'.num, k) == (p.sn + 1) % TWO16 && Acked(e'.num, k) == p.sn && Credited(e, e', [p]) && !e'.restarted
        else if e.restarted
        then Expected(e'.num, k) == (p.sn + 1) % TWO16 && Acked(e'.num, k) == Acked(e.num, k) && Credited(e, e', []) && !e'.restarted
        else e' == e)
  }

  lemma RequestWindow(e: Endpoint, p: Packet)
    ensures Window(e, OnReqRecv(e, p), p, Requests)
  {
    OnlyOne(p);
    hide Total;
  }

  lemma ResponseWindow(e: Endpoint, p: Packet)
    ensures Window(e, OnRspRecv(e, p), p, Responses)
  {
    OnlyOne(p);
    hide Total;
  }

  lemma OneReceived(e: Endpoint, p: Packet, k: Queue)
    requires OfKind(p, k)
    ensures Window(e, OnPacket(e, p), p, k)
  {
    hide Window, OnReqRecv, OnRspRecv;
    RequestWindow(e, p);
    ResponseWindow(e, p);
  }

  lemma OnlyOne(p: Packet)
    ensures Total(MsgsOn, [p]) == p.creditsMsgs && Total(BytesOn, [p]) == p.creditsBytes
    ensures Total(MsgsOn, []) == 0 && Total(BytesOn, []) == 0
  {
    TotalOne(MsgsOn, p);
    TotalOne(BytesOn, p);
  }

  lemma NoTotal()
    ensures Total(MsgsOn, []) == 0 && Total(BytesOn, []) == 0
  {
  }

  /** A credits ack: its own message credit is given back in any case, the rest only if it is in order. It
      does not end a restart. */
  predicate AckWindow(e: Endpoint, e': Endpoint, p: Packet) {
    var inOrder := p.sn == e.num.reqExpSn;
    if !e.lim.flowControl then e' == e
    else
      && e'.lim == e.lim && e'.lists == e.lists && e'.restarted == e.restarted && e'.cr.bytes == e.cr.bytes
      && e'.cr.msgs == (e.cr.msgs + 1) % TWO16
      && e'.num == (if inOrder then e.num.(reqExpSn := (p.sn + 1) % TWO16, reqAckSn := p.sn) else e.num)
      && e'.cr.peerMsgs == (e.cr.peerMsgs + if inOrder then p.creditsMsgs else 0) % TWO16
      && e'.cr.peerBytes == (e.cr.peerBytes + if inOrder then p.creditsBytes else 0) % TWO64
  }

  lemma AckReceived(e: Endpoint, p: Packet)
    ensures AckWindow(e, OnAckRecv(e, p), p)
  {
  }

  // ----- sequences of packets --------------------------------------------------------------------

  function ReceivedAll(e: Endpoint, w: seq<Packet>): Endpoint
    decreases w
  {
    if w == [] then e else ReceivedAll(OnPacket(e, w[0]), w[1..])
  }

  /** The i-th number after `sn`. */
  function Nth(sn: U16, i: nat): U16 { (sn + i) % TWO16 }

  lemma NthNth(sn: U16, i: nat, j: nat)
    ensures Nth(Nth(sn, i), j) == Nth(sn, i + j) && Nth(sn, 0) == sn
  {
  }

  /** Packets of one kind, numbered on from `sn`. */
  predicate Stream(w: seq<Packet>, k: Queue, sn: U16) {
    forall i :: 0 <= i < |w| ==> OfKind(w[i], k) && w[i].sn == Nth(sn, i)
  }

  lemma StreamFrom(w: seq<Packet>, k: Queue, sn: U16, j: nat)
    requires Stream(w, k, sn) && j <= |w|
    ensures Stream(w[j..], k, Nth(sn, j))
    ensures j < |w| ==> OfKind(w[j], k) && w[j].sn == Nth(sn, j)
  {
    hide Nth;
    forall i | 0 <= i < |w[j..]| ensures OfKind(w[j..][i], k) && w[j..][i].sn == Nth(Nth(sn, j), i) {
      assert w[j..][i] == w[j + i];
      NthNth(sn, j, i);
    }
  }

  lemma CreditedMore(e: Endpoint, e1: Endpoint, e2: Endpoint, p: Packet, w: seq<Packet>)
    requires e1.lim == e.lim && Credited(e, e1, [p]) && Credited(e1, e2, w)
    ensures Credited(e, e2, [p] + w)
  {
    TotalOne(MsgsOn, p);
    TotalOne(BytesOn, p);
    TotalConcat(MsgsOn, [p], w);
    TotalConcat(BytesOn, [p], w);
    hide Total;
  }

  lemma CreditedAfterNone(e: Endpoint, e1: Endpoint, e2: Endpoint, w: seq<Packet>)
    requires e1.lim == e.lim && Credited(e, e1, []) && Credited(e1, e2, w)
    ensures Credited(e, e2, w)
  {
    NoTotal();
    hide Total;
  }

  /** The window stands where the stream `w` from `sn` ends, and its credits are in. */
  predicate InStep(e: Endpoint, e': Endpoint, w: seq<Packet>, k: Queue, sn: U16) {
    && OnlyWindow(e, e') && Credited(e, e', w)
    && Expected(e'.num, k) == Nth(sn, |w|)
    && Acked(e'.num, k) == if w == [] then Acked(e.num, k) else w[|w| - 1].sn
  }

  lemma NothingReceived(e: Endpoint, k: Queue)
    ensures InStep(e, e, [], k, Expected(e.num, k))
  {
    NoTotal();
  }

  /** A stream from the expected number on is taken in full. */
  lemma {:induction false} InOrder(e: Endpoint, w: seq<Packet>, k: Queue)
    requires Stream(w, k, Expected(e.num, k))
    ensures InStep(e, ReceivedAll(e, w), w, k, Expected(e.num, k))
    decreases w
  {
    hide OnPacket, Credited, Nth, Stream;
    if w == [] {
      NothingReceived(e, k);
    } else {
      var sn := Expected(e.num, k);
      var e1 := OnPacket(e, w[0]);
      StreamFrom(w, k, sn, 0);
      StreamFrom(w, k, sn, 1);
      NthNth(sn, 0, 0);
      NextIs(e, w[0], k);
      InOrder(e1, w[1..], k);
      assert w == [w[0]] + w[1..];
      CreditedMore(e, e1, ReceivedAll(e1, w[1..]), w[0], w[1..]);
      NthNth(sn, 1, |w| - 1);
    }
  }

  /** The expected packet. */
  lemma NextIs(e: Endpoint, p: Packet, k: Queue)
    requires OfKind(p, k) && p.sn == Expected(e.num, k)
    ensures var e' := OnPacket(e, p);
      && OnlyWindow(e, e') && Credited(e, e', [p]) && Expected(e'.num, k) == Nth(p.sn, 1) && Acked(e'.num, k) == p.sn
  {
    hide OnPacket, Credited;
    OneReceived(e, p, k);
  }

  /** After a restart the connection takes up any stream, wherever it starts: from the second packet on
      everything is in order and every credit counts. Of the first, if it is not the expected one, the
      number counts and the credits do not. */
  lemma Resynchronises(e: Endpoint, w: seq<Packet>, k: Queue, sn: U16)
    requires e.restarted && Stream(w, k, sn) && w != [] && sn != Expected(e.num, k)
    ensures var e' := ReceivedAll(e, w);
      && OnlyWindow(e, e') && Credited(e, e', w[1..]) && Expected(e'.num, k) == (sn + |w|) % TWO16
      && Acked(e'.num, k) == (if |w| == 1 then Acked(e.num, k) else w[|w| - 1].sn)
  {
    hide OnPacket, Credited, Stream;
    var e1 := OnPacket(e, w[0]);
    StreamFrom(w, k, sn, 0);
    StreamFrom(w, k, sn, 1);
    OneReceived(e, w[0], k);
    InOrder(e1, w[1..], k);
    CreditedAfterNone(e, e1, ReceivedAll(e1, w[1..]), w[1..]);
    NthNth(sn, 1, |w| - 1);
  }

  /** Without a restart, packets that never carry the expected number change nothing. */
  lemma {:induction false} OutOfStep(e: Endpoint, w: seq<Packet>, k: Queue)
    requires !e.restarted && forall i :: 0 <= i < |w| ==> OfKind(w[i], k) && w[i].sn != Expected(e.num, k)
    ensures ReceivedAll(e, w) == e
    decreases w
  {
    if w != [] {
      OneReceived(e, w[0], k);
      OutOfStep(e, w[1..], k);
    }
  }

  /** The stream from `sn` comes to the number `x` within `n` packets, or right behind them. */
  predicate Reaches(sn: U16, n: nat, x: U16) { exists i :: 0 <= i <= n && Nth(sn, i) == x }

  /** A window that waits for the number `Expected` takes up a stream if and only if the stream comes to it. */
  lemma TakenUpIff(e: Endpoint, w: seq<Packet>, k: Queue, sn: U16)
    requires !e.restarted && Stream(w, k, sn)
    ensures Expected(ReceivedAll(e, w).num, k) == Nth(sn, |w|) <==> Reaches(sn, |w|, Expected(e.num, k))
  {
    hide OnPacket, Nth;
    var x := Expected(e.num, k);
    if exists i :: 0 <= i < |w| && Nth(sn, i) == x {
      var i :| 0 <= i < |w| && Nth(sn, i) == x;
      TakenUp(e, w, k, sn, i);
    } else {
      OutOfStep(e, w, k);
    }
  }

  lemma BeforeHit(w: seq<Packet>, k: Queue, sn: U16, j: nat)
    requires Stream(w, k, sn) && j <= |w|
    ensures forall i :: 0 <= i < |w[..j]| ==> OfKind(w[..j][i], k)
  {
  }

  lemma TakenUp(e: Endpoint, w: seq<Packet>, k: Queue, sn: U16, i: nat)
    requires !e.restarted && Stream(w, k, sn) && i < |w| && Nth(sn, i) == Expected(e.num, k)
    ensures Expected(ReceivedAll(e, w).num, k) == Nth(sn, |w|)
  {
    hide OnPacket, Nth, ReceivedAll, Stream, OfKind;
    StreamFrom(w, k, sn, i);
    var j := FirstHit(w, Expected(e.num, k), i);
    var x, y := w[..j], w[j..];
    assert w == x + y;
    BeforeHit(w, k, sn, j);
    OutOfStep(e, x, k);
    ReceivedConcat(e, x, y);
    StreamFrom(w, k, sn, j);
    InOrder(e, y, k);
    NthNth(sn, j, |w| - j);
  }

  /** The restart flag is shared by requests and responses: a packet of the other kind uses it up. A stream
      that follows is then taken up if and only if it comes to the number that was expected before. */
  lemma OtherKindFirst(e: Endpoint, p: Packet, w: seq<Packet>, k: Queue, sn: U16)
    requires e.restarted && OfKind(p, Other(k)) && Stream(w, k, sn)
    ensures var e' := ReceivedAll(OnPacket(e, p), w);
      Expected(e'.num, k) == Nth(sn, |w|) <==> Reaches(sn, |w|, Expected(e.num, k))
  {
    hide OnPacket, Nth, Reaches;
    OneReceived(e, p, Other(k));
    TakenUpIff(OnPacket(e, p), w, k, sn);
  }

  lemma FirstHit(w: seq<Packet>, x: U16, i: nat) returns (j: nat)
    requires i < |w| && w[i].sn == x
    ensures j <= i && w[j].sn == x && forall n :: 0 <= n < j ==> w[n].sn != x
  {
    j := 0;
    while w[j].sn != x
      invariant j <= i && forall n :: 0 <= n < j ==> w[n].sn != x
      decreases i - j
    {
      j := j + 1;
    }
  }

  lemma {:induction false} ReceivedConcat(e: Endpoint, x: seq<Packet>, y: seq<Packet>)
    ensures ReceivedAll(e, x + y) == ReceivedAll(ReceivedAll(e, x), y)
    decreases x
  {
    hide OnPacket;
    if x == [] {
      assert x + y == y;
    } else {
      assert (x + y)[0] == x[0] && (x + y)[1..] == x[1..] + y;
      ReceivedConcat(OnPacket(e, x[0]), x[1..], y);
    }
  }
}
