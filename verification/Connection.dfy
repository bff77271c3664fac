/**
  The connection record, changed in place by its handlers. `View` is its value as an `Endpoint`;
  each method is proved to do to that value what the functions of `FlowControl`, `Transmit` and
  `QueueOrder` say.
 */
module ConnectionObject {
  import opened Words
  import opened Sums
  import opened FlowControl
  import opened Transmit
  import opened XmitLoop
  import OwedCredits
  import QueueOrder
  import Reconnect
  import Resync

  /** The connection as `xio_connection_restart` leaves it before it transmits. */
  function Restarted(e: Endpoint): Endpoint {
    e.(lists := QueueOrder.Flush(e.lists).(rsps := []), restarted := true)
  }

  function AlwaysAccept(i: nat): Verdict { Accept }

  /** A request that `tx_queued_msgs` and `tx_bytes` count. */
  predicate IsCounted(m: Msg) { m.typ.Req? || m.typ.OneWayReq? }

  function MsgBytes(m: Msg): nat { m.bytes }

  lemma UncountNext(ms: seq<Msg>, i: nat, b: U64)
    requires i < |ms|
    ensures var k, k' := Keep(IsCounted, ms[..i]), Keep(IsCounted, ms[..i + 1]);
      && |k'| == |k| + (if IsCounted(ms[i]) then 1 else 0)
      && (b - Total(MsgBytes, k')) % TWO64
         == (if IsCounted(ms[i]) then Sub64((b - Total(MsgBytes, k)) % TWO64, ms[i].bytes)
             else (b - Total(MsgBytes, k)) % TWO64)
  {
    assert ms[..i + 1] == ms[..i] + [ms[i]];
    KeepAppend(IsCounted, ms[..i], ms[i]);
    TotalAppend(MsgBytes, Keep(IsCounted, ms[..i]), ms[i]);
  }

  lemma PacketsAt(c: Call, n: nat, w0: seq<Packet>)
    ensures Script(c, n + 1) == Script(c, n) + [AttemptAt(c, n)]
    ensures w0 + PacketsOf(c.e, Script(c, n + 1))
            == (w0 + PacketsOf(c.e, Script(c, n))) + PacketsOfOne(After(c, n), AttemptAt(c, n))
  {
    AfterIsXmitMany(c, n);
    XmitManyAppend(c.e, Script(c, n), AttemptAt(c, n));
    hide PacketsOf, XmitMany, PacketsOfOne;
    assert w0 + (PacketsOf(c.e, Script(c, n)) + PacketsOfOne(After(c, n), AttemptAt(c, n)))
           == (w0 + PacketsOf(c.e, Script(c, n))) + PacketsOfOne(After(c, n), AttemptAt(c, n));
  }

  lemma AcceptedOutcome(c: Call, n: nat)
    requires (forall i :: c.answer(i).Accept?) && Stops(c, n)
    ensures AllAccepted(Script(c, n)) && Stuck(XmitMany(c.e, Script(c, n)), Requests)
            && Stuck(XmitMany(c.e, Script(c, n)), Responses)
  {
    hide Stops, Stuck, XmitMany, After;
    StopsStuck(c, n);
    AfterIsXmitMany(c, n);
    forall i | 0 <= i < n ensures Script(c, n)[i].v.Accept? { ScriptAt(c, n, i); }
  }

  class Connection {
    var enableFlowControl: bool
    var reqSn: U16
    var reqExpSn: U16
    var reqAckSn: U16
    var rspSn: U16
    var rspExpSn: U16
    var rspAckSn: U16
    var creditsMsgs: U16
    var peerCreditsMsgs: U16
    var creditsBytes: U64
    var peerCreditsBytes: U64
    var peerDepthBytes: U64
    var watermarkMsgs: U16
    var watermarkBytes: U64
    var restarted: bool
    var sendReqToggle: bool          // true: responses go first
    var reqsMsgq: seq<Msg>
    var rspsMsgq: seq<Msg>
    var inFlightReqs: seq<Msg>
    var inFlightRsps: seq<Msg>
    var latestDelivered: U64
    var txQueuedMsgs: int
    var txBytes: U64
    var isFlushed: bool
    var wire: seq<Packet>            // what the nexus has accepted so far

    function NumbersView(): Numbers
      reads this`reqSn, this`reqExpSn, this`reqAckSn, this`rspSn, this`rspExpSn, this`rspAckSn
    {
      Numbers(reqSn, reqExpSn, reqAckSn, rspSn, rspExpSn, rspAckSn)
    }

    function CreditsView(): Credits
      reads this`creditsMsgs, this`creditsBytes, this`peerCreditsMsgs, this`peerCreditsBytes
    {
      Credits(creditsMsgs, creditsBytes, peerCreditsMsgs, peerCreditsBytes)
    }

    function LimitsView(): Limits
      reads this`enableFlowControl, this`peerDepthBytes, this`watermarkMsgs, this`watermarkBytes
    {
      Limits(enableFlowControl, peerDepthBytes, watermarkMsgs, watermarkBytes)
    }

    function ListsView(): Lists
      reads this`reqsMsgq, this`rspsMsgq, this`inFlightReqs, this`inFlightRsps
    {
      Lists(reqsMsgq, rspsMsgq, inFlightReqs, inFlightRsps)
    }

    function View(): Endpoint
      reads this`reqSn, this`reqExpSn, this`reqAckSn, this`rspSn, this`rspExpSn, this`rspAckSn,
            this`creditsMsgs, this`creditsBytes, this`peerCreditsMsgs, this`peerCreditsBytes,
            this`enableFlowControl, this`peerDepthBytes, this`watermarkMsgs, this`watermarkBytes,
            this`reqsMsgq, this`rspsMsgq, this`inFlightReqs, this`inFlightRsps, this`restarted
    {
      Endpoint(NumbersView(), CreditsView(), LimitsView(), ListsView(), restarted)
    }

    method Number(m: Msg) returns (sn: U16, ackSn: U16)
      requires IsNumbered(m.typ)
      modifies this`reqSn, this`rspSn
      ensures NumbersView() == NumberOne(old(NumbersView()), m.typ)
      ensures sn == if IsRequest(m.typ) then old(reqSn) else old(rspSn)
      ensures ackSn == if IsRequest(m.typ) then reqAckSn else rspAckSn
    {
      if IsRequest(m.typ) {
        sn, ackSn, reqSn := reqSn, reqAckSn, Inc16(reqSn);
      } else {
        sn, ackSn, rspSn := rspSn, rspAckSn, Inc16(rspSn);
      }
    }

    /** Take the credits owed to the peer, to ride on the header, and pay for the message. */
    method Pay(m: Msg, txBytes: U64) returns (msgs: U16, bytes: U64)
      requires IsNumbered(m.typ) && txBytes == ChargeOf(m)
      modifies this`creditsMsgs, this`creditsBytes, this`peerCreditsMsgs, this`peerCreditsBytes
      ensures CreditsView() == ChargeOne(old(CreditsView()), m)
      ensures msgs == old(creditsMsgs) && bytes == old(creditsBytes)
    {
      msgs, bytes := creditsMsgs, creditsBytes;
      creditsMsgs, creditsBytes := 0, 0;
      if !Standalone(m) {
        peerCreditsMsgs := Dec16(peerCreditsMsgs);
        peerCreditsBytes := Sub64(peerCreditsBytes, txBytes);
      }
    }

    /** The numbering and charging block of `xio_connection_send`. */
    method Charge(m: Msg, txBytes: U64) returns (hdr: Packet)
      requires enableFlowControl ==> txBytes == ChargeOf(m)
      modifies this`reqSn, this`rspSn, this`creditsMsgs, this`creditsBytes, this`peerCreditsMsgs, this`peerCreditsBytes
      ensures View() == AfterSend(old(View()), m)
      ensures hdr == PacketFor(old(View()), m)
    {
      hide ChargeOf, ListsView;
      var sn: U16, ackSn: U16, msgs: U16, bytes: U64 := 0, 0, 0, 0;
      if IsNumbered(m.typ) {
        sn, ackSn := Number(m);
        if enableFlowControl {
          msgs, bytes := Pay(m, txBytes);
        }
      }
      hdr := Packet(m.typ, Standalone(m), m.sn, m.bytes, sn, ackSn, msgs, bytes);
    }

    /** The restoring block taken when the nexus refuses the message that was charged in state `e`. */
    method Restore(m: Msg, hdr: Packet, txBytes: U64, ghost e: Endpoint)
      requires View() == AfterSend(e, m) && hdr == PacketFor(e, m)
      requires enableFlowControl ==> txBytes == ChargeOf(m)
      modifies this`creditsMsgs, this`creditsBytes, this`peerCreditsMsgs, this`peerCreditsBytes
      ensures View() == AfterFailedSend(e, m)
    {
      if IsNumbered(m.typ) && enableFlowControl {
        creditsMsgs, creditsBytes := hdr.creditsMsgs, hdr.creditsBytes;
        if !Standalone(m) {
          peerCreditsMsgs := Inc16(peerCreditsMsgs);
          peerCreditsBytes := Add64(peerCreditsBytes, txBytes);
        }
      }
    }

    /** `xio_connection_send` */
    method Send(m: Msg, v: Verdict) returns (o: Outcome)
      modifies this`reqSn, this`rspSn, this`creditsMsgs, this`creditsBytes, this`peerCreditsMsgs, this`peerCreditsBytes,
               this`wire
      ensures o == SendOutcome(old(View()), m, v)
      ensures View() == AfterAttempt(old(View()), m, v)
      ensures wire == old(wire) + if o.Sent? then [o.p] else []
      ensures SendMeans(old(View()), View(), m, v, o)
    {
      hide SendMeans;
      SendMeaning(View(), m, v);
      var txBytes: U64 := 0;
      if IsApplication(m.typ) && enableFlowControl {
        if peerCreditsMsgs == 0 { return Again; }
        txBytes := m.bytes;
        if peerDepthBytes < txBytes { return PeerQueueMismatch; }
        if peerCreditsBytes < txBytes { return Again; }
      }
      ghost var e := View();
      var hdr := Charge(m, txBytes);
      if v.Accept? {
        wire := wire + [hdr];
        return Sent(hdr);
      }
      Restore(m, hdr, txBytes, e);
      return if v.Busy? then Again else if v.Notified? then NoMsg else Failed;
    }

    method SetQueue(q: Queue, ms: seq<Msg>)
      modifies this`reqsMsgq, this`rspsMsgq
      ensures ListsView() == SetQueued(old(ListsView()), q, ms)
    {
      if q.Requests? { reqsMsgq := ms; } else { rspsMsgq := ms; }
    }

    /** The head of `q` has been sent: off the queue, and onto the in-flight list if it is the application's. */
    method TakeHead(q: Queue)
      requires Queued(ListsView(), q) != []
      modifies this`reqsMsgq, this`rspsMsgq, this`inFlightReqs, this`inFlightRsps
      ensures ListsView() == MoveHead(old(ListsView()), q)
    {
      if q.Requests? {
        var msg := reqsMsgq[0];
        reqsMsgq := reqsMsgq[1..];
        if IsApplication(msg.typ) { inFlightReqs := inFlightReqs + [msg]; }
      } else {
        var msg := rspsMsgq[0];
        rspsMsgq := rspsMsgq[1..];
        if IsApplication(msg.typ) { inFlightRsps := inFlightRsps + [msg]; }
      }
    }

    /** What becomes of the lists once the head of `q` has been tried. */
    method Settle(q: Queue, o: Outcome)
      requires Queued(ListsView(), q) != []
      modifies this`reqsMsgq, this`rspsMsgq, this`inFlightReqs, this`inFlightRsps
      ensures ListsView() == ListsAfter(old(ListsView()), q, o)
    {
      var ms := if q.Requests? then reqsMsgq else rspsMsgq;
      match o
      case Sent(_) => TakeHead(q);
      case Again =>
      case PeerQueueMismatch => SetQueue(q, []);
      case NoMsg =>
        // the error event has already taken an application message off the queue
        if IsApplication(ms[0].typ) { SetQueue(q, ms[1..]); }
      case Failed => SetQueue(q, ms[1..]);
    }

    /** `xio_connection_xmit_inl` */
    method XmitInl(q: Queue, v: Verdict, retryCnt: nat) returns (rc: int, retries: nat)
      modifies this`reqSn, this`rspSn, this`creditsMsgs, this`creditsBytes, this`peerCreditsMsgs, this`peerCreditsBytes,
               this`wire, this`reqsMsgq, this`rspsMsgq, this`inFlightReqs, this`inFlightRsps
      ensures View() == XmitOne(old(View()), Attempt(q, v))
      ensures retries == RetryAfter(old(View()), Attempt(q, v), retryCnt)
      ensures rc < 0 <==> Fails(old(View()), Attempt(q, v))
      ensures wire == old(wire) + PacketsOfOne(old(View()), Attempt(q, v))
      ensures AttemptMeans(old(View()), View(), Attempt(q, v), retryCnt, retries, rc < 0)
    {
      hide AttemptMeans, SendMeans;
      AttemptMeaning(View(), Attempt(q, v), retryCnt);
      hide Refused, Oversized, AfterAttempt, ListsAfter, PacketFor, NumbersView, CreditsView, LimitsView;
      var ms := if q.Requests? then reqsMsgq else rspsMsgq;
      if ms == [] { return 0, retryCnt + 1; }
      var o := Send(ms[0], v);
      Settle(q, o);
      rc := if o.Sent? || o.NoMsg? then 0 else if o.Failed? then -1 else 1;
      retries := if o.Sent? || o.NoMsg? then 0 else if o.Failed? then retryCnt else retryCnt + 1;
    }

    /** What is known after `n` attempts of a call that began with `w0` on the wire. */
    ghost predicate Tried(c: Call, n: nat, w0: seq<Packet>, retryCnt: nat)
      reads this`reqSn, this`reqExpSn, this`reqAckSn, this`rspSn, this`rspExpSn, this`rspAckSn,
            this`creditsMsgs, this`creditsBytes, this`peerCreditsMsgs, this`peerCreditsBytes,
            this`enableFlowControl, this`peerDepthBytes, this`watermarkMsgs, this`watermarkBytes,
            this`reqsMsgq, this`rspsMsgq, this`inFlightReqs, this`inFlightRsps, this`restarted, this`wire
    {
      View() == After(c, n) && wire == w0 + PacketsOf(c.e, Script(c, n)) && retryCnt == Retry(c, n)
    }

    /** One `xio_connection_xmit_inl` call as the transmit loop sees it. */
    method TryQueue(q: Queue, v: Verdict, retryCnt: nat, ghost c: Call, ghost n: nat, ghost w0: seq<Packet>)
      returns (rc: int, retries: nat)
      requires Tried(c, n, w0, retryCnt) && AttemptAt(c, n) == Attempt(q, v)
      modifies this`reqSn, this`rspSn, this`creditsMsgs, this`creditsBytes, this`peerCreditsMsgs, this`peerCreditsBytes,
               this`wire, this`reqsMsgq, this`rspsMsgq, this`inFlightReqs, this`inFlightRsps
      ensures Tried(c, n + 1, w0, retries)
      ensures rc < 0 <==> FailsAt(c, n)
    {
      hide XmitOne, RetryAfter, Fails, PacketsOf, PacketsOfOne, XmitMany;
      PacketsAt(c, n, w0);
      rc, retries := XmitInl(q, v, retryCnt);
    }

    /** One turn of the loop: the second queue is tried unless the send from the first one failed. */
    method Round(answer: nat -> Verdict, retryCnt: nat, k: nat, ghost c: Call, ghost w0: seq<Packet>)
      returns (rc: int, retries: nat, tried: nat)
      requires k % 2 == 0 && Tried(c, k, w0, retryCnt) && retryCnt < 2 && (k > 0 ==> !FailsAt(c, k - 1))
      requires GoesPast(c, k) && sendReqToggle == c.rspFirst && answer == c.answer
      modifies this`reqSn, this`rspSn, this`creditsMsgs, this`creditsBytes, this`peerCreditsMsgs, this`peerCreditsBytes,
               this`wire, this`reqsMsgq, this`rspsMsgq, this`inFlightReqs, this`inFlightRsps, this`sendReqToggle
      ensures tried == k + 1 || tried == k + 2
      ensures Tried(c, tried, w0, retries) && GoesPast(c, tried) && (rc < 0 <==> FailsAt(c, tried - 1))
      ensures tried == k + 1 ==> rc < 0
      ensures sendReqToggle == ((tried == k + 1) != c.rspFirst)
    {
      hide After, Retry, FailsAt, Script, PacketsOf, GoesPast, Stops, View;
      var q1, q2 := if sendReqToggle then Responses else Requests, if sendReqToggle then Requests else Responses;
      GoesOn(c, k);
      rc, retries := TryQueue(q1, answer(k), retryCnt, c, k, w0);
      tried := k + 1;
      if rc < 0 {
        sendReqToggle := !sendReqToggle;
        return;
      }
      GoesOn(c, k + 1);
      rc, retries := TryQueue(q2, answer(k + 1), retries, c, k + 1, w0);
      tried := k + 2;
    }

    /** `xio_connection_xmit` against a transport that gives the i-th attempt the i-th answer, for every
        call that ends. `script` is what was tried: the attempts up to the first point where the loop
        stops. */
    method Xmit(answer: nat -> Verdict) returns (ok: bool, ghost script: seq<Attempt>)
      requires Ends(Call(View(), sendReqToggle, answer))
      modifies this`reqSn, this`rspSn, this`creditsMsgs, this`creditsBytes, this`peerCreditsMsgs, this`peerCreditsBytes,
               this`wire, this`reqsMsgq, this`rspsMsgq, this`inFlightReqs, this`inFlightRsps, this`sendReqToggle
      ensures var c := old(Call(View(), sendReqToggle, answer)); var n := |script|;
        && n > 0 && script == Script(c, n) && Stops(c, n) && GoesPast(c, n)
        && (ok <==> !FailsAt(c, n - 1))
        && sendReqToggle == (if !ok && n % 2 == 1 then !c.rspFirst else c.rspFirst)
      ensures View() == XmitMany(old(View()), script)
      ensures wire == old(wire) + PacketsOf(old(View()), script)
    {
      hide After, Retry, FailsAt, Script, XmitMany, PacketsOf, GoesPast, Stops, View;
      ghost var c, w0 := Call(View(), sendReqToggle, answer), wire;
      ghost var end: nat :| Stops(c, end);
      AtEntry(c);
      assert w0 + [] == w0;
      var retryCnt, k, rc := 0, 0, 0;
      while retryCnt < 2 && rc >= 0
        invariant k <= end && Tried(c, k, w0, retryCnt) && GoesPast(c, k)
        invariant if k == 0 then rc >= 0 && retryCnt == 0 else (rc < 0 <==> FailsAt(c, k - 1))
        invariant rc >= 0 ==> k % 2 == 0
        invariant sendReqToggle == if rc < 0 && k % 2 == 1 then !c.rspFirst else c.rspFirst
        decreases end - k
      {
        rc, retryCnt, k := Round(answer, retryCnt, k, c, w0);
        BeforeTheEnd(c, k, end);
      }
      LeftAt(c, k);
      AfterIsXmitMany(c, k);
      return rc >= 0, Script(c, k);
    }

    /** `xio_connection_xmit` on an accepting transport. */
    method XmitAll() returns (ghost script: seq<Attempt>)
      modifies this`reqSn, this`rspSn, this`creditsMsgs, this`creditsBytes, this`peerCreditsMsgs, this`peerCreditsBytes,
               this`wire, this`reqsMsgq, this`rspsMsgq, this`inFlightReqs, this`inFlightRsps, this`sendReqToggle
      ensures AllAccepted(script)
      ensures View() == XmitMany(old(View()), script)
      ensures wire == old(wire) + PacketsOf(old(View()), script)
      ensures Stuck(View(), Requests) && Stuck(View(), Responses)
    {
      ghost var c := Call(View(), sendReqToggle, AlwaysAccept);
      UnnotifiedEnds(c);
      hide Stops, Script, XmitMany, PacketsOf, Stuck;
      var _, s := Xmit(AlwaysAccept);
      script := s;
      AcceptedOutcome(c, |s|);
    }

    // ----- receiving and giving back -------------------------------------------------------------

    /** The credits riding on a header may now be spent. */
    method AddPeer(hdr: Packet)
      modifies this`peerCreditsMsgs, this`peerCreditsBytes
      ensures CreditsView() == AddPeerCredits(old(CreditsView()), hdr)
    {
      peerCreditsMsgs := Add16(peerCreditsMsgs, hdr.creditsMsgs);
      peerCreditsBytes := Add64(peerCreditsBytes, hdr.creditsBytes);
    }

    /** The window update of `xio_on_req_recv`. */
    method OnReqRecv(hdr: Packet)
      modifies this`reqExpSn, this`reqAckSn, this`peerCreditsMsgs, this`peerCreditsBytes, this`restarted
      ensures View() == FlowControl.OnReqRecv(old(View()), hdr)
      ensures Resync.Window(old(View()), View(), hdr, Requests)
    {
      hide AddPeerCredits, ListsView, CreditsView, Resync.Window;
      Resync.RequestWindow(View(), hdr);
      if reqExpSn == hdr.sn {
        reqExpSn := Inc16(reqExpSn);
        reqAckSn := hdr.sn;
        if enableFlowControl {
          AddPeer(hdr);
        }
        restarted := false;
      } else if restarted {
        reqExpSn := Inc16(hdr.sn);
        restarted := false;
      }
    }

    /** `xio_on_req_recv`: the window update, then delivery unless the message is a repeated one. */
    method ReceiveRequest(hdr: Packet, msg: Msg) returns (toApplication: bool)
      modifies this`reqExpSn, this`reqAckSn, this`peerCreditsMsgs, this`peerCreditsBytes, this`restarted,
               this`latestDelivered
      ensures View() == FlowControl.OnReqRecv(old(View()), hdr)
      ensures toApplication <==> Reconnect.IsNew(old(latestDelivered), msg)
      ensures latestDelivered == if toApplication then msg.sn else old(latestDelivered)
      ensures Resync.Window(old(View()), View(), hdr, Requests)
    {
      hide Resync.Window;
      OnReqRecv(hdr);
      toApplication := latestDelivered < msg.sn || latestDelivered == 0;
      if toApplication { latestDelivered := msg.sn; }
    }

    /** The window update of `xio_on_rsp_recv`. */
    method OnRspRecv(hdr: Packet)
      modifies this`rspExpSn, this`rspAckSn, this`peerCreditsMsgs, this`peerCreditsBytes, this`restarted
      ensures View() == FlowControl.OnRspRecv(old(View()), hdr)
      ensures Resync.Window(old(View()), View(), hdr, Responses)
    {
      hide AddPeerCredits, ListsView, CreditsView, Resync.Window;
      Resync.ResponseWindow(View(), hdr);
      if rspExpSn == hdr.sn {
        rspExpSn := Inc16(rspExpSn);
        rspAckSn := hdr.sn;
        restarted := false;
        if enableFlowControl {
          AddPeer(hdr);
        }
      } else if restarted {
        rspExpSn := Inc16(hdr.sn);
        restarted := false;
      }
    }

    /** `xio_on_credits_ack_recv` */
    method OnCreditsAckRecv(hdr: Packet)
      modifies this`reqExpSn, this`reqAckSn, this`peerCreditsMsgs, this`peerCreditsBytes, this`creditsMsgs
      ensures View() == OnAckRecv(old(View()), hdr)
      ensures Resync.AckWindow(old(View()), View(), hdr)
    {
      Resync.AckReceived(View(), hdr);
      hide Resync.AckWindow, AddPeerCredits, ListsView, CreditsView, GiveBackAck;
      if !enableFlowControl { return; }
      if reqExpSn == hdr.sn {
        reqExpSn := Inc16(reqExpSn);
        reqAckSn := hdr.sn;
        AddPeer(hdr);
      }
      CreditAck();
    }

    method CreditAck()
      modifies this`creditsMsgs
      ensures CreditsView() == GiveBackAck(old(CreditsView()))
    {
      creditsMsgs := Inc16(creditsMsgs);
    }

    /** `xio_send_response` for one response, on an online connection and an accepting transport. */
    method SendResponse(requestBytes: U64, rsp: Msg) returns (ghost script: seq<Attempt>)
      modifies this`reqSn, this`rspSn, this`creditsMsgs, this`creditsBytes, this`peerCreditsMsgs, this`peerCreditsBytes,
               this`wire, this`reqsMsgq, this`rspsMsgq, this`inFlightReqs, this`inFlightRsps, this`sendReqToggle
      ensures AllAccepted(script)
      ensures View() == XmitMany(Respond(old(View()), requestBytes, rsp), script)
      ensures wire == old(wire) + PacketsOf(Respond(old(View()), requestBytes, rsp), script)
      ensures Stuck(View(), Requests) && Stuck(View(), Responses)
    {
      QueueResponse(requestBytes, rsp);
      script := XmitAll();
    }

    method QueueResponse(requestBytes: U64, rsp: Msg)
      modifies this`creditsMsgs, this`creditsBytes, this`rspsMsgq
      ensures View() == Respond(old(View()), requestBytes, rsp)
      ensures rspsMsgq == old(rspsMsgq) + [rsp]
      ensures creditsMsgs == (old(creditsMsgs) + if enableFlowControl then 1 else 0) % TWO16
      ensures creditsBytes == (old(creditsBytes) + if enableFlowControl then requestBytes else 0) % TWO64
    {
      if enableFlowControl {
        creditsMsgs := Inc16(creditsMsgs);
        creditsBytes := Add64(creditsBytes, requestBytes);
      }
      rspsMsgq := rspsMsgq + [rsp];
    }

    /** Give back the credits of a released message, and queue an ack once the watermark is reached. */
    method QueueRelease(bytes: U64) returns (ack: bool)
      modifies this`creditsMsgs, this`creditsBytes, this`reqsMsgq
      ensures View() == Release(old(View()), bytes)
      ensures !enableFlowControl ==> View() == old(View())
    {
      ack := false;
      if enableFlowControl {
        creditsMsgs := Inc16(creditsMsgs);
        creditsBytes := Add64(creditsBytes, bytes);
        ack := creditsMsgs >= watermarkMsgs || creditsBytes >= watermarkBytes;
      }
      if ack { reqsMsgq := reqsMsgq + [CreditsAck]; }
    }

    /** The credit part of `xio_release_msg` and `xio_release_response`, on an online connection and an
        accepting transport: credits are given back, an ack is queued at the watermark, and both
        queues are transmitted. */
    method ReleaseMsg(bytes: U64) returns (ghost script: seq<Attempt>)
      modifies this`reqSn, this`rspSn, this`creditsMsgs, this`creditsBytes, this`peerCreditsMsgs, this`peerCreditsBytes,
               this`wire, this`reqsMsgq, this`rspsMsgq, this`inFlightReqs, this`inFlightRsps, this`sendReqToggle
      ensures AllAccepted(script)
      ensures View() == XmitMany(Release(old(View()), bytes), script)
      ensures wire == old(wire) + PacketsOf(Release(old(View()), bytes), script)
      ensures Stuck(View(), Requests) && Stuck(View(), Responses)
      ensures enableFlowControl ==> OwedCredits.AckLaw(old(View()), bytes, View(), wire[|old(wire)|..])
    {
      hide Release, XmitMany, PacketsOf, Stuck, OwedCredits.AckLaw, AllAccepted;
      ghost var e, w := View(), wire;
      var ack := QueueRelease(bytes);
      script := XmitTwice(ack);
      if enableFlowControl { OwedCredits.ReleaseKeepsAckLaw(e, bytes, script); }
      assert wire[|w|..] == PacketsOf(Release(e, bytes), script);
    }

    /** Transmit once or twice on an accepting transport. */
    method XmitTwice(twice: bool) returns (ghost script: seq<Attempt>)
      modifies this`reqSn, this`rspSn, this`creditsMsgs, this`creditsBytes, this`peerCreditsMsgs, this`peerCreditsBytes,
               this`wire, this`reqsMsgq, this`rspsMsgq, this`inFlightReqs, this`inFlightRsps, this`sendReqToggle
      ensures AllAccepted(script)
      ensures View() == XmitMany(old(View()), script)
      ensures wire == old(wire) + PacketsOf(old(View()), script)
      ensures Stuck(View(), Requests) && Stuck(View(), Responses)
    {
      ghost var e0, w0 := View(), wire;
      script := XmitAll();
      if twice {
        ghost var e1, w1 := View(), wire;
        ghost var t := XmitAll();
        XmitResumed(e0, e1, View(), script, t, w0, w1, wire);
        script := script + t;
      }
    }

    // ----- restart and flush ---------------------------------------------------------------------

    /** One list of `xio_connection_flush_msgs`: the in-flight messages are taken off one by one and
        each is inserted before the old head of the queue, or at the tail when there was none. */
    static method PutBack(inFlight: seq<Msg>, queue: seq<Msg>) returns (r: seq<Msg>)
      ensures r == inFlight + queue
    {
      r := queue;
      for moved := 0 to |inFlight|
        invariant r == inFlight[..moved] + queue
      {
        r := if queue != [] then r[..moved] + [inFlight[moved]] + r[moved..] else r + [inFlight[moved]];
      }
    }

    /** The un-counting in the same loop, which comes to one subtraction. */
    method UncountFlushed()
      modifies this`txQueuedMsgs, this`txBytes
      ensures var ms := if enableFlowControl then Keep(IsCounted, inFlightReqs) else [];
        && txQueuedMsgs == old(txQueuedMsgs) - |ms|
        && txBytes == (old(txBytes) - Total(MsgBytes, ms)) % TWO64
    {
      if !enableFlowControl { return; }
      ghost var ms, n0, b0 := inFlightReqs, txQueuedMsgs, txBytes;
      for i := 0 to |inFlightReqs|
        invariant txQueuedMsgs == n0 - |Keep(IsCounted, ms[..i])|
        invariant txBytes == (b0 - Total(MsgBytes, Keep(IsCounted, ms[..i]))) % TWO64
      {
        var m := inFlightReqs[i];
        UncountNext(ms, i, b0);
        hide Keep, Total;
        if IsCounted(m) {
          txQueuedMsgs := txQueuedMsgs - 1;
          txBytes := Sub64(txBytes, m.bytes);
        }
      }
      assert ms[..|ms|] == ms;
    }

    /** `xio_connection_flush_msgs` */
    method FlushMsgs()
      modifies this`reqsMsgq, this`rspsMsgq, this`inFlightReqs, this`inFlightRsps, this`txQueuedMsgs, this`txBytes
      ensures View() == old(View()).(lists := QueueOrder.Flush(old(ListsView())))
      ensures var ms := if enableFlowControl then Keep(IsCounted, old(inFlightReqs)) else [];
        txQueuedMsgs == old(txQueuedMsgs) - |ms| && txBytes == (old(txBytes) - Total(MsgBytes, ms)) % TWO64
    {
      hide Keep, Total;
      UncountFlushed();
      reqsMsgq := PutBack(inFlightReqs, reqsMsgq);
      inFlightReqs := [];
      rspsMsgq := PutBack(inFlightRsps, rspsMsgq);
      inFlightRsps := [];
    }

    /** The loop of `xio_connection_notify_req_msgs_flush`: which messages are reported. */
    static method ReqErrors(queue: seq<Msg>) returns (errors: seq<Msg>)
      ensures errors == Keep(IsApplicationMsg, queue)
      ensures forall m :: m in errors <==> m in queue && FromApplication(m)
    {
      errors := [];
      for i := 0 to |queue|
        invariant errors + Keep(IsApplicationMsg, queue[i..]) == Keep(IsApplicationMsg, queue)
      {
        if IsApplicationMsg(queue[i]) { errors := errors + [queue[i]]; }
      }
      forall m ensures m in errors <==> m in queue && FromApplication(m) { KeepMembers(IsApplicationMsg, queue, m); }
    }

    /** The loop of `xio_connection_notify_rsp_msgs_flush`: which messages are reported. */
    static method RspErrors(queue: seq<Msg>) returns (errors: seq<Msg>)
      ensures errors == Keep(QueueOrder.IsReportedRsp, queue)
      ensures forall m :: m in errors <==> m in queue && m.typ.Rsp? && !(m.first && !m.last)
    {
      errors := [];
      for i := 0 to |queue|
        invariant errors + Keep(QueueOrder.IsReportedRsp, queue[i..]) == Keep(QueueOrder.IsReportedRsp, queue)
      {
        if queue[i].typ.Rsp? && !Standalone(queue[i]) { errors := errors + [queue[i]]; }
      }
      forall m ensures m in errors <==> m in queue && m.typ.Rsp? && !(m.first && !m.last) {
        KeepMembers(QueueOrder.IsReportedRsp, queue, m);
      }
    }

    /** `xio_connection_notify_msgs_flush` */
    method NotifyMsgsFlush() returns (reqErrors: seq<Msg>, rspErrors: seq<Msg>)
      modifies this
      ensures View() == old(View()).(lists := QueueOrder.DropQueues(old(ListsView())))
      ensures reqErrors == QueueOrder.ReportedReqs(old(ListsView()))
      ensures rspErrors == QueueOrder.ReportedRsps(old(ListsView()))
      ensures wire == old(wire) && isFlushed && reqsMsgq == rspsMsgq == []
      ensures inFlightReqs == old(inFlightReqs) && inFlightRsps == old(inFlightRsps)
    {
      reqErrors := ReqErrors(reqsMsgq);
      reqsMsgq := [];
      rspErrors := RspErrors(rspsMsgq);
      rspsMsgq := [];
      isFlushed := true;
    }

    lemma Fields()
      ensures View().restarted == restarted && View().lists == Lists(reqsMsgq, rspsMsgq, inFlightReqs, inFlightRsps)
    {
    }

    method PrepareRestart() returns (rspErrors: seq<Msg>)
      modifies this`reqsMsgq, this`rspsMsgq, this`inFlightReqs, this`inFlightRsps, this`txQueuedMsgs, this`txBytes,
               this`restarted
      ensures View() == Restarted(old(View())) && restarted
      ensures reqsMsgq == old(inFlightReqs + reqsMsgq) && rspsMsgq == inFlightReqs == inFlightRsps == []
      ensures rspErrors == QueueOrder.ReportedRsps(QueueOrder.Flush(old(ListsView())))
    {
      hide Keep, Total;
      FlushMsgs();
      restarted := true;
      rspErrors := RspErrors(rspsMsgq);
      rspsMsgq := [];
    }

    /** `xio_connection_restart`: everything in flight goes back in front of its queue, responses are
        reported and dropped, and what is left is transmitted again. */
    method Restart(answer: nat -> Verdict) returns (ok: bool, rspErrors: seq<Msg>, ghost script: seq<Attempt>)
      requires Ends(Call(Restarted(View()), sendReqToggle, answer))
      modifies this
      ensures rspErrors == QueueOrder.ReportedRsps(QueueOrder.Flush(old(ListsView())))
      ensures var c := old(Call(Restarted(View()), sendReqToggle, answer)); var n := |script|;
        && n > 0 && script == Script(c, n) && Stops(c, n) && GoesPast(c, n)
        && (ok <==> !FailsAt(c, n - 1))
      ensures View() == XmitMany(Restarted(old(View())), script)
      ensures restarted && rspsMsgq == inFlightRsps == []
      ensures wire == old(wire) + PacketsOf(Restarted(old(View())), script)
    {
      hide XmitMany, PacketsOf, Stops, Script, FailsAt, GoesPast, View, Restarted;
      rspErrors := PrepareRestart();
      ghost var e := View();
      assert e.restarted && Queued(e.lists, Responses) == [] && InFlight(e.lists, Responses) == [] by { Fields(); }
      ok, script := Xmit(answer);
      EmptyStaysEmpty(e, script, Responses);
      Fields();
    }
  }
}
