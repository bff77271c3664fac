/**
  Credits owed to the peer: they ride out on the first numbered packet, and when they reach a watermark
  with nothing else going out, an ack carries them.
 */
module OwedCredits {
  import opened Words
  import opened Sums
  import opened FlowControl
  import opened Transmit

  predicate Carries(p: Packet) { p.typ.Req? || p.typ.Rsp? || p.typ.OneWayReq? || p.typ.OneWayRsp? || p.typ.AckReq? }

  predicate NoneCarries(ps: seq<Packet>) { forall i :: 0 <= i < |ps| ==> !Carries(ps[i]) }

  /** A packet of `ps` carries exactly these credits. */
  predicate RodeOut(ps: seq<Packet>, msgs: U16, bytes: U64) {
    exists i :: 0 <= i < |ps| && Carries(ps[i]) && ps[i].creditsMsgs == msgs && ps[i].creditsBytes == bytes
  }

  /** What a transmission that emits `ps` leaves owed: all of it, or nothing because it rode out. */
  predicate OwedAfter(e: Endpoint, e': Endpoint, ps: seq<Packet>) {
    && e'.lim == e.lim
    && if NoneCarries(ps) then e'.cr.msgs == e.cr.msgs && e'.cr.bytes == e.cr.bytes
       else e'.cr.msgs == 0 && e'.cr.bytes == 0 && RodeOut(ps, e.cr.msgs, e.cr.bytes)
  }

  lemma OneOwed(e: Endpoint, a: Attempt)
    requires e.lim.flowControl && a.v.Accept?
    ensures OwedAfter(e, XmitOne(e, a), PacketsOfOne(e, a))
  {
    var ps := PacketsOfOne(e, a);
    assert |ps| <= 1;
    assert ps != [] && Carries(ps[0]) ==> ps[0].creditsMsgs == e.cr.msgs && ps[0].creditsBytes == e.cr.bytes;
  }

  lemma OwedCompose(e: Endpoint, e1: Endpoint, e2: Endpoint, x: seq<Packet>, y: seq<Packet>)
    requires OwedAfter(e, e1, x) && OwedAfter(e1, e2, y)
    ensures OwedAfter(e, e2, x + y)
  {
    if NoneCarries(x) {
      if NoneCarries(y) {
        assert NoneCarries(x + y);
      } else {
        var i :| 0 <= i < |y| && Carries(y[i]) && y[i].creditsMsgs == e.cr.msgs && y[i].creditsBytes == e.cr.bytes;
        assert (x + y)[|x| + i] == y[i];
      }
    } else {
      var i :| 0 <= i < |x| && Carries(x[i]) && x[i].creditsMsgs == e.cr.msgs && x[i].creditsBytes == e.cr.bytes;
      assert (x + y)[i] == x[i];
    }
  }

  lemma {:induction false} ScriptOwed(e: Endpoint, script: seq<Attempt>)
    requires e.lim.flowControl && AllAccepted(script)
    ensures OwedAfter(e, XmitMany(e, script), PacketsOf(e, script))
    decreases script
  {
    if script != [] {
      var a := script[0];
      assert a.v.Accept? && AllAccepted(script[1..]);
      var e1 := XmitOne(e, a);
      OneOwed(e, a);
      ScriptOwed(e1, script[1..]);
      OwedCompose(e, e1, XmitMany(e1, script[1..]), PacketsOfOne(e, a), PacketsOf(e1, script[1..]));
      hide OwedAfter, XmitOne, PacketsOfOne;
    }
  }

  /** What is emitted is on the wire. */
  lemma {:induction false} EmittedCarries(e: Endpoint, script: seq<Attempt>, q: Queue, m: Msg)
    requires m in EmittedFrom(e, script, q) && IsNumbered(m.typ)
    ensures !NoneCarries(PacketsOf(e, script))
    decreases script
  {
    var a := script[0];
    var e1 := XmitOne(e, a);
    var x, y := PacketsOfOne(e, a), PacketsOf(e1, script[1..]);
    var mine := if a.q == q then Emitted(e, a) else [];
    if m in mine {
      assert x == [PacketFor(e, m)] && Carries((x + y)[0]);
    } else {
      assert m in EmittedFrom(e1, script[1..], q);
      EmittedCarries(e1, script[1..], q, m);
      var i :| 0 <= i < |y| && Carries(y[i]);
      assert (x + y)[|x| + i] == y[i];
    }
  }

  /** A message of this length is in the queue. */
  predicate HasTooLong(ms: seq<Msg>, depth: U64) { exists i :: 0 <= i < |ms| && FromApplication(ms[i]) && depth < ms[i].bytes }

  /** An ack at the end of the request queue goes out, stays there, or goes with the queue when a message too
      long for the peer comes to its head. */
  lemma AckOutcome(e: Endpoint, ms: seq<Msg>, script: seq<Attempt>)
    requires AllAccepted(script) && e.lists.reqs == ms + [CreditsAck]
    ensures var reqs := XmitMany(e, script).lists.reqs;
      || !NoneCarries(PacketsOf(e, script))
      || (reqs != [] && reqs[|reqs| - 1] == CreditsAck)
      || (reqs == [] && HasTooLong(ms, e.lim.peerDepthBytes))
  {
    var sent := EmittedFrom(e, script, Requests);
    ScriptSendsPrefix(e, script, Requests);
    hide XmitMany, EmittedFrom, PacketsOf;
    if |sent| == |ms| + 1 {
      assert sent[|ms|] == CreditsAck && CreditsAck in sent;
      EmittedCarries(e, script, Requests, CreditsAck);
    } else if XmitMany(e, script).lists.reqs == [] {
      assert (ms + [CreditsAck])[|sent|] == ms[|sent|];
    }
  }

  lemma {:induction false} NothingToSend(e: Endpoint, script: seq<Attempt>)
    requires e.lists.reqs == [] && e.lists.rsps == []
    ensures XmitMany(e, script) == e && PacketsOf(e, script) == []
    decreases script
  {
    if script != [] { NothingToSend(e, script[1..]); }
  }

  /** What holds after a release and its transmission: what is owed is below both watermarks, or it has gone
      out, or the ack for it is still queued, or the ack went with a queue dropped for a message that is too
      long. And with nothing queued and both totals below the watermarks, nothing is sent. */
  predicate AckLaw(e: Endpoint, bytes: U64, e': Endpoint, ps: seq<Packet>) {
    var msgs, total, reqs := (e.cr.msgs + 1) % TWO16, (e.cr.bytes + bytes) % TWO64, e'.lists.reqs;
    && (|| (e'.cr.msgs < e.lim.watermarkMsgs && e'.cr.bytes < e.lim.watermarkBytes)
        || (e'.cr.msgs == 0 && e'.cr.bytes == 0 && RodeOut(ps, msgs, total))
        || (reqs != [] && reqs[|reqs| - 1] == CreditsAck)
        || (reqs == [] && HasTooLong(e.lists.reqs, e.lim.peerDepthBytes)))
    && (e.lists.reqs == [] && e.lists.rsps == [] && msgs < e.lim.watermarkMsgs && total < e.lim.watermarkBytes ==>
          ps == [] && e' == e.(cr := e.cr.(msgs := msgs, bytes := total)))
  }

  lemma ReleaseKeepsAckLaw(e: Endpoint, bytes: U64, script: seq<Attempt>)
    requires e.lim.flowControl && AllAccepted(script)
    ensures var e0 := Release(e, bytes); AckLaw(e, bytes, XmitMany(e0, script), PacketsOf(e0, script))
  {
    var e0 := Release(e, bytes);
    ReleaseOwes(e, bytes);
    ScriptOwed(e0, script);
    if e0.lists.reqs == e.lists.reqs + [CreditsAck] { AckOutcome(e0, e.lists.reqs, script); }
    if e.lists.reqs == [] && e.lists.rsps == [] && e0.lists == e.lists { NothingToSend(e0, script); }
    hide Release, XmitMany, PacketsOf, NoneCarries, RodeOut, HasTooLong;
  }

  lemma ReleaseOwes(e: Endpoint, bytes: U64)
    requires e.lim.flowControl
    ensures var e0, msgs, total := Release(e, bytes), (e.cr.msgs + 1) % TWO16, (e.cr.bytes + bytes) % TWO64;
      && e0 == e.(cr := e.cr.(msgs := msgs, bytes := total), lists := e0.lists)
      && e0.lists == (if msgs < e.lim.watermarkMsgs && total < e.lim.watermarkBytes then e.lists
                      else e.lists.(reqs := e.lists.reqs + [CreditsAck]))
  {
  }
}
