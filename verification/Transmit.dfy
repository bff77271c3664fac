/**
  Transmission: one attempt to send the head of a queue, the two-queue loop made of such attempts,
  and what they keep.
 */
module Transmit {
  import opened Words
  import opened Sums
  import opened FlowControl

  /** What the nexus answers to a send. */
  datatype Verdict =
    | Accept
    | Busy        // -EAGAIN
    | Notified    // -ENOMSG: the error was reported and an application message taken off its queue
    | Broken      // any other error

  datatype Outcome = Sent(p: Packet) | Again | PeerQueueMismatch | NoMsg | Failed

  function SendOutcome(e: Endpoint, m: Msg, v: Verdict): Outcome {
    if Refused(e, m) then Again
    else if Oversized(e, m) then PeerQueueMismatch
    else match v
      case Accept => Sent(PacketFor(e, m))
      case Busy => Again
      case Notified => NoMsg
      case Broken => Failed
  }

  /** Numbers and credits after an attempt; the message lists are not touched by it. */
  function AfterAttempt(e: Endpoint, m: Msg, v: Verdict): (r: Endpoint)
    ensures r.lists == e.lists && r.lim == e.lim
  {
    if !Admitted(e, m) then e else if v.Accept? then AfterSend(e, m) else AfterFailedSend(e, m)
  }

  /** The lists after an attempt on `q` with outcome `o`. */
  function ListsAfter(l: Lists, q: Queue, o: Outcome): Lists
    requires Queued(l, q) != []
  {
    var m, rest := Queued(l, q)[0], Queued(l, q)[1..];
    match o
    case Sent(_) => MoveHead(l, q)
    case Again => l
    case PeerQueueMismatch => SetQueued(l, q, [])
    case NoMsg => if IsApplication(m.typ) then SetQueued(l, q, rest) else l
    case Failed => SetQueued(l, q, rest)
  }

  datatype Attempt = Attempt(q: Queue, v: Verdict)

  /** One call of `xio_connection_xmit_inl`. */
  function XmitOne(e: Endpoint, a: Attempt): Endpoint {
    if Queued(e.lists, a.q) == [] then e
    else
      var m := Queued(e.lists, a.q)[0];
      AfterAttempt(e, m, a.v).(lists := ListsAfter(e.lists, a.q, SendOutcome(e, m, a.v)))
  }

  function RetryAfter(e: Endpoint, a: Attempt, retryCnt: nat): nat {
    if Queued(e.lists, a.q) == [] then retryCnt + 1
    else match SendOutcome(e, Queued(e.lists, a.q)[0], a.v)
      case Sent(_) => 0
      case NoMsg => 0
      case Failed => retryCnt
      case _ => retryCnt + 1
  }

  /** The message this attempt hands to the transport, if any. */
  function Emitted(e: Endpoint, a: Attempt): (r: seq<Msg>)
    ensures |r| <= 1
  {
    if Queued(e.lists, a.q) != [] && Admitted(e, Queued(e.lists, a.q)[0]) && a.v.Accept?
    then [Queued(e.lists, a.q)[0]] else []
  }

  /** The attempt is a send that the transport fails. */
  predicate Fails(e: Endpoint, a: Attempt) {
    Queued(e.lists, a.q) != [] && SendOutcome(e, Queued(e.lists, a.q)[0], a.v).Failed?
  }

  function PacketsOfOne(e: Endpoint, a: Attempt): seq<Packet> {
    if Emitted(e, a) == [] then [] else [PacketFor(e, Emitted(e, a)[0])]
  }

  // ----- what an attempt means -------------------------------------------------------------------

  predicate FromApplication(m: Msg) { m.typ.Req? || m.typ.Rsp? || m.typ.OneWayReq? || m.typ.OneWayRsp? }

  /** An application message that no amount of credits will admit, met with a message credit at hand. */
  predicate TooLong(e: Endpoint, m: Msg) {
    e.lim.flowControl && FromApplication(m) && e.cr.peerMsgs != 0 && e.lim.peerDepthBytes < m.bytes
  }

  /** An application message for which credits are short now. */
  predicate Short(e: Endpoint, m: Msg) {
    && e.lim.flowControl && FromApplication(m)
    && (e.cr.peerMsgs == 0 || (m.bytes <= e.lim.peerDepthBytes && e.cr.peerBytes < m.bytes))
  }

  /** The number taken for a message is used up, whatever the transport then says. */
  predicate NumberUsed(n: Numbers, n': Numbers, m: Msg) {
    && n'.reqExpSn == n.reqExpSn && n'.reqAckSn == n.reqAckSn && n'.rspExpSn == n.rspExpSn && n'.rspAckSn == n.rspAckSn
    && n'.reqSn == (n.reqSn + if m.typ.Req? || m.typ.OneWayReq? || m.typ.AckReq? then 1 else 0) % TWO16
    && n'.rspSn == (n.rspSn + if m.typ.Rsp? || m.typ.OneWayRsp? then 1 else 0) % TWO16
  }

  /** A stand-alone read receipt. */
  predicate ReceiptOnly(m: Msg) { !(m.typ.Req? || m.typ.OneWayReq? || m.typ.AckReq? || m.typ.FinReq? || m.typ.KaReq?) && m.first && !m.last }

  /** What a sent packet carries: the next number of its kind, the last one received of that kind, and all
      that is owed to the peer. */
  predicate PacketMeans(e: Endpoint, m: Msg, p: Packet) {
    var req, rsp := m.typ.Req? || m.typ.OneWayReq? || m.typ.AckReq?, m.typ.Rsp? || m.typ.OneWayRsp?;
    && p.typ == m.typ && p.serial == m.sn && p.bytes == m.bytes && p.standalone == ReceiptOnly(m)
    && p.sn == (if req then e.num.reqSn else if rsp then e.num.rspSn else 0)
    && p.ackSn == (if req then e.num.reqAckSn else if rsp then e.num.rspAckSn else 0)
    && (if e.lim.flowControl && (req || rsp) then p.creditsMsgs == e.cr.msgs && p.creditsBytes == e.cr.bytes
        else p.creditsMsgs == 0 && p.creditsBytes == 0)
  }

  /** What is paid for a sent message: one message credit and, for an application message, its length. A
      stand-alone receipt is free, and so is a control message that is not an ack. */
  predicate PaidFor(e: Endpoint, e': Endpoint, m: Msg) {
    var req, rsp := m.typ.Req? || m.typ.OneWayReq? || m.typ.AckReq?, m.typ.Rsp? || m.typ.OneWayRsp?;
    if !(e.lim.flowControl && (req || rsp)) then e'.cr == e.cr
    else
      && e'.cr.msgs == 0 && e'.cr.bytes == 0
      && e'.cr.peerMsgs == (if ReceiptOnly(m) then e.cr.peerMsgs else (e.cr.peerMsgs - 1) % TWO16)
      && e'.cr.peerBytes == (if ReceiptOnly(m) || m.typ.AckReq? then e.cr.peerBytes else (e.cr.peerBytes - m.bytes) % TWO64)
  }

  /** What one send comes to. */
  predicate SendMeans(e: Endpoint, e': Endpoint, m: Msg, v: Verdict, o: Outcome) {
    && e'.lists == e.lists && e'.lim == e.lim && e'.restarted == e.restarted
    && if Short(e, m) then o == Again && e' == e
       else if TooLong(e, m) then o == PeerQueueMismatch && e' == e
       else
         && NumberUsed(e.num, e'.num, m)
         && match v
            case Accept => o.Sent? && PacketMeans(e, m, o.p) && PaidFor(e, e', m)
            case Busy => o == Again && e'.cr == e.cr
            case Notified => o == NoMsg && e'.cr == e.cr
            case Broken => o == Failed && e'.cr == e.cr
  }

  lemma SendMeaning(e: Endpoint, m: Msg, v: Verdict)
    ensures SendMeans(e, AfterAttempt(e, m, v), m, v, SendOutcome(e, m, v))
  {
    NumberIsUsed(e.num, m);
    if !Short(e, m) && !TooLong(e, m) {
      PacketMeaning(e, m);
      PaymentMeaning(e, m);
    }
    hide NumberUsed, NumberOne, PacketMeans, PaidFor, PacketFor, ChargeOne;
  }

  lemma PacketMeaning(e: Endpoint, m: Msg)
    ensures PacketMeans(e, m, PacketFor(e, m))
  {
  }

  lemma PaymentMeaning(e: Endpoint, m: Msg)
    ensures PaidFor(e, AfterSend(e, m), m)
  {
  }

  /** What an attempt on `q` does, answer by answer, to the connection and to the retry counter. An empty
      queue, or a head for which credits are short, is as a busy transport: nothing happens. A head that
      is too long takes its whole queue with it. A busy transport leaves the lists and credits alone, a
      failing one costs exactly the head, one that notifies the error costs an application message and
      leaves a control message. */
  predicate AttemptMeans(e: Endpoint, e': Endpoint, a: Attempt, retry: nat, retry': nat, failed: bool) {
    var q, other := a.q, if a.q.Requests? then Responses else Requests;
    var ms, ms', fl, fl' := Queued(e.lists, q), Queued(e'.lists, q), InFlight(e.lists, q), InFlight(e'.lists, q);
    && Queued(e'.lists, other) == Queued(e.lists, other) && InFlight(e'.lists, other) == InFlight(e.lists, other)
    && e'.lim == e.lim && e'.restarted == e.restarted
    && if ms == [] || Short(e, ms[0]) then e' == e && retry' == retry + 1 && !failed
       else if TooLong(e, ms[0]) then ms' == [] && fl' == fl && e'.cr == e.cr && e'.num == e.num && retry' == retry + 1 && !failed
       else
         && NumberUsed(e.num, e'.num, ms[0])
         && match a.v
            case Accept =>
              ms' == ms[1..] && fl' == (if FromApplication(ms[0]) then fl + [ms[0]] else fl) && retry' == 0 && !failed
            case Busy => ms' == ms && fl' == fl && e'.cr == e.cr && retry' == retry + 1 && !failed
            case Notified =>
              ms' == (if FromApplication(ms[0]) then ms[1..] else ms) && fl' == fl && e'.cr == e.cr && retry' == 0 && !failed
            case Broken => ms' == ms[1..] && fl' == fl && e'.cr == e.cr && retry' == retry && failed
  }

  lemma AttemptMeaning(e: Endpoint, a: Attempt, retry: nat)
    ensures AttemptMeans(e, XmitOne(e, a), a, retry, RetryAfter(e, a, retry), Fails(e, a))
  {
    if Queued(e.lists, a.q) != [] { NumberIsUsed(e.num, Queued(e.lists, a.q)[0]); }
    hide NumberUsed, NumberOne;
  }

  lemma NumberIsUsed(n: Numbers, m: Msg)
    ensures NumberUsed(n, NumberOne(n, m.typ), m)
  {
  }

  // ----- scripts of attempts ---------------------------------------------------------------------

  function XmitMany(e: Endpoint, script: seq<Attempt>): Endpoint
    decreases script
  {
    if script == [] then e else XmitMany(XmitOne(e, script[0]), script[1..])
  }

  function PacketsOf(e: Endpoint, script: seq<Attempt>): seq<Packet>
    decreases script
  {
    if script == [] then [] else PacketsOfOne(e, script[0]) + PacketsOf(XmitOne(e, script[0]), script[1..])
  }

  /** The messages of queue `q` that the script hands to the transport, in order. */
  function EmittedFrom(e: Endpoint, script: seq<Attempt>, q: Queue): seq<Msg>
    decreases script
  {
    if script == [] then []
    else (if script[0].q == q then Emitted(e, script[0]) else [])
         + EmittedFrom(XmitOne(e, script[0]), script[1..], q)
  }

  predicate AllAccepted(script: seq<Attempt>) { forall i :: 0 <= i < |script| ==> script[i].v.Accept? }

  lemma {:induction false} XmitManyConcat(e: Endpoint, s: seq<Attempt>, t: seq<Attempt>)
    ensures XmitMany(e, s + t) == XmitMany(XmitMany(e, s), t)
    ensures PacketsOf(e, s + t) == PacketsOf(e, s) + PacketsOf(XmitMany(e, s), t)
    decreases s
  {
    hide XmitOne, PacketsOfOne;
    if s == [] {
      assert s + t == t;
    } else {
      assert (s + t)[0] == s[0] && (s + t)[1..] == s[1..] + t;
      var e1 := XmitOne(e, s[0]);
      XmitManyConcat(e1, s[1..], t);
      var x, y, z := PacketsOfOne(e, s[0]), PacketsOf(e1, s[1..]), PacketsOf(XmitMany(e1, s[1..]), t);
      assert x + (y + z) == (x + y) + z;
    }
  }

  /** Two transmissions one after the other are one transmission. */
  lemma XmitResumed(e: Endpoint, e1: Endpoint, e2: Endpoint, s: seq<Attempt>, t: seq<Attempt>,
                    w: seq<Packet>, w1: seq<Packet>, w2: seq<Packet>)
    requires e1 == XmitMany(e, s) && w1 == w + PacketsOf(e, s)
    requires e2 == XmitMany(e1, t) && w2 == w1 + PacketsOf(e1, t)
    ensures e2 == XmitMany(e, s + t) && w2 == w + PacketsOf(e, s + t)
  {
    hide XmitMany, PacketsOf;
    XmitManyConcat(e, s, t);
    assert (w + PacketsOf(e, s)) + PacketsOf(e1, t) == w + (PacketsOf(e, s) + PacketsOf(e1, t));
  }

  lemma XmitManySingle(e: Endpoint, a: Attempt)
    ensures XmitMany(e, [a]) == XmitOne(e, a) && PacketsOf(e, [a]) == PacketsOfOne(e, a)
  {
    assert [a][1..] == [];
    assert PacketsOf(XmitOne(e, a), []) == [];
    assert PacketsOfOne(e, a) + [] == PacketsOfOne(e, a);
  }

  lemma XmitManyAppend(e: Endpoint, script: seq<Attempt>, a: Attempt)
    ensures XmitMany(e, script + [a]) == XmitOne(XmitMany(e, script), a)
    ensures PacketsOf(e, script + [a]) == PacketsOf(e, script) + PacketsOfOne(XmitMany(e, script), a)
  {
    XmitManyConcat(e, script, [a]);
    XmitManySingle(XmitMany(e, script), a);
  }

  // ----- what a transmission keeps ---------------------------------------------------------------

  /** Everything sent from a queue was a prefix of it, in queue order, and its application messages
      went to the end of the in-flight list; what is left is the rest of the queue, unless a message
      too long for the peer (`depth`) came to the head, in which case nothing is left. */
  predicate SentPrefix(l: Lists, l': Lists, q: Queue, sent: seq<Msg>, depth: U64) {
    var ms, ms' := Queued(l, q), Queued(l', q);
    && sent <= ms
    && InFlight(l', q) == InFlight(l, q) + Keep(IsApplicationMsg, sent)
    && (ms' == ms[|sent|..] || (ms' == [] && IsApplicationMsg(ms[|sent|]) && depth < ms[|sent|].bytes))
  }

  /** What an attempt can do to its queue and in-flight list, whatever the transport answers. */
  lemma AttemptOnLists(e: Endpoint, a: Attempt)
    ensures var l, l' := e.lists, XmitOne(e, a).lists; var ms, ms' := Queued(l, a.q), Queued(l', a.q);
      || (ms' == ms && InFlight(l', a.q) == InFlight(l, a.q))
      || (ms' == [] && InFlight(l', a.q) == InFlight(l, a.q))
      || (ms != [] && ms' == ms[1..] && InFlight(l', a.q) == InFlight(l, a.q))
      || (ms != [] && ms' == ms[1..] && InFlight(l', a.q) == InFlight(l, a.q) + [ms[0]] && IsApplicationMsg(ms[0]))
    ensures var l, l' := e.lists, XmitOne(e, a).lists; forall q :: q != a.q ==>
      Queued(l', q) == Queued(l, q) && InFlight(l', q) == InFlight(l, q)
  {
  }

  lemma OneSendsPrefix(e: Endpoint, a: Attempt, q: Queue)
    requires a.v.Accept?
    ensures var sent := if a.q == q then Emitted(e, a) else [];
      SentPrefix(e.lists, XmitOne(e, a).lists, q, sent, e.lim.peerDepthBytes)
  {
    var l, ms := e.lists, Queued(e.lists, q);
    assert Keep(IsApplicationMsg, []) == [] && ms[0..] == ms && InFlight(l, q) + [] == InFlight(l, q);
    if ms != [] {
      assert [ms[0]] <= ms && [ms[0]][1..] == [];
      assert Keep(IsApplicationMsg, [ms[0]]) == if IsApplicationMsg(ms[0]) then [ms[0]] else [];
    }
  }

  lemma PrefixCompose(ms: seq<Msg>, x: seq<Msg>, y: seq<Msg>)
    requires x <= ms && y <= ms[|x|..]
    ensures x + y <= ms && ms[|x + y|..] == ms[|x|..][|y|..]
    ensures |y| < |ms| - |x| ==> ms[|x|..][|y|] == ms[|x + y|]
  {
  }

  lemma SentPrefixCompose(l: Lists, l1: Lists, l2: Lists, q: Queue, x: seq<Msg>, y: seq<Msg>, depth: U64)
    requires SentPrefix(l, l1, q, x, depth) && SentPrefix(l1, l2, q, y, depth)
    ensures SentPrefix(l, l2, q, x + y, depth)
  {
    hide Keep, Queued, InFlight;
    KeepConcat(IsApplicationMsg, x, y);
    var ms, ms1, fl := Queued(l, q), Queued(l1, q), InFlight(l, q);
    var kx, ky := Keep(IsApplicationMsg, x), Keep(IsApplicationMsg, y);
    assert (fl + kx) + ky == fl + (kx + ky);
    if ms1 == ms[|x|..] {
      PrefixCompose(ms, x, y);
    } else {
      assert y == [] && x + y == x;
    }
  }

  lemma {:induction false} ScriptSendsPrefix(e: Endpoint, script: seq<Attempt>, q: Queue)
    requires AllAccepted(script)
    ensures SentPrefix(e.lists, XmitMany(e, script).lists, q, EmittedFrom(e, script, q), e.lim.peerDepthBytes)
    decreases script
  {
    if script == [] {
      var ms := Queued(e.lists, q);
      assert ms[0..] == ms && InFlight(e.lists, q) + [] == InFlight(e.lists, q);
    } else {
      var a := script[0];
      assert a.v.Accept?;
      var e1 := XmitOne(e, a);
      assert e1.lim == e.lim;
      OneSendsPrefix(e, a, q);
      assert AllAccepted(script[1..]);
      ScriptSendsPrefix(e1, script[1..], q);
      SentPrefixCompose(e.lists, e1.lists, XmitMany(e1, script[1..]).lists, q,
                        if a.q == q then Emitted(e, a) else [], EmittedFrom(e1, script[1..], q), e.lim.peerDepthBytes);
    }
  }

  // ----- the two-queue loop ----------------------------------------------------------------------

  /** An attempt on an accepting transport either sends, or leaves its queue stuck and the other
      queue as it was. This is why two failures in a row mean that nothing more can be sent. */
  lemma AcceptedAttempt(e: Endpoint, q: Queue, other: Queue, retryCnt: nat)
    requires q != other
    ensures var e', r := XmitOne(e, Attempt(q, Accept)), RetryAfter(e, Attempt(q, Accept), retryCnt);
      && Queued(e'.lists, other) == Queued(e.lists, other)
      && (|| (r == 0 && Queued(e.lists, q) != [] && Queued(e'.lists, q) == Queued(e.lists, q)[1..])
          || (r == retryCnt + 1 && Stuck(e', q) && (Stuck(e, other) ==> Stuck(e', other))
              && |Queued(e'.lists, q)| <= |Queued(e.lists, q)|))
  {
  }

  /** A transmission leaves the restart flag alone, and an empty queue and its in-flight list too. */
  lemma {:induction false} EmptyStaysEmpty(e: Endpoint, script: seq<Attempt>, q: Queue)
    requires Queued(e.lists, q) == []
    ensures var e' := XmitMany(e, script);
      e'.restarted == e.restarted && Queued(e'.lists, q) == [] && InFlight(e'.lists, q) == InFlight(e.lists, q)
    decreases script
  {
    if script != [] {
      AttemptMeaning(e, script[0], 0);
      hide XmitOne, Short, TooLong, NumberUsed;
      EmptyStaysEmpty(XmitOne(e, script[0]), script[1..], q);
    }
  }
}
