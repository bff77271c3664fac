/**
  Two online peers joined by one FIFO channel in each direction. A run is any interleaving of
  application calls, transmissions and deliveries. Every atomic handler of the library is a
  sequence of these steps, so what holds in every run here holds whatever the handlers do.
 */
module CreditRuns {
  import opened Words
  import opened Sums
  import opened FlowControl
  import opened Transmit

  /** A received message that the application has not yet answered or released. */
  datatype Held = Held(typ: MsgType, bytes: U64)

  datatype Peer = Peer(conn: Endpoint, held: seq<Held>)

  /** One peer with its two ends of the channels. */
  datatype Local = Local(me: Peer, inbox: seq<Packet>, outbox: seq<Packet>)

  datatype Action =
    | AppSend(m: Msg)                  // xio_send_request, xio_send_msg
    | AppRespond(i: nat, rsp: Msg)     // xio_send_response
    | AppRelease(i: nat)               // xio_release_msg, xio_release_response
    | Receipt(rsp: Msg)                // xio_connection_send_read_receipt
    | Keepalive(q: Queue)              // xio_connection_send_ka_req, ..._rsp
    | Transmit(q: Queue)
    | FlushOversized(q: Queue)
    | Deliver

  predicate Enabled(l: Local, a: Action) {
    var e := l.me.conn;
    match a
    case AppSend(m) => m.typ.Req? || m.typ.OneWayReq?
    case AppRespond(i, rsp) => i < |l.me.held| && l.me.held[i].typ.Req? && rsp.typ.Rsp? && rsp.last
    case AppRelease(i) => i < |l.me.held| && !l.me.held[i].typ.Req?
    case Receipt(rsp) => (rsp.typ.Rsp? || rsp.typ.OneWayRsp?) && rsp.bytes == 0 && rsp.first && !rsp.last
    case Keepalive(q) => true
    case Transmit(q) => Queued(e.lists, q) != [] && Admitted(e, Queued(e.lists, q)[0])
    case FlushOversized(q) => Queued(e.lists, q) != [] && Oversized(e, Queued(e.lists, q)[0])
    case Deliver => l.inbox != []
  }

  /** A stand-alone read receipt; the flags are only looked at in a response. */
  predicate ReceiptOnly(p: Packet) { IsResponse(p.typ) && p.standalone }

  /** Does the receiving application get to hold this packet's payload? */
  predicate IsHeld(p: Packet) { IsApplication(p.typ) && !ReceiptOnly(p) }

  function Enqueue(l: Local, q: Queue, ms: seq<Msg>): Local {
    l.(me := l.me.(conn := l.me.conn.(lists := SetQueued(l.me.conn.lists, q, ms))))
  }

  function LocalStep(l: Local, a: Action): Local
    requires Enabled(l, a)
  {
    var e := l.me.conn;
    match a
    case AppSend(m) => Enqueue(l, Requests, e.lists.reqs + [m])
    case AppRespond(i, rsp) =>
      l.(me := Peer(Respond(e, l.me.held[i].bytes, rsp), Without(l.me.held, i)))
    case AppRelease(i) =>
      l.(me := Peer(Release(e, l.me.held[i].bytes), Without(l.me.held, i)))
    case Receipt(rsp) => Enqueue(l, Responses, e.lists.rsps + [rsp])
    case Keepalive(q) =>
      Enqueue(l, q, [Msg(if q.Requests? then KaReq else KaRsp, 0, 0, false, false)] + Queued(e.lists, q))
    case Transmit(q) =>
      l.(me := l.me.(conn := SendHead(e, q)), outbox := l.outbox + [PacketFor(e, Queued(e.lists, q)[0])])
    case FlushOversized(q) => Enqueue(l, q, [])
    case Deliver =>
      var p := l.inbox[0];
      Local(Peer(OnPacket(e, p), if IsHeld(p) then l.me.held + [Held(p.typ, p.bytes)] else l.me.held),
            l.inbox[1..], l.outbox)
  }

  // ----- the two-peer system ---------------------------------------------------------------------

  datatype System = System(a: Peer, b: Peer, ab: seq<Packet>, ba: seq<Packet>)

  datatype Move = ByA(act: Action) | ByB(act: Action)

  function SideOf(s: System, mv: Move): Local {
    if mv.ByA? then Local(s.a, s.ba, s.ab) else Local(s.b, s.ab, s.ba)
  }

  predicate CanMove(s: System, mv: Move) { Enabled(SideOf(s, mv), mv.act) }

  function Step(s: System, mv: Move): System
    requires CanMove(s, mv)
  {
    var l := LocalStep(SideOf(s, mv), mv.act);
    if mv.ByA? then System(l.me, s.b, l.outbox, l.inbox) else System(s.a, l.me, l.inbox, l.outbox)
  }

  /** The queue depths each side advertised during session setup. */
  datatype Depths = Depths(msgsA: U16, bytesA: U64, msgsB: U16, bytesB: U64)

  function FreshPeer(peerMsgs: U16, peerBytes: U64, myMsgs: U16, myBytes: U64): Peer {
    Peer(Endpoint(Numbers(0, 0, 0xFFFF, 0, 0, 0xFFFF), Credits(0, 0, peerMsgs, peerBytes),
                  Limits(true, peerBytes, myMsgs / 2, myBytes / 2), Lists([], [], [], []), false), [])
  }

  /** Both sides online, credits initialised from the advertised depths, nothing in flight. */
  function Init(d: Depths): System {
    System(FreshPeer(d.msgsB, d.bytesB, d.msgsA, d.bytesA), FreshPeer(d.msgsA, d.bytesA, d.msgsB, d.bytesB), [], [])
  }

  predicate IsRun(d: Depths, states: seq<System>, moves: seq<Move>) {
    && |states| == |moves| + 1
    && states[0] == Init(d)
    && forall i :: 0 <= i < |moves| ==>
         CanMove(states[i], moves[i]) && states[i + 1] == Step(states[i], moves[i])
  }

  // ----- one direction: sender s, receiver r, wire sr to the receiver, rs back -------------------

  function ChargedBytes(p: Packet): nat { if IsApplication(p.typ) && !ReceiptOnly(p) then p.bytes else 0 }

  function ChargedMsgs(p: Packet): nat { if IsNumbered(p.typ) && !ReceiptOnly(p) then 1 else 0 }

  function RidingBytes(p: Packet): nat { if IsNumbered(p.typ) then p.creditsBytes else 0 }

  function RidingMsgs(p: Packet): nat { if IsNumbered(p.typ) then p.creditsMsgs else 0 }

  function HeldBytes(h: Held): nat { h.bytes }

  /** Every byte of the receiver's advertised queue is in exactly one of these five places. */
  function BytesAccount(s: Peer, r: Peer, sr: seq<Packet>, rs: seq<Packet>): nat {
    s.conn.cr.peerBytes + Total(ChargedBytes, sr) + Total(HeldBytes, r.held)
    + r.conn.cr.bytes + Total(RidingBytes, rs)
  }

  function MsgsAccount(s: Peer, r: Peer, sr: seq<Packet>, rs: seq<Packet>): nat {
    s.conn.cr.peerMsgs + Total(ChargedMsgs, sr) + |r.held|
    + r.conn.cr.msgs + Total(RidingMsgs, rs)
  }

  predicate NumberedRequest(p: Packet) { IsNumbered(p.typ) && IsRequest(p.typ) }

  predicate NumberedResponse(p: Packet) { IsNumbered(p.typ) && IsResponse(p.typ) }

  /** `k` numbers after `exp`, modulo 2^16. */
  function Later(exp: U16, k: nat): U16 { (exp + k) % TWO16 }

  /** The numbered packets in flight carry `exp`, `exp + 1`, ... up to just below `next`. */
  predicate Consecutive(w: seq<Packet>, exp: U16, next: U16) {
    && next == Later(exp, |w|)
    && forall k :: 0 <= k < |w| ==> w[k].sn == Later(exp, k)
  }

  predicate SnAgree(s: Numbers, r: Numbers, sr: seq<Packet>) {
    && Consecutive(Keep(NumberedRequest, sr), r.reqExpSn, s.reqSn)
    && Consecutive(Keep(NumberedResponse, sr), r.rspExpSn, s.rspSn)
    && r.reqAckSn == Dec16(r.reqExpSn)
    && r.rspAckSn == Dec16(r.rspExpSn)
  }

  predicate DirInv(s: Peer, r: Peer, sr: seq<Packet>, rs: seq<Packet>, depthBytes: U64, depthMsgs: U16) {
    && s.conn.lim.flowControl
    && SnAgree(s.conn.num, r.conn.num, sr)
    && BytesAccount(s, r, sr, rs) == depthBytes
    && Congruent16(MsgsAccount(s, r, sr, rs), depthMsgs)
  }

  predicate Inv(d: Depths, s: System) {
    && DirInv(s.a, s.b, s.ab, s.ba, d.bytesB, d.msgsB)
    && DirInv(s.b, s.a, s.ba, s.ab, d.bytesA, d.msgsA)
  }

  // ----- sequence numbers ------------------------------------------------------------------------

  lemma ConsecutivePop(w: seq<Packet>, exp: U16, next: U16)
    requires w != [] && Consecutive(w, exp, next)
    ensures w[0].sn == exp
    ensures Consecutive(w[1..], Inc16(exp), next)
  {
    assert w[0].sn == Later(exp, 0);
    forall k | 0 <= k < |w[1..]|
      ensures w[1..][k].sn == Later(Inc16(exp), k)
    {
      assert w[1..][k].sn == w[k + 1].sn == Later(exp, k + 1);
    }
  }

  lemma ConsecutivePush(w: seq<Packet>, exp: U16, next: U16, p: Packet)
    requires Consecutive(w, exp, next) && p.sn == next
    ensures Consecutive(w + [p], exp, Inc16(next))
  {
  }

  /** The head of a FIFO channel always carries the number its receiver expects. */
  lemma HeadIsExpected(s: Numbers, r: Numbers, sr: seq<Packet>)
    requires SnAgree(s, r, sr) && sr != []
    ensures NumberedRequest(sr[0]) ==>
              sr[0].sn == r.reqExpSn && Consecutive(Keep(NumberedRequest, sr[1..]), Inc16(r.reqExpSn), s.reqSn)
    ensures NumberedResponse(sr[0]) ==>
              sr[0].sn == r.rspExpSn && Consecutive(Keep(NumberedResponse, sr[1..]), Inc16(r.rspExpSn), s.rspSn)
  {
    var req, rsp := Keep(NumberedRequest, sr), Keep(NumberedResponse, sr);
    if NumberedRequest(sr[0]) {
      assert req[0] == sr[0] && req[1..] == Keep(NumberedRequest, sr[1..]);
      ConsecutivePop(req, r.reqExpSn, s.reqSn);
    }
    if NumberedResponse(sr[0]) {
      assert rsp[0] == sr[0] && rsp[1..] == Keep(NumberedResponse, sr[1..]);
      ConsecutivePop(rsp, r.rspExpSn, s.rspSn);
    }
  }

  lemma SnAfterDeliver(s: Numbers, r: Endpoint, sr: seq<Packet>)
    requires SnAgree(s, r.num, sr) && sr != [] && r.lim.flowControl
    ensures SnAgree(s, OnPacket(r, sr[0]).num, sr[1..])
  {
    HeadIsExpected(s, r.num, sr);
    if !NumberedRequest(sr[0]) {
      assert Keep(NumberedRequest, sr) == Keep(NumberedRequest, sr[1..]);
    }
    if !NumberedResponse(sr[0]) {
      assert Keep(NumberedResponse, sr) == Keep(NumberedResponse, sr[1..]);
    }
  }

  lemma SnAfterTransmit(s: Endpoint, r: Numbers, sr: seq<Packet>, m: Msg)
    requires SnAgree(s.num, r, sr)
    ensures SnAgree(NumberOne(s.num, m.typ), r, sr + [PacketFor(s, m)])
  {
    var p := PacketFor(s, m);
    KeepAppend(NumberedRequest, sr, p);
    KeepAppend(NumberedResponse, sr, p);
    if NumberedRequest(p) {
      ConsecutivePush(Keep(NumberedRequest, sr), r.reqExpSn, s.num.reqSn, p);
    }
    if NumberedResponse(p) {
      ConsecutivePush(Keep(NumberedResponse, sr), r.rspExpSn, s.num.rspSn, p);
    }
  }

  lemma StepSn(l: Local, a: Action, o: Numbers)
    requires Enabled(l, a) && l.me.conn.lim.flowControl
    requires SnAgree(o, l.me.conn.num, l.inbox)
    requires SnAgree(l.me.conn.num, o, l.outbox)
    ensures var l' := LocalStep(l, a);
      && SnAgree(o, l'.me.conn.num, l'.inbox)
      && SnAgree(l'.me.conn.num, o, l'.outbox)
      && l'.me.conn.lim.flowControl
  {
    var e := l.me.conn;
    match a
    case Transmit(q) =>
      SnAfterTransmit(e, o, l.outbox, Queued(e.lists, q)[0]);
      SnDependsOnExpected(o, e.num, LocalStep(l, a).me.conn.num, l.inbox);
    case Deliver =>
      SnAfterDeliver(o, e, l.inbox);
      SnDependsOnNext(e.num, LocalStep(l, a).me.conn.num, o, l.outbox);
    case _ =>
      assert LocalStep(l, a).me.conn.num == e.num;
  }

  lemma SnDependsOnExpected(s: Numbers, r: Numbers, r': Numbers, w: seq<Packet>)
    requires SnAgree(s, r, w)
    requires r' == r.(reqSn := r'.reqSn, rspSn := r'.rspSn)
    ensures SnAgree(s, r', w)
  {
  }

  lemma SnDependsOnNext(s: Numbers, s': Numbers, r: Numbers, w: seq<Packet>)
    requires SnAgree(s, r, w)
    requires s'.reqSn == s.reqSn && s'.rspSn == s.rspSn
    ensures SnAgree(s', r, w)
  {
  }

  // ----- accounts --------------------------------------------------------------------------------

  lemma TransmitTotals(sr: seq<Packet>, p: Packet)
    ensures Total(ChargedBytes, sr + [p]) == Total(ChargedBytes, sr) + ChargedBytes(p)
    ensures Total(ChargedMsgs, sr + [p]) == Total(ChargedMsgs, sr) + ChargedMsgs(p)
    ensures Total(RidingBytes, sr + [p]) == Total(RidingBytes, sr) + RidingBytes(p)
    ensures Total(RidingMsgs, sr + [p]) == Total(RidingMsgs, sr) + RidingMsgs(p)
  {
    TotalAppend(ChargedBytes, sr, p);
    TotalAppend(ChargedMsgs, sr, p);
    TotalAppend(RidingBytes, sr, p);
    TotalAppend(RidingMsgs, sr, p);
  }

  /** The one send that is charged without a credit to pay for it. */
  predicate AckAtZero(l: Local, a: Action) {
    && a.Transmit?
    && Queued(l.me.conn.lists, a.q) != []
    && Queued(l.me.conn.lists, a.q)[0].typ.AckReq?
    && l.me.conn.cr.peerMsgs == 0
  }

  /** `y` is `x`, or `x` less one turn of a 16-bit counter; the latter only when `x` is out of range. */
  predicate SameOrWrapped(x: int, y: int) { y == x || (y == x - TWO16 && TWO16 <= x) }

  lemma TransmitAccounts(l: Local, q: Queue, o: Peer)
    requires Enabled(l, Transmit(q)) && l.me.conn.lim.flowControl
    ensures var l' := LocalStep(l, Transmit(q));
      && BytesAccount(l'.me, o, l'.outbox, l'.inbox) == BytesAccount(l.me, o, l.outbox, l.inbox)
      && BytesAccount(o, l'.me, l'.inbox, l'.outbox) == BytesAccount(o, l.me, l.inbox, l.outbox)
      && MsgsAccount(o, l'.me, l'.inbox, l'.outbox) == MsgsAccount(o, l.me, l.inbox, l.outbox)
      && MsgsAccount(l'.me, o, l'.outbox, l'.inbox)
         == MsgsAccount(l.me, o, l.outbox, l.inbox) + if AckAtZero(l, Transmit(q)) then TWO16 else 0
  {
    TransmitTotals(l.outbox, PacketFor(l.me.conn, Queued(l.me.conn.lists, q)[0]));
  }

  lemma DeliverAccounts(l: Local, o: Peer)
    requires Enabled(l, Deliver) && l.me.conn.lim.flowControl
    requires SnAgree(o.conn.num, l.me.conn.num, l.inbox)
    requires BytesAccount(l.me, o, l.outbox, l.inbox) < TWO64
    ensures var l' := LocalStep(l, Deliver);
      && BytesAccount(l'.me, o, l'.outbox, l'.inbox) == BytesAccount(l.me, o, l.outbox, l.inbox)
      && BytesAccount(o, l'.me, l'.inbox, l'.outbox) == BytesAccount(o, l.me, l.inbox, l.outbox)
      && SameOrWrapped(MsgsAccount(l.me, o, l.outbox, l.inbox), MsgsAccount(l'.me, o, l'.outbox, l'.inbox))
      && SameOrWrapped(MsgsAccount(o, l.me, l.inbox, l.outbox), MsgsAccount(o, l'.me, l'.inbox, l'.outbox))
  {
    var p := l.inbox[0];
    HeadIsExpected(o.conn.num, l.me.conn.num, l.inbox);
    TotalAppend(HeldBytes, l.me.held, Held(p.typ, p.bytes));
  }

  function GivenBack(p: Peer, i: nat): Peer
    requires i < |p.held|
  {
    Peer(p.conn.(cr := GiveBack(p.conn.cr, p.held[i].bytes)), Without(p.held, i))
  }

  lemma GiveBackAccounts(l: Local, i: nat, o: Peer)
    requires i < |l.me.held| && l.me.conn.lim.flowControl
    requires BytesAccount(o, l.me, l.inbox, l.outbox) < TWO64
    ensures var me' := GivenBack(l.me, i);
      && BytesAccount(me', o, l.outbox, l.inbox) == BytesAccount(l.me, o, l.outbox, l.inbox)
      && BytesAccount(o, me', l.inbox, l.outbox) == BytesAccount(o, l.me, l.inbox, l.outbox)
      && MsgsAccount(me', o, l.outbox, l.inbox) == MsgsAccount(l.me, o, l.outbox, l.inbox)
      && SameOrWrapped(MsgsAccount(o, l.me, l.inbox, l.outbox), MsgsAccount(o, me', l.inbox, l.outbox))
  {
    TotalWithout(HeldBytes, l.me.held, i);
  }

  // ----- every step, every run -------------------------------------------------------------------

  lemma QueueingKeeps(l: Local, c: Endpoint, o: Peer)
    requires c.cr == l.me.conn.cr
    ensures var me' := l.me.(conn := c);
      && BytesAccount(me', o, l.outbox, l.inbox) == BytesAccount(l.me, o, l.outbox, l.inbox)
      && BytesAccount(o, me', l.inbox, l.outbox) == BytesAccount(o, l.me, l.inbox, l.outbox)
      && MsgsAccount(me', o, l.outbox, l.inbox) == MsgsAccount(l.me, o, l.outbox, l.inbox)
      && MsgsAccount(o, me', l.inbox, l.outbox) == MsgsAccount(o, l.me, l.inbox, l.outbox)
  {
  }

  /** What one step does to the accounts of both directions. */
  lemma StepAccounts(l: Local, a: Action, o: Peer)
    requires Enabled(l, a) && l.me.conn.lim.flowControl
    requires SnAgree(o.conn.num, l.me.conn.num, l.inbox)
    requires BytesAccount(l.me, o, l.outbox, l.inbox) < TWO64
    requires BytesAccount(o, l.me, l.inbox, l.outbox) < TWO64
    ensures var l' := LocalStep(l, a);
      && BytesAccount(l'.me, o, l'.outbox, l'.inbox) == BytesAccount(l.me, o, l.outbox, l.inbox)
      && BytesAccount(o, l'.me, l'.inbox, l'.outbox) == BytesAccount(o, l.me, l.inbox, l.outbox)
      && SameOrWrapped(MsgsAccount(o, l.me, l.inbox, l.outbox), MsgsAccount(o, l'.me, l'.inbox, l'.outbox))
      && (if AckAtZero(l, a)
          then MsgsAccount(l'.me, o, l'.outbox, l'.inbox) == MsgsAccount(l.me, o, l.outbox, l.inbox) + TWO16
          else SameOrWrapped(MsgsAccount(l.me, o, l.outbox, l.inbox), MsgsAccount(l'.me, o, l'.outbox, l'.inbox)))
  {
    var l' := LocalStep(l, a);
    match a
    case Transmit(q) => TransmitAccounts(l, q, o);
    case Deliver => DeliverAccounts(l, o);
    case AppRespond(i, rsp) =>
      GiveBackAccounts(l, i, o);
      QueueingKeeps(l.(me := GivenBack(l.me, i)), l'.me.conn, o);
    case AppRelease(i) =>
      GiveBackAccounts(l, i, o);
      QueueingKeeps(l.(me := GivenBack(l.me, i)), l'.me.conn, o);
    case AppSend(m) => QueueingKeeps(l, l'.me.conn, o);
    case Receipt(rsp) => QueueingKeeps(l, l'.me.conn, o);
    case Keepalive(q) => QueueingKeeps(l, l'.me.conn, o);
    case FlushOversized(q) => QueueingKeeps(l, l'.me.conn, o);
  }

  lemma StepInv(d: Depths, s: System, mv: Move)
    requires Inv(d, s) && CanMove(s, mv)
    ensures Inv(d, Step(s, mv))
  {
    var l, o := SideOf(s, mv), if mv.ByA? then s.b else s.a;
    var l' := LocalStep(l, mv.act);
    StepAccounts(l, mv.act, o);
    StepSn(l, mv.act, o.conn.num);
    var out, back := if mv.ByA? then d.msgsB else d.msgsA, if mv.ByA? then d.msgsA else d.msgsB;
    CongruentShift(MsgsAccount(l.me, o, l.outbox, l.inbox), MsgsAccount(l'.me, o, l'.outbox, l'.inbox), out);
    CongruentShift(MsgsAccount(o, l.me, l.inbox, l.outbox), MsgsAccount(o, l'.me, l'.inbox, l'.outbox), back);
  }

  lemma {:induction false} RunInv(d: Depths, states: seq<System>, moves: seq<Move>, i: nat)
    requires IsRun(d, states, moves) && i < |states|
    ensures Inv(d, states[i])
  {
    if i > 0 {
      RunInv(d, states, moves, i - 1);
      StepInv(d, states[i - 1], moves[i - 1]);
    }
  }

  /** Bytes: conserved in each direction of every run; so what is in flight or held never exceeds the
      depth the receiver advertised. */
  lemma BytesConserved(d: Depths, states: seq<System>, moves: seq<Move>, i: nat)
    requires IsRun(d, states, moves) && i < |states|
    ensures var s := states[i];
      && BytesAccount(s.a, s.b, s.ab, s.ba) == d.bytesB
      && BytesAccount(s.b, s.a, s.ba, s.ab) == d.bytesA
      && Total(ChargedBytes, s.ab) + Total(HeldBytes, s.b.held) <= d.bytesB
      && Total(ChargedBytes, s.ba) + Total(HeldBytes, s.a.held) <= d.bytesA
  {
    RunInv(d, states, moves, i);
  }

  /** Sequence numbers: the k-th numbered packet in flight carries the receiver's expected number
      plus k, so the receiver's test never fails, and the acknowledged number is one behind. */
  lemma SequenceAgreement(d: Depths, states: seq<System>, moves: seq<Move>, i: nat)
    requires IsRun(d, states, moves) && i < |states|
    ensures var s := states[i]; SnAgree(s.a.conn.num, s.b.conn.num, s.ab) && SnAgree(s.b.conn.num, s.a.conn.num, s.ba)
    ensures var w := states[i].ab; w != [] && NumberedRequest(w[0]) ==> w[0].sn == states[i].b.conn.num.reqExpSn
    ensures var w := states[i].ab; w != [] && NumberedResponse(w[0]) ==> w[0].sn == states[i].b.conn.num.rspExpSn
    ensures var w := states[i].ba; w != [] && NumberedRequest(w[0]) ==> w[0].sn == states[i].a.conn.num.reqExpSn
    ensures var w := states[i].ba; w != [] && NumberedResponse(w[0]) ==> w[0].sn == states[i].a.conn.num.rspExpSn
  {
    RunInv(d, states, moves, i);
    var s := states[i];
    if s.ab != [] { HeadIsExpected(s.a.conn.num, s.b.conn.num, s.ab); }
    if s.ba != [] { HeadIsExpected(s.b.conn.num, s.a.conn.num, s.ba); }
  }

  /** Messages: conserved modulo 2^16 in every run. */
  lemma MsgsConservedModulo(d: Depths, states: seq<System>, moves: seq<Move>, i: nat)
    requires IsRun(d, states, moves) && i < |states|
    ensures var s := states[i];
      && MsgsAccount(s.a, s.b, s.ab, s.ba) % TWO16 == d.msgsB
      && MsgsAccount(s.b, s.a, s.ba, s.ab) % TWO16 == d.msgsA
  {
    RunInv(d, states, moves, i);
    var s := states[i];
    CongruentIsMod(MsgsAccount(s.a, s.b, s.ab, s.ba), d.msgsB);
    CongruentIsMod(MsgsAccount(s.b, s.a, s.ba, s.ab), d.msgsA);
  }

  predicate MsgsExact(d: Depths, s: System) {
    && MsgsAccount(s.a, s.b, s.ab, s.ba) == d.msgsB
    && MsgsAccount(s.b, s.a, s.ba, s.ab) == d.msgsA
  }

  predicate PaysWithNothing(s: System, mv: Move) { AckAtZero(SideOf(s, mv), mv.act) }

  lemma StepExact(d: Depths, s: System, mv: Move)
    requires Inv(d, s) && CanMove(s, mv) && MsgsExact(d, s)
    ensures MsgsExact(d, Step(s, mv)) <==> !PaysWithNothing(s, mv)
  {
    StepAccounts(SideOf(s, mv), mv.act, if mv.ByA? then s.b else s.a);
  }

  lemma {:induction false} ExactUpTo(d: Depths, states: seq<System>, moves: seq<Move>, i: nat)
    requires IsRun(d, states, moves) && i < |states|
    requires forall j :: 0 <= j < i ==> !PaysWithNothing(states[j], moves[j])
    ensures MsgsExact(d, states[i])
  {
    if i > 0 {
      ExactUpTo(d, states, moves, i - 1);
      RunInv(d, states, moves, i - 1);
      StepExact(d, states[i - 1], moves[i - 1]);
    }
  }

  /** Messages: conserved exactly throughout a run if and only if no credits ack in it was sent at
      zero peer credits. */
  lemma MsgsConservedExactly(d: Depths, states: seq<System>, moves: seq<Move>)
    requires IsRun(d, states, moves)
    ensures (forall i :: 0 <= i < |states| ==> MsgsExact(d, states[i]))
            <==> (forall j :: 0 <= j < |moves| ==> !PaysWithNothing(states[j], moves[j]))
  {
    if forall j :: 0 <= j < |moves| ==> !PaysWithNothing(states[j], moves[j]) {
      forall i | 0 <= i < |states| ensures MsgsExact(d, states[i]) {
        ExactUpTo(d, states, moves, i);
      }
    }
    if forall i :: 0 <= i < |states| ==> MsgsExact(d, states[i]) {
      forall j | 0 <= j < |moves| ensures !PaysWithNothing(states[j], moves[j]) {
        RunInv(d, states, moves, j);
        StepExact(d, states[j], moves[j]);
        assert MsgsExact(d, states[j + 1]);
      }
    }
  }

  // ----- atomic handlers are runs ----------------------------------------------------------------

  function MoveOf(byA: bool, act: Action): Move { if byA then ByA(act) else ByB(act) }

  function ConnOf(s: System, byA: bool): Endpoint { if byA then s.a.conn else s.b.conn }

  /** One side's connection replaced, and packets added to its wire. */
  function Put(s: System, byA: bool, c: Endpoint, w: seq<Packet>): System {
    if byA then s.(a := s.a.(conn := c), ab := s.ab + w) else s.(b := s.b.(conn := c), ba := s.ba + w)
  }

  lemma PutPut(s: System, byA: bool, c1: Endpoint, w1: seq<Packet>, c2: Endpoint, w2: seq<Packet>)
    ensures Put(Put(s, byA, c1, w1), byA, c2, w2) == Put(s, byA, c2, w1 + w2)
  {
    assert s.ab + (w1 + w2) == (s.ab + w1) + w2;
    assert s.ba + (w1 + w2) == (s.ba + w1) + w2;
  }

  /** The system after one side has made the attempts of `script`. */
  function AfterXmit(s: System, byA: bool, script: seq<Attempt>): System {
    Put(s, byA, XmitMany(ConnOf(s, byA), script), PacketsOf(ConnOf(s, byA), script))
  }

  lemma AfterXmitCompose(s: System, byA: bool, x: seq<Attempt>, y: seq<Attempt>)
    ensures AfterXmit(AfterXmit(s, byA, x), byA, y) == AfterXmit(s, byA, x + y)
  {
    var e := ConnOf(s, byA);
    XmitManyConcat(e, x, y);
    var e1 := XmitMany(e, x);
    PutPut(s, byA, e1, PacketsOf(e, x), XmitMany(e1, y), PacketsOf(e1, y));
  }

  lemma AttemptIsAStep(s: System, byA: bool, q: Queue) returns (acts: seq<Action>)
    ensures |acts| <= 1
    ensures acts == [] ==> AfterXmit(s, byA, [Attempt(q, Accept)]) == s
    ensures |acts| == 1 ==> CanMove(s, MoveOf(byA, acts[0]))
                            && Step(s, MoveOf(byA, acts[0])) == AfterXmit(s, byA, [Attempt(q, Accept)])
  {
    var e, a := ConnOf(s, byA), Attempt(q, Accept);
    XmitManySingle(e, a);
    acts := if Stuck(e, q) then []
            else if Oversized(e, Queued(e.lists, q)[0]) then [FlushOversized(q)] else [Action.Transmit(q)];
  }

  /** A whole `xio_connection_xmit` on an accepting transport extends a run, step by step. */
  lemma {:induction false} XmitExtendsRun(d: Depths, states: seq<System>, moves: seq<Move>,
                                          byA: bool, script: seq<Attempt>)
    returns (t: seq<System>, n: seq<Move>)
    requires IsRun(d, states, moves) && AllAccepted(script)
    ensures IsRun(d, t, n) && Last(t) == AfterXmit(Last(states), byA, script)
    decreases script
  {
    t, n := states, moves;
    var s := Last(states);
    if script != [] {
      var a := script[0];
      assert a == Attempt(a.q, Accept);
      var acts := AttemptIsAStep(s, byA, a.q);
      if acts != [] { t, n := Extend(d, states, moves, MoveOf(byA, acts[0])); }
      t, n := XmitExtendsRun(d, t, n, byA, script[1..]);
      assert script == [a] + script[1..];
      AfterXmitCompose(s, byA, [a], script[1..]);
    } else {
      assert AfterXmit(s, byA, []) == s;
    }
  }

  function HeldBy(s: System, byA: bool): seq<Held> { if byA then s.a.held else s.b.held }

  function WireOf(s: System, byA: bool): seq<Packet> { if byA then s.ab else s.ba }

  /** What an application call does to the connection before it transmits. */
  function Called(e: Endpoint, held: seq<Held>, act: Action): Endpoint
    requires (act.AppRespond? || act.AppRelease?) ==> act.i < |held|
  {
    match act
    case AppSend(m) => e.(lists := e.lists.(reqs := e.lists.reqs + [m]))
    case AppRespond(i, rsp) => Respond(e, held[i].bytes, rsp)
    case AppRelease(i) => Release(e, held[i].bytes)
    case _ => e
  }

  /** Application calls as they are in the connection object, atomic with the transmission that follows,
      extend a run: after one, that side's connection and wire are what `SendResponse` and `ReleaseMsg`
      promise, and the message answered or released is no longer held. So the laws of runs hold between
      any two such calls. */
  lemma HandlerExtendsRun(d: Depths, states: seq<System>, moves: seq<Move>,
                          byA: bool, act: Action, script: seq<Attempt>)
    returns (t: seq<System>, n: seq<Move>)
    requires IsRun(d, states, moves) && AllAccepted(script)
    requires (act.AppSend? || act.AppRespond? || act.AppRelease?) && CanMove(Last(states), MoveOf(byA, act))
    ensures IsRun(d, t, n)
    ensures var s := Last(states); var e := Called(ConnOf(s, byA), HeldBy(s, byA), act);
      && ConnOf(Last(t), byA) == XmitMany(e, script)
      && WireOf(Last(t), byA) == WireOf(s, byA) + PacketsOf(e, script)
      && ConnOf(Last(t), !byA) == ConnOf(s, !byA) && WireOf(Last(t), !byA) == WireOf(s, !byA)
      && HeldBy(Last(t), byA) == (if act.AppSend? then HeldBy(s, byA) else Without(HeldBy(s, byA), act.i))
      && HeldBy(Last(t), !byA) == HeldBy(s, !byA)
  {
    var s := Last(states);
    t, n := Extend(d, states, moves, MoveOf(byA, act));
    CallIsAStep(s, byA, act);
    t, n := XmitExtendsRun(d, t, n, byA, script);
  }

  lemma CallIsAStep(s: System, byA: bool, act: Action)
    requires (act.AppSend? || act.AppRespond? || act.AppRelease?) && CanMove(s, MoveOf(byA, act))
    ensures var s' := Step(s, MoveOf(byA, act));
      && ConnOf(s', byA) == Called(ConnOf(s, byA), HeldBy(s, byA), act) && WireOf(s', byA) == WireOf(s, byA)
      && ConnOf(s', !byA) == ConnOf(s, !byA) && WireOf(s', !byA) == WireOf(s, !byA)
      && HeldBy(s', byA) == (if act.AppSend? then HeldBy(s, byA) else Without(HeldBy(s, byA), act.i))
      && HeldBy(s', !byA) == HeldBy(s, !byA)
  {
  }

  // ----- such an ack can be sent -----------------------------------------------------------------

  function Last(states: seq<System>): System
    requires states != []
  {
    states[|states| - 1]
  }

  lemma Extend(d: Depths, states: seq<System>, moves: seq<Move>, mv: Move) returns (t: seq<System>, n: seq<Move>)
    requires IsRun(d, states, moves) && CanMove(Last(states), mv)
    ensures IsRun(d, t, n) && Last(t) == Step(Last(states), mv)
    ensures t == states + [Last(t)] && n == moves + [mv]
  {
    t, n := states + [Step(Last(states), mv)], moves + [mv];
  }

  const EmptyOneWay: Msg := Msg(OneWayReq, 1, 0, false, false)

  /** A peer with an empty request queue and credit for one message. */
  predicate CanSpend(p: Peer) {
    p.conn.lim.flowControl && p.conn.lists.reqs == [] && p.conn.cr.peerMsgs == 1
  }

  lemma SpendByA(d: Depths, states: seq<System>, moves: seq<Move>) returns (t: seq<System>, n: seq<Move>)
    requires IsRun(d, states, moves) && CanSpend(Last(states).a)
    ensures IsRun(d, t, n)
    ensures var c, c' := Last(states).a.conn, Last(t).a.conn;
      && c'.lim == c.lim && c'.lists.reqs == [] && c'.cr.msgs == c'.cr.bytes == c'.cr.peerMsgs == 0
      && c'.num.reqExpSn == c.num.reqExpSn
    ensures Last(t).a.held == Last(states).a.held && Last(t).b == Last(states).b && Last(t).ba == Last(states).ba
  {
    t, n := Extend(d, states, moves, ByA(AppSend(EmptyOneWay)));
    t, n := Extend(d, t, n, ByA(Transmit(Requests)));
  }

  lemma SpendByB(d: Depths, states: seq<System>, moves: seq<Move>) returns (t: seq<System>, n: seq<Move>)
    requires IsRun(d, states, moves) && CanSpend(Last(states).b)
    ensures IsRun(d, t, n) && Last(t).a == Last(states).a
    ensures Last(t).ba == Last(states).ba + [PacketFor(Last(states).b.conn, EmptyOneWay)]
  {
    t, n := Extend(d, states, moves, ByB(AppSend(EmptyOneWay)));
    t, n := Extend(d, t, n, ByB(Transmit(Requests)));
  }

  /** With depth one, A spends its only credit, takes in a message from B and releases it. The ack
      that follows leaves A with 65535 credits to send. */
  lemma AckCanOverdraw() returns (states: seq<System>, moves: seq<Move>)
    ensures var d := Depths(1, 1, 1, 1);
      && IsRun(d, states, moves)
      && (exists j :: 0 <= j < |moves| && PaysWithNothing(states[j], moves[j]))
      && Last(states).a.conn.cr.peerMsgs == 0xFFFF
      && !MsgsExact(d, Last(states))
  {
    var d := Depths(1, 1, 1, 1);
    states, moves := [Init(d)], [];
    states, moves := SpendByA(d, states, moves);
    states, moves := SpendByB(d, states, moves);
    states, moves := Extend(d, states, moves, ByA(Deliver));
    assert Last(states).a.held == [Held(OneWayReq, 0)];
    states, moves := Extend(d, states, moves, ByA(AppRelease(0)));
    assert Last(states).a.conn.lists.reqs == [CreditsAck];
    var j := |moves|;
    var before := Last(states);
    assert PaysWithNothing(before, ByA(Transmit(Requests)));
    states, moves := Extend(d, states, moves, ByA(Transmit(Requests)));
    assert states[j] == before && PaysWithNothing(states[j], moves[j]);
    assert Last(states).a.conn.cr.peerMsgs == 0xFFFF;
  }
}
