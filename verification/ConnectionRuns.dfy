/**
  Two connection objects driven against each other in place. Each reads what the other has put on its
  wire, in order, and whatever is proved of runs holds of the objects.
 */
module ConnectionRuns {
  import opened Words
  import opened Sums
  import opened FlowControl
  import opened Transmit
  import opened ConnectionObject
  import C = CreditRuns

  /** A connection with what its application holds, and how much of the other side's wire it has taken. */
  class Side {
    const conn: Connection
    var held: seq<C.Held>
    var taken: nat

    constructor (c: Connection)
      ensures conn == c && held == [] && taken == 0
    {
      conn, held, taken := c, [], 0;
    }
  }

  predicate Apart(me: Side, other: Side)
    reads me, other, me.conn, other.conn
  {
    me != other && me.conn != other.conn && me.taken <= |other.conn.wire| && other.taken <= |me.conn.wire|
  }

  /** One side with its two ends of the channels. */
  function LocalView(me: Side, other: Side): C.Local
    requires Apart(me, other)
    reads me, other, me.conn, other.conn
  {
    C.Local(C.Peer(me.conn.View(), me.held), other.conn.wire[me.taken..], me.conn.wire[other.taken..])
  }

  function SystemView(a: Side, b: Side): C.System
    requires Apart(a, b)
    reads a, b, a.conn, b.conn
  {
    C.System(C.Peer(a.conn.View(), a.held), C.Peer(b.conn.View(), b.held),
             a.conn.wire[b.taken..], b.conn.wire[a.taken..])
  }

  lemma SentMore(w: seq<Packet>, k: nat, p: seq<Packet>)
    requires k <= |w|
    ensures (w + p)[k..] == w[k..] + p
  {
  }

  lemma TakenOne(w: seq<Packet>, k: nat)
    requires k < |w|
    ensures w[k..][0] == w[k] && w[k..][1..] == w[k + 1..]
  {
  }

  /** The head of a queue is handed to an accepting transport. */
  lemma SendsHead(e: Endpoint, q: Queue)
    requires Queued(e.lists, q) != []
    ensures Admitted(e, Queued(e.lists, q)[0]) ==>
              XmitOne(e, Attempt(q, Accept)) == SendHead(e, q)
              && PacketsOfOne(e, Attempt(q, Accept)) == [PacketFor(e, Queued(e.lists, q)[0])]
    ensures Oversized(e, Queued(e.lists, q)[0]) ==>
              XmitOne(e, Attempt(q, Accept)) == e.(lists := SetQueued(e.lists, q, []))
              && PacketsOfOne(e, Attempt(q, Accept)) == []
  {
  }

  method TakeTransmit(me: Side, ghost other: Side, q: Queue, ghost act: C.Action)
    requires Apart(me, other) && (act == C.Transmit(q) || act == C.FlushOversized(q))
    requires C.Enabled(LocalView(me, other), act)
    modifies me.conn
    ensures Apart(me, other) && LocalView(me, other) == C.LocalStep(old(LocalView(me, other)), act)
  {
    hide Admitted, Oversized, XmitOne, PacketsOfOne, SendHead, PacketFor;
    ghost var e, w := me.conn.View(), me.conn.wire;
    SendsHead(e, q);
    SentMore(w, other.taken, PacketsOfOne(e, Attempt(q, Accept)));
    var _, _ := me.conn.XmitInl(q, Accept, 0);
    assert w[other.taken..] + [] == w[other.taken..];
  }

  method TakePacket(me: Side, other: Side)
    requires Apart(me, other) && C.Enabled(LocalView(me, other), C.Deliver)
    modifies me, me.conn
    ensures Apart(me, other) && LocalView(me, other) == C.LocalStep(old(LocalView(me, other)), C.Deliver)
  {
    TakenOne(other.conn.wire, me.taken);
    hide FlowControl.OnReqRecv, FlowControl.OnRspRecv, OnAckRecv;
    var p := other.conn.wire[me.taken];
    me.taken := me.taken + 1;
    Dispatch(me.conn, p);
    if C.IsHeld(p) { me.held := me.held + [C.Held(p.typ, p.bytes)]; }
  }

  /** Which handler a packet goes to. */
  method Dispatch(conn: Connection, p: Packet)
    modifies conn
    ensures conn.View() == OnPacket(old(conn.View()), p) && conn.wire == old(conn.wire)
  {
    hide FlowControl.OnReqRecv, FlowControl.OnRspRecv, OnAckRecv;
    match p.typ
    case Req => conn.OnReqRecv(p);
    case OneWayReq => conn.OnReqRecv(p);
    case Rsp => conn.OnRspRecv(p);
    case OneWayRsp => conn.OnRspRecv(p);
    case AckReq => conn.OnCreditsAckRecv(p);
    case _ =>
  }

  /** Any step of one side, by the methods of its connection. */
  method Act(me: Side, other: Side, act: C.Action)
    requires Apart(me, other) && C.Enabled(LocalView(me, other), act)
    modifies me, me.conn
    ensures Apart(me, other) && LocalView(me, other) == C.LocalStep(old(LocalView(me, other)), act)
  {
    hide Admitted, Oversized, Respond, Release, OnPacket, SendHead, PacketFor;
    match act
    case AppSend(m) => me.conn.SetQueue(Requests, me.conn.reqsMsgq + [m]);
    case AppRespond(i, rsp) =>
      me.conn.QueueResponse(me.held[i].bytes, rsp);
      me.held := Without(me.held, i);
    case AppRelease(i) =>
      var _ := me.conn.QueueRelease(me.held[i].bytes);
      me.held := Without(me.held, i);
    case Receipt(rsp) => me.conn.SetQueue(Responses, me.conn.rspsMsgq + [rsp]);
    case Keepalive(q) =>
      var ka := Msg(if q.Requests? then KaReq else KaRsp, 0, 0, false, false);
      me.conn.SetQueue(q, [ka] + if q.Requests? then me.conn.reqsMsgq else me.conn.rspsMsgq);
    case Transmit(q) => TakeTransmit(me, other, q, act);
    case FlushOversized(q) => TakeTransmit(me, other, q, act);
    case Deliver => TakePacket(me, other);
  }

  /** One move of the pair, in place. */
  method TakeMove(a: Side, b: Side, m: C.Move)
    requires Apart(a, b) && C.CanMove(SystemView(a, b), m)
    modifies a, a.conn, b, b.conn
    ensures Apart(a, b) && SystemView(a, b) == C.Step(old(SystemView(a, b)), m)
  {
    hide C.Enabled, C.LocalStep, Connection.View;
    if m.ByA? { Act(a, b, m.act); } else { Act(b, a, m.act); }
  }

  /** Both connections online, credits initialised from the advertised depths, nothing sent or held. */
  ghost predicate Fresh(a: Side, b: Side, d: C.Depths)
    reads a, b, a.conn, b.conn
  {
    Apart(a, b) && SystemView(a, b) == C.Init(d)
  }

  /** What the laws of runs say of the two objects: every byte of the queue depth each side advertised is in
      one of five places, message credits add up modulo 2^16, and packets on the wires carry the numbers
      their receivers expect. */
  ghost predicate Lawful(a: Side, b: Side, d: C.Depths)
    requires Apart(a, b)
    reads a, b, a.conn, b.conn
  {
    var s := SystemView(a, b);
    && a.conn.peerCreditsBytes + Total(C.ChargedBytes, s.ab) + Total(C.HeldBytes, b.held)
       + b.conn.creditsBytes + Total(C.RidingBytes, s.ba) == d.bytesB
    && b.conn.peerCreditsBytes + Total(C.ChargedBytes, s.ba) + Total(C.HeldBytes, a.held)
       + a.conn.creditsBytes + Total(C.RidingBytes, s.ab) == d.bytesA
    && (a.conn.peerCreditsMsgs + Total(C.ChargedMsgs, s.ab) + |b.held|
        + b.conn.creditsMsgs + Total(C.RidingMsgs, s.ba)) % TWO16 == d.msgsB
    && (b.conn.peerCreditsMsgs + Total(C.ChargedMsgs, s.ba) + |a.held|
        + a.conn.creditsMsgs + Total(C.RidingMsgs, s.ab)) % TWO16 == d.msgsA
    && C.SnAgree(a.conn.NumbersView(), b.conn.NumbersView(), s.ab)
    && C.SnAgree(b.conn.NumbersView(), a.conn.NumbersView(), s.ba)
  }

  lemma RunIsLawful(a: Side, b: Side, d: C.Depths, states: seq<C.System>, moves: seq<C.Move>)
    requires Apart(a, b) && C.IsRun(d, states, moves) && C.Last(states) == SystemView(a, b)
    ensures Lawful(a, b, d)
  {
    C.BytesConserved(d, states, moves, |moves|);
    C.MsgsConservedModulo(d, states, moves, |moves|);
    C.SequenceAgreement(d, states, moves, |moves|);
    hide C.IsRun, C.SnAgree, Total;
  }

  /** Two fresh connections and any schedule of application calls, transmissions and deliveries, what is not
      possible left out. */
  method RunPeers(a: Side, b: Side, d: C.Depths, schedule: seq<C.Move>)
    returns (ghost states: seq<C.System>, ghost moves: seq<C.Move>)
    requires Fresh(a, b, d)
    modifies a, a.conn, b, b.conn
    ensures Apart(a, b) && C.IsRun(d, states, moves) && C.Last(states) == SystemView(a, b)
    ensures Lawful(a, b, d)
  {
    hide C.Enabled, C.Step, Connection.View, Lawful, C.Init;
    states, moves := [SystemView(a, b)], [];
    for i := 0 to |schedule|
      invariant Apart(a, b) && C.IsRun(d, states, moves) && C.Last(states) == SystemView(a, b)
    {
      if C.CanMove(SystemView(a, b), schedule[i]) {
        states, moves := C.Extend(d, states, moves, schedule[i]);
        TakeMove(a, b, schedule[i]);
      }
    }
    RunIsLawful(a, b, d, states, moves);
  }
}
