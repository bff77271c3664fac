/**
  What one connection does to its send window: the credit test, the numbering and charging of an
  outgoing message, and the window update made by each receive and release handler. These are the
  functions against which the in-place `Connection` class is proved, and out of which the two-peer
  runs are built.
 */
module FlowControl {
  import opened Words

  datatype MsgType =
    | Req          // two-way request
    | Rsp          // its response, or a stand-alone read receipt for it
    | OneWayReq
    | OneWayRsp    // read receipt of a one-way message
    | AckReq       // credits ack
    | FinReq
    | FinRsp
    | KaReq        // keepalive
    | KaRsp

  predicate IsRequest(t: MsgType) { t.Req? || t.OneWayReq? || t.AckReq? || t.FinReq? || t.KaReq? }

  predicate IsResponse(t: MsgType) { !IsRequest(t) }

  predicate IsApplication(t: MsgType) { t.Req? || t.Rsp? || t.OneWayReq? || t.OneWayRsp? }

  /** Messages that carry a sequence number and credits. */
  predicate IsNumbered(t: MsgType) { IsApplication(t) || t.AckReq? }

  /** `bytes` is the length of the out side: header plus scatter/gather table.
      `first` and `last` are the two read-receipt flags. */
  datatype Msg = Msg(typ: MsgType, sn: U64, bytes: U64, first: bool, last: bool)

  predicate IsApplicationMsg(m: Msg) { IsApplication(m.typ) }

  /** A response that only carries a read receipt. */
  predicate Standalone(m: Msg) { IsResponse(m.typ) && m.first && !m.last }

  /** A message on the wire: the session header and the payload length. */
  datatype Packet = Packet(
    typ: MsgType, standalone: bool, serial: U64, bytes: U64,
    sn: U16, ackSn: U16, creditsMsgs: U16, creditsBytes: U64)

  // ----- the connection record, as a value -------------------------------------------------------

  datatype Numbers = Numbers(
    reqSn: U16, reqExpSn: U16, reqAckSn: U16,
    rspSn: U16, rspExpSn: U16, rspAckSn: U16)

  /** `msgs` and `bytes` are owed to the peer; `peerMsgs` and `peerBytes` may be spent on it. */
  datatype Credits = Credits(msgs: U16, bytes: U64, peerMsgs: U16, peerBytes: U64)

  datatype Limits = Limits(flowControl: bool, peerDepthBytes: U64, watermarkMsgs: U16, watermarkBytes: U64)

  datatype Lists = Lists(reqs: seq<Msg>, rsps: seq<Msg>, inFlightReqs: seq<Msg>, inFlightRsps: seq<Msg>)

  datatype Endpoint = Endpoint(num: Numbers, cr: Credits, lim: Limits, lists: Lists, restarted: bool)

  // ----- sending ---------------------------------------------------------------------------------

  /** The message cannot be sent now, but may be once credits come back. */
  predicate Refused(e: Endpoint, m: Msg) {
    && e.lim.flowControl
    && IsApplication(m.typ)
    && (e.cr.peerMsgs == 0 || (m.bytes <= e.lim.peerDepthBytes && e.cr.peerBytes < m.bytes))
  }

  /** The message would not fit in the peer's receive queue even if that were empty. */
  predicate Oversized(e: Endpoint, m: Msg) {
    && e.lim.flowControl
    && IsApplication(m.typ)
    && e.cr.peerMsgs != 0
    && e.lim.peerDepthBytes < m.bytes
  }

  predicate Admitted(e: Endpoint, m: Msg) { !Refused(e, m) && !Oversized(e, m) }

  /** Bytes taken from the peer's window; a control message is never measured. */
  function ChargeOf(m: Msg): U64 { if IsApplication(m.typ) then m.bytes else 0 }

  function PacketFor(e: Endpoint, m: Msg): Packet {
    var numbered, isReq := IsNumbered(m.typ), IsRequest(m.typ);
    var credits := numbered && e.lim.flowControl;
    Packet(m.typ, Standalone(m), m.sn, m.bytes,
           if !numbered then 0 else if isReq then e.num.reqSn else e.num.rspSn,
           if !numbered then 0 else if isReq then e.num.reqAckSn else e.num.rspAckSn,
           if credits then e.cr.msgs else 0,
           if credits then e.cr.bytes else 0)
  }

  function NumberOne(n: Numbers, t: MsgType): Numbers {
    if !IsNumbered(t) then n
    else if IsRequest(t) then n.(reqSn := Inc16(n.reqSn))
    else n.(rspSn := Inc16(n.rspSn))
  }

  /** The credits owed ride on the header; the message itself is paid for, unless it is a receipt. */
  function ChargeOne(c: Credits, m: Msg): Credits {
    if !IsNumbered(m.typ) then c
    else if Standalone(m) then Credits(0, 0, c.peerMsgs, c.peerBytes)
    else Credits(0, 0, Dec16(c.peerMsgs), Sub64(c.peerBytes, ChargeOf(m)))
  }

  /** Numbering and charging of an admitted message. */
  function AfterSend(e: Endpoint, m: Msg): Endpoint {
    e.(num := NumberOne(e.num, m.typ), cr := if e.lim.flowControl then ChargeOne(e.cr, m) else e.cr)
  }

  /** The transport refused an admitted message: credits come back, the sequence number does not. */
  function AfterFailedSend(e: Endpoint, m: Msg): Endpoint {
    e.(num := NumberOne(e.num, m.typ))
  }

  // ----- queues ----------------------------------------------------------------------------------

  datatype Queue = Requests | Responses

  function Queued(l: Lists, q: Queue): seq<Msg> { if q.Requests? then l.reqs else l.rsps }

  function InFlight(l: Lists, q: Queue): seq<Msg> { if q.Requests? then l.inFlightReqs else l.inFlightRsps }

  function SetQueued(l: Lists, q: Queue, ms: seq<Msg>): Lists {
    if q.Requests? then l.(reqs := ms) else l.(rsps := ms)
  }

  /** The head of `q` has been sent. */
  function MoveHead(l: Lists, q: Queue): Lists
    requires Queued(l, q) != []
  {
    var m, rest := Queued(l, q)[0], Queued(l, q)[1..];
    var flight := if IsApplication(m.typ) then InFlight(l, q) + [m] else InFlight(l, q);
    if q.Requests? then l.(reqs := rest, inFlightReqs := flight) else l.(rsps := rest, inFlightRsps := flight)
  }

  /** The queue cannot move: it is empty, or its head is refused by the current credits. */
  predicate Stuck(e: Endpoint, q: Queue) {
    Queued(e.lists, q) == [] || Refused(e, Queued(e.lists, q)[0])
  }

  /** Hand the head of `q` to the transport. */
  function SendHead(e: Endpoint, q: Queue): Endpoint
    requires Queued(e.lists, q) != []
  {
    AfterSend(e, Queued(e.lists, q)[0]).(lists := MoveHead(e.lists, q))
  }

  // ----- receiving -------------------------------------------------------------------------------

  function AddPeerCredits(c: Credits, p: Packet): Credits {
    c.(peerMsgs := Add16(c.peerMsgs, p.creditsMsgs), peerBytes := Add64(c.peerBytes, p.creditsBytes))
  }

  /** Window update of `xio_on_req_recv`. */
  function OnReqRecv(e: Endpoint, p: Packet): Endpoint {
    if e.num.reqExpSn == p.sn then
      e.(num := e.num.(reqExpSn := Inc16(p.sn), reqAckSn := p.sn),
         cr := if e.lim.flowControl then AddPeerCredits(e.cr, p) else e.cr,
         restarted := false)
    else if e.restarted then
      e.(num := e.num.(reqExpSn := Inc16(p.sn)), restarted := false)
    else e
  }

  /** Window update of `xio_on_rsp_recv`, for a connection that is online or in FIN_WAIT_1. */
  function OnRspRecv(e: Endpoint, p: Packet): Endpoint {
    if e.num.rspExpSn == p.sn then
      e.(num := e.num.(rspExpSn := Inc16(p.sn), rspAckSn := p.sn),
         cr := if e.lim.flowControl then AddPeerCredits(e.cr, p) else e.cr,
         restarted := false)
    else if e.restarted then
      e.(num := e.num.(rspExpSn := Inc16(p.sn)), restarted := false)
    else e
  }

  function GiveBackAck(c: Credits): Credits { c.(msgs := Inc16(c.msgs)) }

  /** `xio_on_credits_ack_recv`: the ack itself is given back at once. */
  function OnAckRecv(e: Endpoint, p: Packet): Endpoint {
    if !e.lim.flowControl then e
    else if e.num.reqExpSn == p.sn then
      e.(num := e.num.(reqExpSn := Inc16(p.sn), reqAckSn := p.sn),
         cr := GiveBackAck(AddPeerCredits(e.cr, p)))
    else e.(cr := GiveBackAck(e.cr))
  }

  function OnPacket(e: Endpoint, p: Packet): Endpoint {
    match p.typ
    case Req => OnReqRecv(e, p)
    case OneWayReq => OnReqRecv(e, p)
    case Rsp => OnRspRecv(e, p)
    case OneWayRsp => OnRspRecv(e, p)
    case AckReq => OnAckRecv(e, p)
    case _ => e
  }

  // ----- giving credits back ---------------------------------------------------------------------

  /** The application is done with a received message of `bytes` bytes. */
  function GiveBack(c: Credits, bytes: U64): Credits {
    c.(msgs := Inc16(c.msgs), bytes := Add64(c.bytes, bytes))
  }

  predicate AboveWatermark(c: Credits, lim: Limits) {
    c.msgs >= lim.watermarkMsgs || c.bytes >= lim.watermarkBytes
  }

  const CreditsAck: Msg := Msg(AckReq, 0, 0, false, false)

  /** `xio_send_response`: give back the request's credits and queue the response. */
  function Respond(e: Endpoint, requestBytes: U64, rsp: Msg): Endpoint {
    e.(cr := if e.lim.flowControl then GiveBack(e.cr, requestBytes) else e.cr,
       lists := e.lists.(rsps := e.lists.rsps + [rsp]))
  }

  /** `xio_release_msg` and the credit part of `xio_release_response`, on an online connection. */
  function Release(e: Endpoint, bytes: U64): Endpoint {
    if !e.lim.flowControl then e
    else
      var c := GiveBack(e.cr, bytes);
      e.(cr := c,
         lists := if AboveWatermark(c, e.lim) then e.lists.(reqs := e.lists.reqs + [CreditsAck]) else e.lists)
  }
}
