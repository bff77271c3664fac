/**
  The close handshake of one connection: its state table and what each handler does to the state,
  the reference count, the queued FIN and ACK and the scheduled work. A handler is a function from
  the connection's value to its next value.
 */
module CloseHandshake {

  datatype ConnState =
    | Init | Established | Online | FinWait1 | FinWait2 | Closing | TimeWait | CloseWait | LastAck
    | Closed | Disconnected | Error | Invalid

  datatype Transition = Transition(valid: bool, next: ConnState, sendAck: bool)

  const NoTransition: Transition := Transition(false, Invalid, false)

  /** `xio_transition_table`; the second index is 0 for a FIN and 1 for an ACK. */
  function NextTransit(s: ConnState, ack: bool): Transition {
    match s
    case Online => if ack then NoTransition else Transition(true, CloseWait, true)
    case FinWait1 => if ack then Transition(true, FinWait2, false) else Transition(true, Closing, true)
    case FinWait2 => if ack then NoTransition else Transition(true, TimeWait, true)
    case Closing => if ack then Transition(true, TimeWait, false) else NoTransition
    case LastAck => if ack then Transition(true, Closed, false) else NoTransition
    case _ => NoTransition
  }

  /** What each side has done on the wire, counted. A FIN or ACK is in flight while its sender's count
      is ahead of the receiver's, and its send completion is due while `comps` is behind `sent`. */
  datatype Traffic = Traffic(
    finsSent: nat, finComps: nat, finsRecv: nat,
    acksSent: nat, ackComps: nat, acksRecv: nat)

  /** Work items handed to the context and not yet run. */
  datatype Work = Work(fin: bool, timeWait: bool, teardown: bool)

  /** `postDestroys` counts how often xio_connection_post_destroy has run; `registered` says that the
      user-object registry knows the connection, `handlePut` that the user's own reference is gone. */
  datatype Refs = Refs(kref: int, postDestroys: nat, registered: bool, handlePut: bool)

  /** FINs and ACKs waiting on the request and response queue. */
  datatype Waiting = Waiting(fins: nat, acks: nat)

  datatype Conn = Conn(
    state: ConnState,
    refs: Refs,
    disconnecting: bool,
    disableNotify: bool,
    finReqTimeout: nat,
    finRequestFlushed: bool,
    waiting: Waiting,
    work: Work,
    io: Traffic)

  // ----- reference counting ----------------------------------------------------------------------

  function GetRef(r: Refs): Refs { r.(kref := r.kref + 1) }

  function PutRef(r: Refs): Refs {
    r.(kref := r.kref - 1, postDestroys := if r.kref == 1 then r.postDestroys + 1 else r.postDestroys)
  }

  function Get(c: Conn): Conn { c.(refs := GetRef(c.refs)) }

  function Put(c: Conn): Conn { c.(refs := PutRef(c.refs)) }

  // ----- helpers shared by the handlers ----------------------------------------------------------

  /** `xio_send_fin_req`, up to the transmission. */
  function SendFinReq(c: Conn): Conn {
    c.(refs := GetRef(GetRef(c.refs)), waiting := c.waiting.(fins := c.waiting.fins + 1), finReqTimeout := 0)
  }

  /** `xio_send_fin_ack`, up to the transmission. */
  function SendFinAck(c: Conn): Conn {
    c.(refs := GetRef(c.refs), waiting := c.waiting.(acks := c.waiting.acks + 1))
  }

  /** The FIN part of `xio_connection_notify_req_msgs_flush`: a FIN that was never sent is dropped and
      its two references are undone. */
  function FlushReqs(c: Conn): Conn
    decreases c.waiting.fins
  {
    if c.waiting.fins == 0 then c
    else
      var c1 := c.(waiting := c.waiting.(fins := c.waiting.fins - 1));
      if c.state.Disconnected? then FlushReqs(c1)
      else FlushReqs(c1.(finRequestFlushed := true, refs := PutRef(PutRef(c.refs))))
  }

  /** `xio_connection_notify_msgs_flush` */
  function FlushAll(c: Conn): Conn { var c1 := FlushReqs(c); c1.(waiting := c1.waiting.(acks := 0)) }

  /** `xio_connection_destroy` */
  function Destroy(c: Conn): Conn {
    if !c.refs.registered then c
    else
      var r := c.refs.(registered := false);
      if !(c.state.Init? || c.state.Closed? || c.state.Disconnected? || c.state.Error?) then c.(refs := r)
      else c.(work := Work(false, false, false), refs := PutRef(r.(handlePut := true)))
  }

  /** The end of `xio_close_time_wait` and `xio_handle_last_ack`: closed, and the user told or bypassed. */
  function EnterClosed(c: Conn): Conn {
    var c1 := FlushAll(c).(state := Closed);
    if c.disableNotify then Destroy(c1) else c1.(work := c1.work.(teardown := true))
  }

  /** The next state, with the time-wait timer started on entering TIME_WAIT. */
  function Advance(c: Conn, next: ConnState): Conn {
    c.(state := next, work := if next.TimeWait? then c.work.(timeWait := true) else c.work)
  }

  /** The passive side passes through CLOSE_WAIT: it sends its own FIN and waits for the last ACK. */
  function AnswerFin(c: Conn): Conn {
    SendFinReq(c.(disconnecting := true)).(state := LastAck)
  }

  // ----- the handlers ----------------------------------------------------------------------------

  /** `xio_disconnect` */
  function Disconnect(c: Conn): Conn {
    if !(c.state.Online? || c.state.Established?) || c.disconnecting
    then c.(disconnecting := true)
    else c.(disconnecting := true, work := c.work.(fin := true))
  }

  /** `xio_pre_disconnect`, with no keepalive timeout */
  function PreDisconnect(c: Conn): Conn {
    var c1 := c.(work := c.work.(fin := false));
    if !c.state.Online? then c1 else SendFinReq(Get(c1).(state := FinWait1))
  }

  /** The queued FIN goes out. */
  function TransmitFin(c: Conn): Conn
    requires c.waiting.fins > 0
  {
    c.(waiting := c.waiting.(fins := c.waiting.fins - 1), io := c.io.(finsSent := c.io.finsSent + 1))
  }

  /** The queued ACK goes out. */
  function TransmitAck(c: Conn): Conn
    requires c.waiting.acks > 0
  {
    c.(waiting := c.waiting.(acks := c.waiting.acks - 1), io := c.io.(acksSent := c.io.acksSent + 1))
  }

  /** `xio_on_fin_req_recv` */
  function OnFinReqRecv(c: Conn): Conn {
    var c0 := c.(io := c.io.(finsRecv := c.io.finsRecv + 1));
    var t := NextTransit(c.state, false);
    if !t.valid then c0
    else
      var c1 := FlushReqs(c0);
      var c2 := if c1.finRequestFlushed then SendFinReq(c1) else c1;
      if t.sendAck then SendFinAck(c2) else c2
  }

  /** `xio_on_fin_req_send_comp` */
  function OnFinReqSendComp(c: Conn): Conn {
    Put(c.(io := c.io.(finComps := c.io.finComps + 1)))
  }

  /** `xio_on_fin_ack_recv` */
  function OnFinAckRecv(c: Conn): Conn {
    var c0 := c.(io := c.io.(acksRecv := c.io.acksRecv + 1));
    if c.finReqTimeout != 0 then c0
    else
      var c1 := c0.(finReqTimeout := c.finReqTimeout + 1);
      var t := NextTransit(c.state, true);
      if !t.valid then Put(c1)
      else if c.state.LastAck? then Put(EnterClosed(c1))
      else Put(Advance(c1, t.next))
  }

  /** `xio_on_fin_ack_send_comp` */
  function OnFinAckSendComp(c: Conn): Conn {
    var c0 := c.(io := c.io.(ackComps := c.io.ackComps + 1));
    var t := NextTransit(c.state, false);
    if !t.valid then c0
    else Put(if t.next.CloseWait? then AnswerFin(c0) else Advance(c0, t.next))
  }

  /** `xio_close_time_wait` */
  function CloseTimeWait(c: Conn): Conn {
    Put(EnterClosed(c.(work := c.work.(timeWait := false))))
  }

  /** `xio_connection_teardown_handler`: the user is told that the connection may be destroyed. */
  function Teardown(c: Conn): Conn { c.(work := c.work.(teardown := false)) }
}
