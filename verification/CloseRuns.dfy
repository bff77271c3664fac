/**
  Two connections closing against each other, with FINs, ACKs, send completions and scheduled work
  taken in any order, and either user free to disconnect or destroy at any time.
 */
module CloseRuns {
  import opened CloseHandshake

  datatype Pair = Pair(a: Conn, b: Conn)

  datatype Event =
    | UserDisconnect | UserDestroy
    | RunPreDisconnect | RunCloseTimeWait | RunTeardown
    | SendFin | SendAck
    | FinArrives | AckArrives
    | FinCompletes | AckCompletes

  predicate ByUser(e: Event) { e.UserDisconnect? || e.UserDestroy? }

  datatype Move = Move(atA: bool, e: Event)

  function Me(s: Pair, atA: bool): Conn { if atA then s.a else s.b }

  function Peer(s: Pair, atA: bool): Conn { if atA then s.b else s.a }

  /** A user only acts on a handle it still owns; everything else happens when it is due. */
  predicate EnabledAt(c: Conn, peer: Conn, e: Event) {
    match e
    case UserDisconnect => !c.refs.handlePut
    case UserDestroy => true
    case RunPreDisconnect => c.work.fin
    case RunCloseTimeWait => c.work.timeWait
    case RunTeardown => c.work.teardown
    case SendFin => c.waiting.fins > 0
    case SendAck => c.waiting.acks > 0
    case FinArrives => peer.io.finsSent > c.io.finsRecv
    case AckArrives => peer.io.acksSent > c.io.acksRecv
    case FinCompletes => c.io.finsSent > c.io.finComps
    case AckCompletes => c.io.acksSent > c.io.ackComps
  }

  function Handle(c: Conn, peer: Conn, e: Event): Conn
    requires EnabledAt(c, peer, e)
  {
    match e
    case UserDisconnect => Disconnect(c)
    case UserDestroy => Destroy(c)
    case RunPreDisconnect => PreDisconnect(c)
    case RunCloseTimeWait => CloseTimeWait(c)
    case RunTeardown => Teardown(c)
    case SendFin => TransmitFin(c)
    case SendAck => TransmitAck(c)
    case FinArrives => OnFinReqRecv(c)
    case AckArrives => OnFinAckRecv(c)
    case FinCompletes => OnFinReqSendComp(c)
    case AckCompletes => OnFinAckSendComp(c)
  }

  predicate Enabled(s: Pair, m: Move) { EnabledAt(Me(s, m.atA), Peer(s, m.atA), m.e) }

  function Step(s: Pair, m: Move): Pair
    requires Enabled(s, m)
  {
    var c := Handle(Me(s, m.atA), Peer(s, m.atA), m.e);
    if m.atA then s.(a := c) else s.(b := c)
  }

  /** An online connection that has not begun to close; `disableNotify` may be either. */
  predicate IsOnline(c: Conn) {
    && c.state.Online? && c.refs.kref == 1 && c.refs.postDestroys == 0
    && c.refs.registered && !c.refs.handlePut && !c.disconnecting
    && c.finReqTimeout == 0 && !c.finRequestFlushed && c.waiting.fins == 0 && c.waiting.acks == 0
    && !c.work.fin && !c.work.timeWait && !c.work.teardown
    && c.io.finsSent == 0 && c.io.finComps == 0 && c.io.finsRecv == 0
    && c.io.acksSent == 0 && c.io.ackComps == 0 && c.io.acksRecv == 0
  }

  predicate Leads(s: Pair, m: Move, s': Pair) { Enabled(s, m) && s' == Step(s, m) }

  predicate IsRun(states: seq<Pair>, moves: seq<Move>) {
    && |states| == |moves| + 1
    && IsOnline(states[0].a) && IsOnline(states[0].b)
    && forall i {:trigger moves[i]} :: 0 <= i < |moves| ==> Leads(states[i], moves[i], states[i + 1])
  }

  // ----- what the handlers do outside the handshake ----------------------------------------------

  /** The table: a FIN is valid in three states and always asks for an ACK, an ACK in three and never does. */
  lemma TransitTable(s: ConnState)
    ensures NextTransit(s, false).valid <==> s.Online? || s.FinWait1? || s.FinWait2?
    ensures NextTransit(s, true).valid <==> s.FinWait1? || s.Closing? || s.LastAck?
    ensures NextTransit(s, false).sendAck <==> NextTransit(s, false).valid
    ensures !NextTransit(s, true).sendAck
    ensures s.Online? ==> NextTransit(s, false).next == CloseWait
    ensures s.FinWait1? ==> NextTransit(s, false).next == Closing && NextTransit(s, true).next == FinWait2
    ensures s.FinWait2? ==> NextTransit(s, false).next == TimeWait
    ensures s.Closing? ==> NextTransit(s, true).next == TimeWait
    ensures s.LastAck? ==> NextTransit(s, true).next == Closed
  {
  }

  /** What is invalid by the table, or an ACK that comes after another, is ignored; but an ACK that is only
      invalid still costs the reference that waited for it. */
  lemma InvalidIsIgnored(c: Conn)
    ensures !(c.state.Online? || c.state.FinWait1? || c.state.FinWait2?) ==>
              && OnFinReqRecv(c) == c.(io := c.io.(finsRecv := c.io.finsRecv + 1))
              && OnFinAckSendComp(c) == c.(io := c.io.(ackComps := c.io.ackComps + 1))
    ensures c.finReqTimeout != 0 ==> OnFinAckRecv(c) == c.(io := c.io.(acksRecv := c.io.acksRecv + 1))
    ensures c.finReqTimeout == 0 && !(c.state.FinWait1? || c.state.Closing? || c.state.LastAck?) ==>
              var d := OnFinAckRecv(c);
              && d.state == c.state && d.work == c.work && d.waiting == c.waiting && d.finReqTimeout == 1
              && d.refs.kref == c.refs.kref - 1 && d.refs.registered == c.refs.registered
  {
  }

  /** A disconnect is scheduled on a connection that is up and not already disconnecting, and else only
      noted; by the time it runs, a connection that is no longer online is left alone. */
  lemma DisconnectMeaning(c: Conn)
    ensures var up := (c.state.Online? || c.state.Established?) && !c.disconnecting;
      Disconnect(c) == c.(disconnecting := true, work := c.work.(fin := c.work.fin || up))
    ensures !c.state.Online? ==> PreDisconnect(c) == c.(work := c.work.(fin := false))
  {
  }

  /** A flush drops every queued FIN. Unless the connection is disconnected it undoes two references for
      each and notes that it did. */
  lemma {:induction false} FlushMeaning(c: Conn)
    requires c.state.Disconnected? || c.refs.kref > 2 * c.waiting.fins
    ensures FlushReqs(c) == if c.state.Disconnected? || c.waiting.fins == 0 then c.(waiting := c.waiting.(fins := 0))
                            else c.(waiting := c.waiting.(fins := 0), finRequestFlushed := true,
                                    refs := c.refs.(kref := c.refs.kref - 2 * c.waiting.fins))
    decreases c.waiting.fins
  {
    if c.waiting.fins > 0 {
      var c1 := c.(waiting := c.waiting.(fins := c.waiting.fins - 1));
      FlushMeaning(if c.state.Disconnected? then c1 else c1.(finRequestFlushed := true, refs := PutRef(PutRef(c.refs))));
    }
  }

  lemma {:induction false} FlushDropsFins(c: Conn)
    ensures var d := FlushReqs(c); d.waiting == Waiting(0, c.waiting.acks) && d.state == c.state && d.disableNotify == c.disableNotify
    decreases c.waiting.fins
  {
    if c.waiting.fins > 0 {
      var c1 := c.(waiting := c.waiting.(fins := c.waiting.fins - 1));
      FlushDropsFins(if c.state.Disconnected? then c1 else c1.(finRequestFlushed := true, refs := PutRef(PutRef(c.refs))));
    }
  }

  /** Closing, in any state: nothing stays queued, and a user to be notified is going to be told. */
  lemma CloseMeaning(c: Conn)
    ensures var d := EnterClosed(c);
      && d.state.Closed? && d.waiting == Waiting(0, 0)
      && (!c.disableNotify ==> d.work.teardown)
      && (c.disableNotify ==> !d.refs.registered)
  {
    FlushDropsFins(c);
    hide FlushReqs;
  }

  // ----- the invariant ---------------------------------------------------------------------------

  function B2N(b: bool): nat { if b then 1 else 0 }

  /** FINs this side has created: queued or sent. */
  function Fins(c: Conn): nat { c.waiting.fins + c.io.finsSent }

  /** ACKs this side has created. */
  function Acks(c: Conn): nat { c.waiting.acks + c.io.acksSent }

  /** The states of the side that closes on its own initiative, up to the end of the time wait. */
  predicate HoldsTimeWait(c: Conn) {
    c.state.FinWait1? || c.state.FinWait2? || c.state.Closing? || c.state.TimeWait?
  }

  /** The reference count is the number of parties that may still touch the connection: its user, the
      completion of its FIN, the ACK of its FIN, the completion of its ACK, and the time wait. */
  function Holders(c: Conn): int {
    B2N(!c.refs.handlePut)
    + (Fins(c) - c.io.finComps) + (Fins(c) - c.io.acksRecv)
    + (Acks(c) - c.io.ackComps)
    + B2N(HoldsTimeWait(c))
  }

  /** Each state says exactly how far the connection's own FIN and the peer's FIN have got. */
  predicate StateMeans(c: Conn) {
    match c.state
    case Online => Fins(c) == 0 && c.io.acksRecv == 0 && c.io.ackComps == 0
    case FinWait1 => Fins(c) == 1 && c.io.acksRecv == 0 && c.io.ackComps == 0
    case FinWait2 => Fins(c) == 1 && c.io.acksRecv == 1 && c.io.ackComps == 0
    case Closing => Fins(c) == 1 && c.io.acksRecv == 0 && c.io.ackComps == 1
    case LastAck => Fins(c) == 1 && c.io.acksRecv == 0 && c.io.ackComps == 1
    case TimeWait => Fins(c) == 1 && c.io.acksRecv == 1 && c.io.ackComps == 1
    case Closed => Fins(c) == 1 && c.io.acksRecv == 1 && c.io.ackComps == 1
    case _ => false
  }

  predicate LocalInv(c: Conn) {
    && StateMeans(c)
    && c.refs.kref == Holders(c)
    && c.refs.postDestroys == B2N(c.refs.kref == 0)
    && c.finReqTimeout == c.io.acksRecv
    && Acks(c) == c.io.finsRecv
    && c.io.finComps <= c.io.finsSent && c.io.ackComps <= c.io.acksSent
    && c.io.acksRecv <= c.io.finsSent && c.io.finsRecv <= 1
    && (c.refs.handlePut ==> c.state.Closed? && !c.refs.registered && c.work == Work(false, false, false))
    && (c.work.timeWait <==> c.state.TimeWait?)
    && (c.work.teardown ==> c.state.Closed?)
    && (c.finRequestFlushed ==> c.io.finsRecv == 1)
    && (c.work.fin ==> c.disconnecting)
    && (!c.state.Online? ==> c.disconnecting)
    && (c.disconnecting && c.state.Online? ==> c.work.fin)
  }

  /** The receiver is never ahead of the sender. */
  predicate Linked(x: Conn, y: Conn) {
    y.io.finsRecv <= x.io.finsSent && x.io.acksRecv <= y.io.acksSent
  }

  predicate Inv(s: Pair) { LocalInv(s.a) && LocalInv(s.b) && Linked(s.a, s.b) && Linked(s.b, s.a) }

  // ----- one handler at a time -------------------------------------------------------------------

  predicate Kept(c': Conn, p: Conn) { LocalInv(c') && Linked(c', p) && Linked(p, c') }

  predicate Before(c: Conn, p: Conn, e: Event) {
    LocalInv(c) && LocalInv(p) && Linked(c, p) && Linked(p, c) && EnabledAt(c, p, e)
  }

  lemma UserDisconnects(c: Conn, p: Conn)
    requires Before(c, p, UserDisconnect)
    ensures Kept(Disconnect(c), p)
  {
  }

  /** Before the connection is closed, destroying it only takes it off the registry. */
  lemma DestroyEarly(c: Conn, p: Conn)
    requires Before(c, p, UserDestroy) && !c.state.Closed?
    ensures Destroy(c) == c.(refs := c.refs.(registered := false)) || Destroy(c) == c
    ensures Kept(Destroy(c), p)
  {
    assert !(c.state.Init? || c.state.Disconnected? || c.state.Error?);
  }

  /** What a destroy does, in any state: nothing to a connection off the registry; else it takes it off, and
      in a final state it cancels all work and drops the user's reference, which may be the last one. */
  predicate DestroyMeans(c: Conn, d: Conn) {
    if !c.refs.registered then d == c
    else
      && !d.refs.registered
      && d.state == c.state && d.io == c.io && d.waiting == c.waiting && d.finReqTimeout == c.finReqTimeout
      && d.disconnecting == c.disconnecting && d.disableNotify == c.disableNotify && d.finRequestFlushed == c.finRequestFlushed
      && if c.state.Init? || c.state.Closed? || c.state.Disconnected? || c.state.Error?
         then
           && d.refs.handlePut && d.refs.kref == c.refs.kref - 1
           && d.refs.postDestroys == c.refs.postDestroys + B2N(c.refs.kref == 1)
           && !d.work.fin && !d.work.timeWait && !d.work.teardown
         else d.refs == c.refs.(registered := false) && d.work == c.work
  }

  lemma DestroyMeaning(c: Conn)
    ensures DestroyMeans(c, Destroy(c))
  {
  }

  /** Once it is closed, the user's reference goes, the first time; if it is the last one, the connection is
      released. */
  lemma DestroyClosed(c: Conn, p: Conn)
    requires Before(c, p, UserDestroy) && c.state.Closed?
    ensures Kept(Destroy(c), p)
    ensures c.refs.registered ==>
              var r := Destroy(c).refs; !r.registered && r.kref == c.refs.kref - 1 && (r.postDestroys == 1 <==> c.refs.kref == 1)
  {
    if c.refs.registered {
      assert !c.refs.handlePut && Holders(Destroy(c)) == Holders(c) - 1;
    } else {
      assert Destroy(c) == c;
    }
  }

  lemma UserDestroys(c: Conn, p: Conn)
    requires Before(c, p, UserDestroy)
    ensures Kept(Destroy(c), p)
  {
    hide Before, Kept, Destroy;
    if c.state.Closed? { DestroyClosed(c, p); } else { DestroyEarly(c, p); }
  }

  lemma DisconnectRuns(c: Conn, p: Conn)
    requires Before(c, p, RunPreDisconnect)
    ensures Kept(PreDisconnect(c), p)
  {
    var c1 := c.(work := c.work.(fin := false));
    assert PreDisconnect(c) == if c.state.Online? then SendFinReq(Get(c1).(state := FinWait1)) else c1;
    assert Holders(PreDisconnect(c)) == Holders(c) + if c.state.Online? then 3 else 0;
  }

  lemma QueueMoves(c: Conn, p: Conn, e: Event)
    requires Before(c, p, e) && (e.SendFin? || e.SendAck? || e.RunTeardown?)
    ensures Kept(Handle(c, p, e), p)
  {
  }

  lemma FinCompleted(c: Conn, p: Conn)
    requires Before(c, p, FinCompletes)
    ensures Kept(OnFinReqSendComp(c), p)
  {
  }

  lemma AckCompleted(c: Conn, p: Conn)
    requires Before(c, p, AckCompletes)
    ensures Kept(OnFinAckSendComp(c), p)
  {
    assert c.state.Online? || c.state.FinWait1? || c.state.FinWait2?;
  }

  /** A connection with nothing left on its queues closes without flushing anything. */
  lemma ClosesQuietly(c: Conn)
    requires c.waiting == Waiting(0, 0)
    ensures var d := c.(state := Closed);
      EnterClosed(c) == if c.disableNotify then Destroy(d) else d.(work := d.work.(teardown := true))
  {
    assert FlushReqs(c) == c;
  }

  lemma NothingQueued(c: Conn)
    requires LocalInv(c) && c.io.finsSent == 1 && c.io.acksSent >= c.io.ackComps == 1
    ensures c.waiting == Waiting(0, 0)
  {
    assert c.state.Closing? || c.state.LastAck? || c.state.TimeWait? || c.state.Closed?;
  }

  /** Closing in full: the user told, or the connection destroyed in their stead if it is registered. */
  function ClosedRecord(c: Conn): Conn {
    var d := c.(state := Closed);
    if !c.disableNotify then d.(work := c.work.(teardown := true), refs := PutRef(c.refs))
    else if !c.refs.registered then d.(refs := PutRef(c.refs))
    else d.(work := Work(false, false, false), refs := PutRef(PutRef(c.refs.(registered := false, handlePut := true))))
  }

  lemma ClosesAs(c: Conn)
    requires c.waiting == Waiting(0, 0)
    ensures Put(EnterClosed(c)) == ClosedRecord(c)
  {
    hide EnterClosed;
    ClosesQuietly(c);
  }

  /** What closing does to the count and the handle. */
  lemma ClosedRefs(c: Conn)
    requires c.refs.kref >= 2 && c.refs.postDestroys == 0 && !c.refs.handlePut
    ensures var r := ClosedRecord(c).refs;
      && r.kref == c.refs.kref - (if r.handlePut then 2 else 1)
      && r.postDestroys == B2N(r.kref == 0)
      && (r.handlePut ==> !r.registered && ClosedRecord(c).work == Work(false, false, false))
  {
  }

  /** What the time wait and the last ACK leave to be closed: `d`, which is `c` with its work item or the
      ACK taken off. */
  predicate Finished(c: Conn, d: Conn, p: Conn) {
    && LocalInv(c) && Linked(c, p) && Linked(p, c) && c.refs.kref >= 2 && c.waiting == Waiting(0, 0)
    && if c.state.TimeWait? then d == c.(work := c.work.(timeWait := false))
       else
         && c.state.LastAck? && p.io.acksSent >= 1 && c.io.finsSent == 1
         && d == c.(io := c.io.(acksRecv := 1), finReqTimeout := 1)
  }

  lemma TimeWaitKeeps(c: Conn, d: Conn, p: Conn)
    requires Finished(c, d, p) && c.state.TimeWait?
    ensures Kept(ClosedRecord(d), p)
  {
    ClosedRefs(d);
    var e := ClosedRecord(d);
    assert e.io == c.io && e.waiting == c.waiting && e.state.Closed? && e.finReqTimeout == c.finReqTimeout;
    assert e.disconnecting == c.disconnecting && e.finRequestFlushed == c.finRequestFlushed && !e.work.timeWait;
    assert e.work.fin ==> c.work.fin;
    hide ClosedRecord;
  }

  lemma LastAckKeeps(c: Conn, d: Conn, p: Conn)
    requires Finished(c, d, p) && c.state.LastAck?
    ensures Kept(ClosedRecord(d), p)
  {
    ClosedRefs(d);
    var e := ClosedRecord(d);
    assert e.io == d.io && e.waiting == c.waiting && e.state.Closed? && e.finReqTimeout == 1;
    assert e.disconnecting == c.disconnecting && e.finRequestFlushed == c.finRequestFlushed && !e.work.timeWait;
    assert e.work.fin ==> c.work.fin;
    hide ClosedRecord;
  }

  lemma TimeWaitFinishes(c: Conn, p: Conn)
    requires Before(c, p, RunCloseTimeWait)
    ensures c.state.TimeWait? && Finished(c, c.(work := c.work.(timeWait := false)), p)
  {
    NothingQueued(c);
    assert c.refs.kref == Holders(c);
  }

  lemma LastAckFinishes(c: Conn, p: Conn)
    requires Before(c, p, AckArrives) && c.state.LastAck?
    ensures c.io.acksRecv == 0 && c.finReqTimeout == 0
    ensures Finished(c, c.(io := c.io.(acksRecv := 1), finReqTimeout := 1), p)
  {
    NothingQueued(c);
    assert c.refs.kref == Holders(c);
  }

  lemma TimeWaitEnds(c: Conn, p: Conn)
    requires Before(c, p, RunCloseTimeWait)
    ensures Kept(CloseTimeWait(c), p)
  {
    hide EnterClosed, Kept, Put, Before, LocalInv, ClosedRecord;
    TimeWaitFinishes(c, p);
    var d := c.(work := c.work.(timeWait := false));
    ClosesAs(d);
    TimeWaitKeeps(c, d, p);
  }

  lemma LastAckReceived(c: Conn, p: Conn)
    requires Before(c, p, AckArrives) && c.state.LastAck?
    ensures Kept(OnFinAckRecv(c), p)
  {
    hide EnterClosed, Kept, Put, Before, LocalInv, ClosedRecord;
    LastAckFinishes(c, p);
    var d := c.(io := c.io.(acksRecv := 1), finReqTimeout := 1);
    ClosesAs(d);
    LastAckKeeps(c, d, p);
  }

  lemma OtherAckReceived(c: Conn, p: Conn)
    requires Before(c, p, AckArrives) && !c.state.LastAck?
    ensures Kept(OnFinAckRecv(c), p)
  {
    assert c.state.FinWait1? || c.state.Closing?;
  }

  /** A FIN still on the queue when the peer's FIN arrives is dropped and queued again: the references
      taken for it end up as they were. */
  lemma FlushAndResend(c: Conn)
    requires c.waiting.fins == 1 && !c.state.Disconnected? && c.refs.kref > 2
    ensures var f := FlushReqs(c);
      f == c.(waiting := c.waiting.(fins := 0), finRequestFlushed := true, refs := c.refs.(kref := c.refs.kref - 2))
      && SendFinReq(f) == c.(finRequestFlushed := true, finReqTimeout := 0)
  {
    var d := Put(Put(c.(waiting := c.waiting.(fins := 0), finRequestFlushed := true)));
    assert FlushReqs(d) == d;
  }

  /** When a FIN comes: for the first time, and in one of three states. */
  predicate FinDue(c: Conn) {
    && (c.state.Online? || c.state.FinWait1? || c.state.FinWait2?)
    && c.io.finsRecv == 0 && c.io.acksSent == 0 && c.waiting.acks == 0 && !c.finRequestFlushed
    && c.waiting.fins <= 1
    && (c.waiting.fins == 1 ==> c.finReqTimeout == 0 && c.refs.kref > 2)
  }

  lemma FinComes(c: Conn, p: Conn)
    requires Before(c, p, FinArrives)
    ensures FinDue(c)
  {
    assert c.refs.kref == Holders(c);
  }

  /** What it does. */
  lemma FinEffect(c: Conn)
    requires FinDue(c)
    ensures var f := c.waiting.fins == 1;
      OnFinReqRecv(c) == c.(finRequestFlushed := f, waiting := c.waiting.(acks := 1), refs := GetRef(c.refs),
                            io := c.io.(finsRecv := 1))
  {
    var c0 := c.(io := c.io.(finsRecv := 1));
    if c.waiting.fins == 1 { FlushAndResend(c0); } else { assert FlushReqs(c0) == c0; }
    hide FlushReqs;
  }

  /** The peer's FIN comes for the first time, in one of three states; its net effect is one ACK queued
      with one reference, also when the own FIN was still queued and is flushed and sent anew. */
  lemma FinNoted(c: Conn, p: Conn)
    requires Before(c, p, FinArrives)
    ensures c.state.Online? || c.state.FinWait1? || c.state.FinWait2?
    ensures c.io.finsRecv == 0 && c.io.acksSent == 0 && c.waiting.acks == 0 && !c.finRequestFlushed
    ensures var f := c.waiting.fins == 1;
      OnFinReqRecv(c) == c.(finRequestFlushed := f, waiting := c.waiting.(acks := 1), refs := GetRef(c.refs),
                            io := c.io.(finsRecv := 1))
  {
    hide Before, OnFinReqRecv;
    FinComes(c, p);
    FinEffect(c);
  }

  lemma FinReceived(c: Conn, p: Conn)
    requires Before(c, p, FinArrives)
    ensures Kept(OnFinReqRecv(c), p)
  {
    hide OnFinReqRecv;
    FinNoted(c, p);
  }

  lemma HandleInv(c: Conn, p: Conn, e: Event)
    requires Before(c, p, e)
    ensures Kept(Handle(c, p, e), p)
  {
    match e
    case UserDisconnect => UserDisconnects(c, p);
    case UserDestroy => UserDestroys(c, p);
    case RunPreDisconnect => DisconnectRuns(c, p);
    case RunCloseTimeWait => TimeWaitEnds(c, p);
    case RunTeardown => QueueMoves(c, p, e);
    case SendFin => QueueMoves(c, p, e);
    case SendAck => QueueMoves(c, p, e);
    case FinArrives => FinReceived(c, p);
    case AckArrives => if c.state.LastAck? { LastAckReceived(c, p); } else { OtherAckReceived(c, p); }
    case FinCompletes => FinCompleted(c, p);
    case AckCompletes => AckCompleted(c, p);
  }

  lemma StepInv(s: Pair, m: Move)
    requires Inv(s) && Enabled(s, m)
    ensures Inv(Step(s, m))
  {
    var c, p := Me(s, m.atA), Peer(s, m.atA);
    HandleInv(c, p, m.e);
    PairInv(s, m.atA, Handle(c, p, m.e));
  }

  lemma PairInv(s: Pair, atA: bool, c': Conn)
    requires Inv(s) && Kept(c', Peer(s, atA))
    ensures Inv(if atA then s.(a := c') else s.(b := c'))
  {
  }

  lemma InitInv(s: Pair)
    requires IsOnline(s.a) && IsOnline(s.b)
    ensures Inv(s)
  {
  }

  lemma LeadsInv(s: Pair, m: Move, s': Pair)
    requires Inv(s) && Leads(s, m, s')
    ensures Inv(s')
  {
    StepInv(s, m);
  }

  lemma {:induction false} RunInv(states: seq<Pair>, moves: seq<Move>, i: nat)
    requires IsRun(states, moves) && i < |states|
    ensures Inv(states[i])
  {
    if i == 0 {
      InitInv(states[0]);
    } else {
      RunInv(states, moves, i - 1);
      var m := moves[i - 1];
      LeadsInv(states[i - 1], m, states[i]);
    }
  }

  // ----- safety ----------------------------------------------------------------------------------

  /** No FIN, ACK or ACK completion that can come next meets an invalid table entry or a stale-ACK guard;
      this side has put at most one FIN and one ACK on the wire; and it is closed only once its own FIN
      has been acknowledged and its ACK of the peer's FIN has completed. */
  predicate Safe(c: Conn, p: Conn) {
    && (EnabledAt(c, p, FinArrives) ==> NextTransit(c.state, false).valid)
    && (EnabledAt(c, p, AckArrives) ==> NextTransit(c.state, true).valid && c.finReqTimeout == 0)
    && (EnabledAt(c, p, AckCompletes) ==> NextTransit(c.state, false).valid)
    && c.io.finsSent <= 1 && c.io.acksSent <= 1
    && (c.state.Closed? ==> c.io.acksRecv == 1 && c.io.ackComps == 1)
  }

  /** The reference count is exactly the number of holders; the object is released at most once,
      precisely when the last holder lets go; and nothing that can still happen to it, other than a
      user call, happens to it after that. */
  predicate CountedRight(c: Conn, p: Conn) {
    && c.refs.kref == Holders(c) >= 0
    && (c.refs.postDestroys == 1 <==> c.refs.kref == 0) && c.refs.postDestroys <= 1
    && (forall e :: EnabledAt(c, p, e) && !ByUser(e) ==> c.refs.kref > 0 && c.refs.postDestroys == 0)
  }

  lemma InvSafe(c: Conn, p: Conn)
    requires LocalInv(c) && LocalInv(p) && Linked(c, p) && Linked(p, c)
    ensures Safe(c, p)
  {
  }

  lemma InvCounted(c: Conn, p: Conn)
    requires LocalInv(c) && LocalInv(p) && Linked(c, p) && Linked(p, c)
    ensures CountedRight(c, p)
  {
  }

  /** Every reachable state of every interleaving is safe, on both sides. */
  lemma CloseIsSafe(states: seq<Pair>, moves: seq<Move>, i: nat, atA: bool)
    requires IsRun(states, moves) && i < |states|
    ensures Safe(Me(states[i], atA), Peer(states[i], atA))
  {
    hide Safe, LocalInv, Linked;
    RunInv(states, moves, i);
    InvSafe(Me(states[i], atA), Peer(states[i], atA));
  }

  /** And its references are counted right. */
  lemma CountsHolders(states: seq<Pair>, moves: seq<Move>, i: nat, atA: bool)
    requires IsRun(states, moves) && i < |states|
    ensures CountedRight(Me(states[i], atA), Peer(states[i], atA))
  {
    hide CountedRight, LocalInv, Linked;
    RunInv(states, moves, i);
    InvCounted(Me(states[i], atA), Peer(states[i], atA));
  }

  // ----- progress --------------------------------------------------------------------------------

  /** How much this side has left to do. */
  function Left(c: Conn): int {
    6 - c.io.finsSent - c.io.finComps - c.io.finsRecv - c.io.acksSent - c.io.ackComps - c.io.acksRecv
    + (if c.disconnecting then 0 else 2) + B2N(c.work.fin)
    + (if c.state.Closed? then 0 else 2) + B2N(c.work.teardown) + B2N(c.refs.registered)
  }

  lemma LeftBounds(c: Conn)
    requires LocalInv(c)
    ensures 0 <= Left(c)
    ensures IsOnline(c) ==> Left(c) == 11
  {
  }

  /** A step that gets one item of traffic done and puts off nothing else is progress. */
  lemma TrafficProgress(c: Conn, c': Conn)
    requires || c'.io == c.io.(finsRecv := c.io.finsRecv + 1)
             || c'.io == c.io.(acksRecv := c.io.acksRecv + 1)
             || c'.io == c.io.(ackComps := c.io.ackComps + 1)
    requires c.disconnecting ==> c'.disconnecting
    requires c'.work.fin ==> c.work.fin
    requires c'.refs.registered ==> c.refs.registered
    requires c.state.Closed? ==> c'.state.Closed?
    requires c'.work.teardown ==> c.work.teardown || (c'.state.Closed? && !c.state.Closed?)
    ensures Left(c') < Left(c)
  {
  }

  lemma UserDisconnectLeft(c: Conn)
    ensures Left(Disconnect(c)) <= Left(c)
  {
    var d := Disconnect(c);
    assert d.io == c.io && d.state == c.state && d.refs == c.refs && d.disconnecting;
    assert d.work == c.work || (!c.disconnecting && d.work == c.work.(fin := true));
    hide Disconnect;
  }

  lemma UserDestroyLeft(c: Conn)
    ensures Left(Destroy(c)) <= Left(c)
  {
    var d := Destroy(c);
    assert d.io == c.io && d.state == c.state && d.disconnecting == c.disconnecting;
    assert d.work == c.work || d.work == Work(false, false, false);
    assert d.refs.registered ==> c.refs.registered;
    hide Destroy;
  }

  lemma DisconnectProgress(c: Conn, p: Conn)
    requires Before(c, p, RunPreDisconnect)
    ensures Left(PreDisconnect(c)) < Left(c)
  {
    hide Before;
    assert c.work.fin by { assert Before(c, p, RunPreDisconnect); DueWork(c, p); }
  }

  lemma DueWork(c: Conn, p: Conn)
    requires Before(c, p, RunPreDisconnect)
    ensures c.work.fin
  {
  }

  lemma WorkProgress(c: Conn, p: Conn, e: Event)
    requires Before(c, p, e) && (e.RunTeardown? || e.SendFin? || e.SendAck? || e.FinCompletes?)
    ensures Left(Handle(c, p, e)) < Left(c)
  {
  }

  lemma TimeWaitProgress(c: Conn, p: Conn)
    requires Before(c, p, RunCloseTimeWait)
    ensures Left(CloseTimeWait(c)) < Left(c)
  {
  }

  lemma FinProgress(c: Conn, p: Conn)
    requires Before(c, p, FinArrives)
    ensures Left(OnFinReqRecv(c)) < Left(c)
  {
    hide OnFinReqRecv, Left;
    FinNoted(c, p);
    TrafficProgress(c, OnFinReqRecv(c));
  }

  lemma AckProgress(c: Conn, p: Conn)
    requires Before(c, p, AckArrives)
    ensures Left(OnFinAckRecv(c)) < Left(c)
  {
    hide Left;
    TrafficProgress(c, OnFinAckRecv(c));
  }

  lemma AckCompProgress(c: Conn, p: Conn)
    requires Before(c, p, AckCompletes)
    ensures Left(OnFinAckSendComp(c)) < Left(c)
  {
    TrafficProgress(c, OnFinAckSendComp(c));
  }

  lemma HandleProgress(c: Conn, p: Conn, e: Event)
    requires Before(c, p, e)
    ensures ByUser(e) ==> Left(Handle(c, p, e)) <= Left(c)
    ensures !ByUser(e) ==> Left(Handle(c, p, e)) < Left(c)
  {
    match e
    case UserDisconnect => UserDisconnectLeft(c);
    case UserDestroy => UserDestroyLeft(c);
    case RunPreDisconnect => DisconnectProgress(c, p);
    case RunCloseTimeWait => TimeWaitProgress(c, p);
    case FinArrives => FinProgress(c, p);
    case AckArrives => AckProgress(c, p);
    case AckCompletes => AckCompProgress(c, p);
    case _ => WorkProgress(c, p, e);
  }

  function TotalLeft(s: Pair): int { Left(s.a) + Left(s.b) }

  lemma StepProgress(s: Pair, m: Move, s': Pair)
    requires Inv(s) && Leads(s, m, s')
    ensures TotalLeft(s') + B2N(!ByUser(m.e)) <= TotalLeft(s)
  {
    HandleProgress(Me(s, m.atA), Peer(s, m.atA), m.e);
  }

  /** How many of the first `k` moves are handshake steps rather than user calls. */
  function HandshakeSteps(moves: seq<Move>, k: nat): nat
    requires k <= |moves|
  {
    if k == 0 then 0 else HandshakeSteps(moves, k - 1) + B2N(!ByUser(moves[k - 1].e))
  }

  lemma LeftOfPair(s: Pair)
    requires Inv(s)
    ensures 0 <= TotalLeft(s)
    ensures IsOnline(s.a) && IsOnline(s.b) ==> TotalLeft(s) == 22
  {
    LeftBounds(s.a);
    LeftBounds(s.b);
  }

  lemma LeftAt(states: seq<Pair>, moves: seq<Move>, k: nat)
    requires IsRun(states, moves) && k <= |moves|
    ensures 0 <= TotalLeft(states[k])
    ensures k == 0 ==> TotalLeft(states[k]) == 22
  {
    RunInv(states, moves, k);
    LeftOfPair(states[k]);
  }

  lemma DropAt(states: seq<Pair>, moves: seq<Move>, k: nat)
    requires IsRun(states, moves) && k < |moves|
    ensures TotalLeft(states[k + 1]) + B2N(!ByUser(moves[k].e)) <= TotalLeft(states[k])
  {
    RunInv(states, moves, k);
    StepProgress(states[k], moves[k], states[k + 1]);
  }

  /** No run, whatever the users do and however often, contains more than 22 handshake steps. */
  lemma {:induction false} HandshakeIsFinite(states: seq<Pair>, moves: seq<Move>, k: nat)
    requires IsRun(states, moves) && k <= |moves|
    ensures HandshakeSteps(moves, k) + TotalLeft(states[k]) <= 22
    ensures HandshakeSteps(moves, k) <= 22
  {
    hide IsRun, TotalLeft;
    LeftAt(states, moves, k);
    if k > 0 {
      HandshakeIsFinite(states, moves, k - 1);
      DropAt(states, moves, k - 1);
    }
  }

  predicate Begun(s: Pair) { s.a.disconnecting || s.b.disconnecting }

  predicate BothClosed(s: Pair) { s.a.state.Closed? && s.b.state.Closed? }

  /** No handshake step is due on either side. */
  ghost predicate AtRest(s: Pair) { forall m: Move :: !ByUser(m.e) ==> !Enabled(s, m) }

  lemma RestMeansDone(c: Conn, p: Conn)
    requires LocalInv(c) && LocalInv(p) && Linked(c, p) && Linked(p, c)
    requires forall e :: !ByUser(e) ==> !EnabledAt(c, p, e) && !EnabledAt(p, c, e)
    requires c.disconnecting
    ensures c.state.Closed? && p.disconnecting && c.refs.kref == B2N(!c.refs.handlePut)
  {
    assert !EnabledAt(c, p, RunPreDisconnect) && !EnabledAt(c, p, SendFin) && !EnabledAt(p, c, FinArrives);
    assert !EnabledAt(p, c, SendAck) && !EnabledAt(c, p, AckArrives) && !EnabledAt(p, c, AckCompletes);
    assert !EnabledAt(p, c, SendFin) && !EnabledAt(c, p, FinArrives) && !EnabledAt(c, p, SendAck);
    assert !EnabledAt(c, p, AckCompletes) && !EnabledAt(c, p, RunCloseTimeWait) && !EnabledAt(c, p, FinCompletes);
  }

  /** Once either side has disconnected, a run can only come to rest with both sides closed, and then all
      references but the users' are gone. Whether those go too is the question of `ReleasedIff`. */
  lemma CloseCompletes(states: seq<Pair>, moves: seq<Move>, i: nat)
    requires IsRun(states, moves) && i < |states| && Begun(states[i]) && AtRest(states[i])
    ensures var s := states[i];
      && BothClosed(s)
      && s.a.refs.kref == B2N(!s.a.refs.handlePut) && s.b.refs.kref == B2N(!s.b.refs.handlePut)
      && s.a.refs.postDestroys == B2N(s.a.refs.handlePut) && s.b.refs.postDestroys == B2N(s.b.refs.handlePut)
  {
    RunInv(states, moves, i);
    var s := states[i];
    forall e: Event | !ByUser(e) ensures !EnabledAt(s.a, s.b, e) && !EnabledAt(s.b, s.a, e) {
      assert !Enabled(s, Move(true, e)) && !Enabled(s, Move(false, e));
    }
    if s.a.disconnecting {
      RestMeansDone(s.a, s.b);
      RestMeansDone(s.b, s.a);
    } else {
      RestMeansDone(s.b, s.a);
      RestMeansDone(s.a, s.b);
    }
  }

  // ----- release ---------------------------------------------------------------------------------

  /** Off the registry with the user's reference still counted: no later destroy finds the connection, so
      nothing is left that would drop that reference. */
  predicate Stranded(c: Conn) { !c.refs.registered && !c.refs.handlePut }

  /** A destroy that takes the connection off the registry and then refuses, since it is not closed. */
  predicate RefusedDestroy(c: Conn, e: Event) { e.UserDestroy? && c.refs.registered && !c.state.Closed? }

  lemma {:induction false} FlushKeepsRegistry(c: Conn)
    ensures FlushReqs(c).refs.registered == c.refs.registered && FlushReqs(c).refs.handlePut == c.refs.handlePut
    decreases c.waiting.fins
  {
    if c.waiting.fins > 0 {
      var c1 := c.(waiting := c.waiting.(fins := c.waiting.fins - 1));
      FlushKeepsRegistry(if c.state.Disconnected? then c1 else c1.(finRequestFlushed := true, refs := PutRef(PutRef(c.refs))));
    }
  }

  /** Closing either leaves the registry alone or drops the user's reference with it. */
  lemma ClosingKeepsStranded(c: Conn)
    requires !(c.refs.registered && c.refs.handlePut)
    ensures Stranded(EnterClosed(c)) <==> Stranded(c)
  {
    FlushKeepsRegistry(c);
    hide FlushReqs;
  }

  predicate SameRegistry(c: Conn, d: Conn) {
    d.refs.registered == c.refs.registered && d.refs.handlePut == c.refs.handlePut
  }

  lemma StepKeepsRegistry(c: Conn, p: Conn, e: Event)
    requires EnabledAt(c, p, e)
    requires !(e.UserDestroy? || e.RunCloseTimeWait? || e.AckArrives? || e.FinArrives?)
    ensures SameRegistry(c, Handle(c, p, e))
  {
  }

  lemma FinKeepsRegistry(c: Conn)
    ensures SameRegistry(c, OnFinReqRecv(c))
  {
    FlushKeepsRegistry(c.(io := c.io.(finsRecv := c.io.finsRecv + 1)));
    hide FlushReqs, NextTransit;
  }

  lemma AckKeepsStranded(c: Conn)
    requires !(c.refs.registered && c.refs.handlePut)
    ensures Stranded(OnFinAckRecv(c)) <==> Stranded(c)
  {
    ClosingKeepsStranded(c.(io := c.io.(acksRecv := c.io.acksRecv + 1), finReqTimeout := c.finReqTimeout + 1));
    hide EnterClosed, NextTransit;
  }

  lemma TimeWaitKeepsStranded(c: Conn)
    requires !(c.refs.registered && c.refs.handlePut)
    ensures Stranded(CloseTimeWait(c)) <==> Stranded(c)
  {
    ClosingKeepsStranded(c.(work := c.work.(timeWait := false)));
    hide EnterClosed;
  }

  lemma DestroyStrands(c: Conn)
    requires !(c.refs.registered && c.refs.handlePut) && !(c.state.Init? || c.state.Disconnected? || c.state.Error?)
    ensures Stranded(Destroy(c)) <==> Stranded(c) || RefusedDestroy(c, UserDestroy)
  {
  }

  lemma StrandedStep(c: Conn, p: Conn, e: Event)
    requires EnabledAt(c, p, e) && LocalInv(c)
    ensures Stranded(Handle(c, p, e)) <==> Stranded(c) || RefusedDestroy(c, e)
  {
    hide EnterClosed, NextTransit, Destroy, OnFinAckRecv, OnFinReqRecv, CloseTimeWait;
    assert !(c.refs.registered && c.refs.handlePut) && !(c.state.Init? || c.state.Disconnected? || c.state.Error?);
    match e
    case UserDestroy => DestroyStrands(c);
    case FinArrives => FinKeepsRegistry(c);
    case AckArrives => AckKeepsStranded(c);
    case RunCloseTimeWait => TimeWaitKeepsStranded(c);
    case _ => StepKeepsRegistry(c, p, e);
  }

  /** Some destroy before state `i` came too early on this side. */
  ghost predicate DestroyedEarly(states: seq<Pair>, moves: seq<Move>, i: nat, atA: bool)
    requires IsRun(states, moves) && i < |states|
  {
    exists j :: 0 <= j < i && moves[j].atA == atA && RefusedDestroy(Me(states[j], atA), moves[j].e)
  }

  lemma StrandedMove(s: Pair, m: Move, s': Pair, atA: bool)
    requires Inv(s) && Leads(s, m, s')
    ensures Stranded(Me(s', atA)) <==> Stranded(Me(s, atA)) || (m.atA == atA && RefusedDestroy(Me(s, atA), m.e))
  {
    hide LocalInv, Linked, Handle, Stranded, RefusedDestroy;
    StrandedStep(Me(s, m.atA), Peer(s, m.atA), m.e);
  }

  /** In every run a side is stranded if and only if it was destroyed, while registered, before it was
      closed. */
  lemma {:induction false} StrandedIff(states: seq<Pair>, moves: seq<Move>, i: nat, atA: bool)
    requires IsRun(states, moves) && i < |states|
    ensures Stranded(Me(states[i], atA)) <==> DestroyedEarly(states, moves, i, atA)
  {
    hide Leads, Stranded, RefusedDestroy, Inv;
    if i == 0 {
      OnlineIsNotStranded(Me(states[0], atA));
    } else {
      StrandedIff(states, moves, i - 1, atA);
      RunInv(states, moves, i - 1);
      var m := moves[i - 1];
      StrandedMove(states[i - 1], m, states[i], atA);
    }
  }

  lemma OnlineIsNotStranded(c: Conn)
    requires IsOnline(c)
    ensures !Stranded(c)
  {
  }

  /** A side once stranded is never released. */
  lemma StrandedForever(states: seq<Pair>, moves: seq<Move>, i: nat, k: nat, atA: bool)
    requires IsRun(states, moves) && i <= k < |states| && DestroyedEarly(states, moves, i, atA)
    ensures var c := Me(states[k], atA); Stranded(c) && c.refs.kref > 0 && c.refs.postDestroys == 0
  {
    StrandedIff(states, moves, k, atA);
    RunInv(states, moves, k);
    InvCounted(Me(states[k], atA), Peer(states[k], atA));
  }

  // ----- who is told, and who is off the registry ------------------------------------------------

  /** Which events have come to this side so far. */
  ghost predicate Came(moves: seq<Move>, i: nat, atA: bool, e: Event)
    requires i <= |moves|
  {
    exists j :: 0 <= j < i && moves[j] == Move(atA, e)
  }

  /** A connection is on the registry until its user destroys it, or it closes with notification off. A
      user who is to be notified is told once it is closed, once, unless they destroy it first. */
  predicate Accounted(c: Conn, destroyed: bool, told: bool) {
    && (c.refs.registered <==> !destroyed && !(c.state.Closed? && c.disableNotify))
    && (c.work.teardown ==> c.state.Closed? && !c.disableNotify && !told && !c.refs.handlePut)
    && (told ==> c.state.Closed? && !c.disableNotify)
    && (c.state.Closed? && !c.disableNotify ==> c.work.teardown || told || c.refs.handlePut)
  }

  /** Nothing that `Accounted` looks at changes. */
  predicate Quiet(c: Conn, d: Conn) {
    && SameRegistry(c, d) && d.disableNotify == c.disableNotify && (d.state.Closed? <==> c.state.Closed?)
    && d.work.teardown == c.work.teardown
  }

  lemma QuietStep(c: Conn, p: Conn, e: Event)
    requires Before(c, p, e) && (e.UserDisconnect? || e.RunPreDisconnect? || e.SendFin? || e.SendAck? || e.FinCompletes?)
    ensures Quiet(c, Handle(c, p, e))
  {
    hide LocalInv;
  }

  lemma QuietFin(c: Conn, p: Conn)
    requires Before(c, p, FinArrives)
    ensures Quiet(c, OnFinReqRecv(c))
  {
    hide Before, OnFinReqRecv;
    FinNoted(c, p);
  }

  lemma QuietAckComp(c: Conn, p: Conn)
    requires Before(c, p, AckCompletes)
    ensures Quiet(c, OnFinAckSendComp(c))
  {
    assert c.state.Online? || c.state.FinWait1? || c.state.FinWait2?;
    hide Before;
  }

  lemma QuietAck(c: Conn, p: Conn)
    requires Before(c, p, AckArrives) && !c.state.LastAck?
    ensures Quiet(c, OnFinAckRecv(c))
  {
    assert (c.state.FinWait1? || c.state.Closing?) && c.finReqTimeout == 0;
    hide Before;
  }

  lemma ClosingAccounted(c: Conn, d: Conn, destroyed: bool, told: bool)
    requires Accounted(c, destroyed, told) && !c.state.Closed? && !c.refs.handlePut
    requires d.refs == c.refs && d.disableNotify == c.disableNotify && d.work.teardown == c.work.teardown
    ensures Accounted(ClosedRecord(d), destroyed, told)
  {
  }

  lemma CloseAccounted(c: Conn, p: Conn, e: Event, destroyed: bool, told: bool)
    requires Before(c, p, e) && Accounted(c, destroyed, told) && (e.RunCloseTimeWait? || (e.AckArrives? && c.state.LastAck?))
    ensures Accounted(Handle(c, p, e), destroyed, told)
  {
    hide EnterClosed, Before, LocalInv, ClosedRecord, Put, Accounted;
    NoHandlePut(c, p, e);
    if e.RunCloseTimeWait? {
      TimeWaitFinishes(c, p);
      var d := c.(work := c.work.(timeWait := false));
      ClosesAs(d);
      ClosingAccounted(c, d, destroyed, told);
    } else {
      LastAckFinishes(c, p);
      var d := c.(io := c.io.(acksRecv := 1), finReqTimeout := 1);
      ClosesAs(d);
      ClosingAccounted(c, d, destroyed, told);
    }
  }

  lemma NoHandlePut(c: Conn, p: Conn, e: Event)
    requires Before(c, p, e) && (e.RunCloseTimeWait? || (e.AckArrives? && c.state.LastAck?))
    ensures !c.state.Closed? && !c.refs.handlePut
  {
  }

  lemma DestroyAccounted(c: Conn, p: Conn, destroyed: bool, told: bool)
    requires Before(c, p, UserDestroy) && Accounted(c, destroyed, told)
    ensures Accounted(Destroy(c), true, told)
  {
    DestroyMeaning(c);
    assert !(c.state.Init? || c.state.Disconnected? || c.state.Error?);
    hide Destroy, Before;
  }

  lemma AccountedStep(c: Conn, p: Conn, e: Event, destroyed: bool, told: bool)
    requires Before(c, p, e) && Accounted(c, destroyed, told)
    ensures Accounted(Handle(c, p, e), destroyed || e.UserDestroy?, told || e.RunTeardown?)
  {
    hide Before, Destroy, OnFinReqRecv, OnFinAckRecv, OnFinAckSendComp, CloseTimeWait;
    match e
    case UserDestroy => DestroyAccounted(c, p, destroyed, told);
    case RunTeardown => assert c.work.teardown by { TeardownDue(c, p); }
    case RunCloseTimeWait => CloseAccounted(c, p, e, destroyed, told);
    case FinArrives => QuietFin(c, p);
    case AckCompletes => QuietAckComp(c, p);
    case AckArrives => if c.state.LastAck? { CloseAccounted(c, p, e, destroyed, told); } else { QuietAck(c, p); }
    case _ => QuietStep(c, p, e);
  }

  lemma TeardownDue(c: Conn, p: Conn)
    requires Before(c, p, RunTeardown)
    ensures c.work.teardown
  {
  }

  lemma AccountedMove(s: Pair, m: Move, s': Pair, atA: bool, destroyed: bool, told: bool)
    requires Inv(s) && Leads(s, m, s') && Accounted(Me(s, atA), destroyed, told)
    ensures Accounted(Me(s', atA), destroyed || m == Move(atA, UserDestroy), told || m == Move(atA, RunTeardown))
  {
    hide LocalInv, Linked, Handle, Accounted;
    if m.atA == atA { AccountedStep(Me(s, atA), Peer(s, atA), m.e, destroyed, told); }
  }

  lemma OnlineAccounted(c: Conn)
    requires IsOnline(c)
    ensures Accounted(c, false, false)
  {
  }

  /** In every run a side is on the registry until its user destroys it or it closes unnoticed, and a user who
      wants to be told is told exactly as `Accounted` says. */
  lemma {:induction false} RunAccounted(states: seq<Pair>, moves: seq<Move>, i: nat, atA: bool)
    requires IsRun(states, moves) && i < |states|
    ensures Accounted(Me(states[i], atA), Came(moves, i, atA, UserDestroy), Came(moves, i, atA, RunTeardown))
  {
    hide Leads, Accounted, Inv;
    if i == 0 {
      OnlineAccounted(Me(states[0], atA));
    } else {
      RunAccounted(states, moves, i - 1, atA);
      RunInv(states, moves, i - 1);
      var m := moves[i - 1];
      AccountedMove(states[i - 1], m, states[i], atA, Came(moves, i - 1, atA, UserDestroy), Came(moves, i - 1, atA, RunTeardown));
      CameNext(moves, i - 1, atA, UserDestroy);
      CameNext(moves, i - 1, atA, RunTeardown);
    }
  }

  lemma CameNext(moves: seq<Move>, i: nat, atA: bool, e: Event)
    requires i < |moves|
    ensures Came(moves, i + 1, atA, e) <==> Came(moves, i, atA, e) || moves[i] == Move(atA, e)
  {
  }

  /** After a destroy the side is off the registry for ever. */
  lemma DestroyedForever(states: seq<Pair>, moves: seq<Move>, j: nat, i: nat, atA: bool)
    requires IsRun(states, moves) && j < i < |states| && moves[j] == Move(atA, UserDestroy)
    ensures !Me(states[i], atA).refs.registered
  {
    RunAccounted(states, moves, i, atA);
  }

  /** Exactly when the connection is released, once a run that has begun to close is at rest: its user has
      destroyed it, or notification is off so that it was destroyed for them; and no destroy came before it
      was closed. Then post-destroy has run exactly once, and otherwise not at all. */
  lemma ReleasedIff(states: seq<Pair>, moves: seq<Move>, i: nat, atA: bool)
    requires IsRun(states, moves) && i < |states| && Begun(states[i]) && AtRest(states[i])
    ensures var c := Me(states[i], atA);
      var released := (c.disableNotify || Came(moves, i, atA, UserDestroy)) && !DestroyedEarly(states, moves, i, atA);
      c.refs.postDestroys == (if released then 1 else 0)
  {
    hide AtRest, DestroyedEarly, Came;
    CloseCompletes(states, moves, i);
    StrandedIff(states, moves, i, atA);
    RunAccounted(states, moves, i, atA);
    RunInv(states, moves, i);
  }

  /** A user who is to be told has been, at rest, unless they have destroyed the connection. */
  lemma ToldAtRest(states: seq<Pair>, moves: seq<Move>, i: nat, atA: bool)
    requires IsRun(states, moves) && i < |states| && Begun(states[i]) && AtRest(states[i])
    requires !Me(states[i], atA).disableNotify
    ensures Came(moves, i, atA, RunTeardown) || Came(moves, i, atA, UserDestroy)
  {
    CloseCompletes(states, moves, i);
    RunAccounted(states, moves, i, atA);
    RunInv(states, moves, i);
    assert !Enabled(states[i], Move(atA, RunTeardown));
    hide AtRest, Came;
  }

  // ----- a connection that is never released -----------------------------------------------------

  lemma ExtendRun(states: seq<Pair>, moves: seq<Move>, m: Move) returns (t: seq<Pair>, n: seq<Move>)
    requires IsRun(states, moves) && Enabled(states[|moves|], m)
    ensures IsRun(t, n) && n == moves + [m] && t == states + [Step(states[|moves|], m)]
  {
    hide IsOnline, Step, Enabled;
    t, n := states + [Step(states[|moves|], m)], moves + [m];
    assert Leads(states[|moves|], m, t[|n|]);
    hide Leads;
  }

  /** Every run can be taken on to rest, by handshake steps alone. */
  lemma {:induction false} GoesToRest(states: seq<Pair>, moves: seq<Move>) returns (t: seq<Pair>, n: seq<Move>)
    requires IsRun(states, moves)
    ensures IsRun(t, n) && states <= t && moves <= n && AtRest(t[|n|])
    ensures Begun(states[|moves|]) ==> Begun(t[|n|])
    decreases TotalLeft(states[|moves|])
  {
    LeftAt(states, moves, |moves|);
    hide TotalLeft, Leads, Enabled, Begun;
    if AtRest(states[|moves|]) {
      t, n := states, moves;
    } else {
      var m: Move :| !ByUser(m.e) && Enabled(states[|moves|], m);
      t, n := ExtendRun(states, moves, m);
      DropAt(t, n, |moves|);
      StaysBegun(t, n, |moves|);
      t, n := GoesToRest(t, n);
    }
  }

  lemma StaysBegun(states: seq<Pair>, moves: seq<Move>, k: nat)
    requires IsRun(states, moves) && k < |moves|
    ensures Begun(states[k]) ==> Begun(states[k + 1])
  {
    RunInv(states, moves, k);
    var m := moves[k];
    BegunStep(Me(states[k], m.atA), Peer(states[k], m.atA), m.e);
  }

  lemma BegunStep(c: Conn, p: Conn, e: Event)
    requires Before(c, p, e)
    ensures c.disconnecting ==> Handle(c, p, e).disconnecting
  {
    match e
    case FinArrives => FinNoted(c, p);
    case AckArrives => AckStaysBegun(c);
    case RunCloseTimeWait => ClosingStaysBegun(c.(work := c.work.(timeWait := false)));
    case _ =>
    hide EnterClosed;
  }

  lemma AckStaysBegun(c: Conn)
    ensures OnFinAckRecv(c).disconnecting == c.disconnecting
  {
    ClosingStaysBegun(c.(io := c.io.(acksRecv := c.io.acksRecv + 1), finReqTimeout := c.finReqTimeout + 1));
    hide EnterClosed, NextTransit;
  }

  lemma ClosingStaysBegun(c: Conn)
    ensures EnterClosed(c).disconnecting == c.disconnecting
  {
    FlushKeepsDisconnecting(c);
    hide FlushReqs;
  }

  lemma {:induction false} FlushKeepsDisconnecting(c: Conn)
    ensures FlushReqs(c).disconnecting == c.disconnecting
    decreases c.waiting.fins
  {
    if c.waiting.fins > 0 {
      var c1 := c.(waiting := c.waiting.(fins := c.waiting.fins - 1));
      FlushKeepsDisconnecting(if c.state.Disconnected? then c1 else c1.(finRequestFlushed := true, refs := PutRef(PutRef(c.refs))));
    }
  }

  /** From any two online connections: the user of one destroys it, disconnects, waits until all is done and
      both sides are closed, and destroys it again. It is not released. */
  lemma EarlyDestroyNeverReleased(s: Pair) returns (states: seq<Pair>, moves: seq<Move>)
    requires IsOnline(s.a) && IsOnline(s.b)
    ensures IsRun(states, moves) && states[0] == s && |moves| >= 3
    ensures moves[0] == Move(true, UserDestroy) && moves[1] == Move(true, UserDisconnect)
    ensures moves[|moves| - 1] == Move(true, UserDestroy)
    ensures var e := states[|moves|]; AtRest(e) && BothClosed(e) && e.a.refs.kref == 1 && e.a.refs.postDestroys == 0
  {
    states, moves := [s], [];
    states, moves := ExtendRun(states, moves, Move(true, UserDestroy));
    assert RefusedDestroy(s.a, UserDestroy);
    assert !states[1].a.refs.handlePut;
    states, moves := ExtendRun(states, moves, Move(true, UserDisconnect));
    assert Begun(states[2]);
    var rest, way := GoesToRest(states, moves);
    states, moves := rest, way;
    var k := |moves|;
    assert moves[0].atA && states[0] == s && DestroyedEarly(states, moves, k, true);
    StrandedForever(states, moves, k, k, true);
    states, moves := ExtendRun(states, moves, Move(true, UserDestroy));
    assert states[k + 1] == states[k];
    CloseCompletes(states, moves, k + 1);
  }
}
