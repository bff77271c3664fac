/**
  The closing side of the connection record, changed in place by the handlers of the close
  handshake. `View` is its value; each method does to it what `CloseHandshake` says. Two such objects
  are then driven against each other, and what is proved of runs holds of the objects.
 */
module CloseConnection {
  import opened CloseHandshake
  import opened CloseRuns

  class ClosingConnection {
    var state: ConnState
    var kref: int
    var postDestroys: nat
    var registered: bool
    var handlePut: bool
    var disconnecting: bool
    var disableNotify: bool
    var finReqTimeout: nat
    var finRequestFlushed: bool
    var finsWaiting: nat
    var acksWaiting: nat
    var finWork: bool
    var finDelayedWork: bool
    var teardownWork: bool
    var io: Traffic

    function RefsView(): Refs
      reads this
    {
      Refs(kref, postDestroys, registered, handlePut)
    }

    function WorkView(): Work
      reads this
    {
      Work(finWork, finDelayedWork, teardownWork)
    }

    function View(): Conn
      reads this
    {
      Conn(state, RefsView(), disconnecting, disableNotify, finReqTimeout, finRequestFlushed,
           Waiting(finsWaiting, acksWaiting), WorkView(), io)
    }

    /** `xio_connection_create`, once the connection is online */
    constructor (quiet: bool)
      ensures View() == Conn(Online, Refs(1, 0, true, false), false, quiet, 0, false, Waiting(0, 0),
                             Work(false, false, false), Traffic(0, 0, 0, 0, 0, 0))
    {
      state := Online;
      kref, postDestroys, registered, handlePut := 1, 0, true, false;
      disconnecting, disableNotify := false, quiet;
      finReqTimeout, finRequestFlushed := 0, false;
      finsWaiting, acksWaiting := 0, 0;
      finWork, finDelayedWork, teardownWork := false, false, false;
      io := Traffic(0, 0, 0, 0, 0, 0);
    }

    method KrefGet()
      modifies this`kref
      ensures RefsView() == GetRef(old(RefsView()))
    {
      kref := kref + 1;
    }

    method KrefPut()
      modifies this`kref, this`postDestroys
      ensures RefsView() == PutRef(old(RefsView()))
    {
      kref := kref - 1;
      if kref == 0 { postDestroys := postDestroys + 1; }
    }

    /** `xio_send_fin_req` */
    method SendFin()
      modifies this`finsWaiting, this`finReqTimeout, this`kref
      ensures View() == SendFinReq(old(View()))
    {
      finsWaiting := finsWaiting + 1;
      finReqTimeout := 0;
      KrefGet();
      KrefGet();
    }

    /** `xio_send_fin_ack` */
    method SendAck()
      modifies this`acksWaiting, this`kref
      ensures View() == SendFinAck(old(View()))
    {
      acksWaiting := acksWaiting + 1;
      KrefGet();
    }

    /** The loop of `xio_connection_notify_req_msgs_flush`, for the FINs on the request queue. */
    method FlushFins()
      modifies this`finsWaiting, this`finRequestFlushed, this`kref, this`postDestroys
      ensures View() == FlushReqs(old(View()))
    {
      hide PutRef;
      while finsWaiting > 0
        invariant FlushReqs(View()) == FlushReqs(old(View()))
        decreases finsWaiting
      {
        finsWaiting := finsWaiting - 1;
        if !state.Disconnected? {
          finRequestFlushed := true;
          KrefPut();
          KrefPut();
        }
      }
    }

    /** `xio_disconnect` */
    method Disconnect()
      modifies this`disconnecting, this`finWork
      ensures View() == CloseHandshake.Disconnect(old(View()))
    {
      if (!state.Online? && !state.Established?) || disconnecting {
        disconnecting := true;
        return;
      }
      disconnecting := true;
      finWork := true;
    }

    /** `xio_pre_disconnect` */
    method PreDisconnect()
      modifies this
      ensures View() == CloseHandshake.PreDisconnect(old(View()))
    {
      finWork := false;
      if !state.Online? { return; }
      KrefGet();
      state := FinWait1;
      SendFin();
    }

    /** `xio_connection_destroy` */
    method Destroy()
      modifies this`registered, this`finWork, this`finDelayedWork, this`teardownWork, this`handlePut,
               this`kref, this`postDestroys
      ensures View() == CloseHandshake.Destroy(old(View()))
    {
      if !registered { return; }
      registered := false;
      if !(state.Init? || state.Closed? || state.Disconnected? || state.Error?) { return; }
      DropHandle();
    }

    /** Pending work is cancelled and the user's reference dropped. */
    method DropHandle()
      modifies this`finWork, this`finDelayedWork, this`teardownWork, this`handlePut, this`kref, this`postDestroys
      ensures WorkView() == Work(false, false, false)
      ensures RefsView() == PutRef(old(RefsView()).(handlePut := true))
    {
      finWork, teardownWork, finDelayedWork := false, false, false;
      handlePut := true;
      KrefPut();
    }

    /** The part `xio_close_time_wait` and `xio_handle_last_ack` have in common. */
    method Close()
      modifies this
      ensures View() == EnterClosed(old(View()))
    {
      FlushFins();
      acksWaiting := 0;
      state := Closed;
      if !disableNotify { teardownWork := true; } else { Destroy(); }
    }

    /** `xio_close_time_wait` */
    method CloseTimeWait()
      modifies this
      ensures View() == CloseHandshake.CloseTimeWait(old(View()))
    {
      finDelayedWork := false;
      Close();
      KrefPut();
    }

    /** `xio_on_fin_req_recv` */
    method OnFinReqRecv()
      modifies this
      ensures View() == CloseHandshake.OnFinReqRecv(old(View()))
    {
      hide NextTransit, FlushReqs;
      io := io.(finsRecv := io.finsRecv + 1);
      var transition := NextTransit(state, false);
      if !transition.valid { return; }
      FlushFins();
      if finRequestFlushed { SendFin(); }
      if transition.sendAck { SendAck(); }
    }

    /** `xio_on_fin_req_send_comp` */
    method OnFinReqSendComp()
      modifies this`io, this`kref, this`postDestroys
      ensures View() == CloseHandshake.OnFinReqSendComp(old(View()))
    {
      io := io.(finComps := io.finComps + 1);
      KrefPut();
    }

    method AdvanceTo(next: ConnState)
      modifies this`state, this`finDelayedWork
      ensures View() == Advance(old(View()), next)
    {
      state := next;
      if state.TimeWait? { finDelayedWork := true; }
    }

    /** ONLINE to CLOSE_WAIT to LAST_ACK, in one handler */
    method PassiveClose()
      modifies this`state, this`disconnecting, this`finsWaiting, this`finReqTimeout, this`kref
      ensures View() == AnswerFin(old(View()))
    {
      state := CloseWait;
      disconnecting := true;
      SendFin();
      state := LastAck;
    }

    /** The state change made by a valid ACK. */
    method FinAcked(next: ConnState)
      modifies this
      ensures View() == if old(state).LastAck? then EnterClosed(old(View())) else Advance(old(View()), next)
    {
      if state.LastAck? { Close(); } else { AdvanceTo(next); }
    }

    /** `xio_on_fin_ack_recv` */
    method OnFinAckRecv()
      modifies this
      ensures View() == CloseHandshake.OnFinAckRecv(old(View()))
    {
      hide NextTransit, EnterClosed, Advance, PutRef;
      io := io.(acksRecv := io.acksRecv + 1);
      if finReqTimeout != 0 { return; }
      finReqTimeout := finReqTimeout + 1;
      var transition := NextTransit(state, true);
      if transition.valid { FinAcked(transition.next); }
      KrefPut();
    }

    /** `xio_on_fin_ack_send_comp` */
    method OnFinAckSendComp()
      modifies this
      ensures View() == CloseHandshake.OnFinAckSendComp(old(View()))
    {
      hide NextTransit, AnswerFin, Advance, PutRef;
      io := io.(ackComps := io.ackComps + 1);
      var transition := NextTransit(state, false);
      if !transition.valid { return; }
      if transition.next.CloseWait? { PassiveClose(); } else { AdvanceTo(transition.next); }
      KrefPut();
    }

    /** The transport takes the queued FIN. */
    method FinGoesOut()
      requires finsWaiting > 0
      modifies this`finsWaiting, this`io
      ensures View() == TransmitFin(old(View()))
    {
      finsWaiting := finsWaiting - 1;
      io := io.(finsSent := io.finsSent + 1);
    }

    /** The transport takes the queued ACK. */
    method AckGoesOut()
      requires acksWaiting > 0
      modifies this`acksWaiting, this`io
      ensures View() == TransmitAck(old(View()))
    {
      acksWaiting := acksWaiting - 1;
      io := io.(acksSent := io.acksSent + 1);
    }

    /** `xio_connection_teardown_handler` */
    method TeardownHandler()
      modifies this`teardownWork
      ensures View() == Teardown(old(View()))
    {
      teardownWork := false;
    }

    /** Whatever happens next to this side, by the method that handles it. */
    method Take(e: Event, ghost peer: Conn)
      requires EnabledAt(View(), peer, e)
      modifies this
      ensures View() == Handle(old(View()), peer, e)
    {
      hide NextTransit;
      match e
      case UserDisconnect => Disconnect();
      case UserDestroy => Destroy();
      case RunPreDisconnect => PreDisconnect();
      case RunCloseTimeWait => CloseTimeWait();
      case RunTeardown => TeardownHandler();
      case SendFin => FinGoesOut();
      case SendAck => AckGoesOut();
      case FinArrives => OnFinReqRecv();
      case AckArrives => OnFinAckRecv();
      case FinCompletes => OnFinReqSendComp();
      case AckCompletes => OnFinAckSendComp();
    }
  }

  /** One move of the pair, in place. */
  method TakeMove(a: ClosingConnection, b: ClosingConnection, m: Move)
    requires a != b && Enabled(Pair(a.View(), b.View()), m)
    modifies a, b
    ensures Leads(old(Pair(a.View(), b.View())), m, Pair(a.View(), b.View()))
  {
    hide Handle, EnabledAt;
    if m.atA { a.Take(m.e, b.View()); } else { b.Take(m.e, a.View()); }
  }

  /** Two online connections and any schedule of user calls, deliveries, completions and scheduled work,
      what is not due left out. Afterwards both objects are safe and their references counted right. */
  method RunSchedule(a: ClosingConnection, b: ClosingConnection, schedule: seq<Move>)
    returns (ghost states: seq<Pair>, ghost moves: seq<Move>)
    requires a != b && IsOnline(a.View()) && IsOnline(b.View())
    modifies a, b
    ensures IsRun(states, moves) && states[|moves|] == Pair(a.View(), b.View())
    ensures Safe(a.View(), b.View()) && Safe(b.View(), a.View())
    ensures CountedRight(a.View(), b.View()) && CountedRight(b.View(), a.View())
    ensures HandshakeSteps(moves, |moves|) <= 22
  {
    hide IsOnline, Leads, Safe, CountedRight, HandshakeSteps, EnabledAt, Handle;
    states, moves := [Pair(a.View(), b.View())], [];
    for i := 0 to |schedule|
      invariant IsRun(states, moves) && states[|moves|] == Pair(a.View(), b.View())
    {
      if Enabled(Pair(a.View(), b.View()), schedule[i]) {
        TakeMove(a, b, schedule[i]);
        states, moves := Extended(states, moves, schedule[i], Pair(a.View(), b.View()));
      }
    }
    CloseIsSafe(states, moves, |moves|, true);
    CloseIsSafe(states, moves, |moves|, false);
    CountsHolders(states, moves, |moves|, true);
    CountsHolders(states, moves, |moves|, false);
    HandshakeIsFinite(states, moves, |moves|);
  }

  lemma Extended(states: seq<Pair>, moves: seq<Move>, m: Move, s: Pair) returns (t: seq<Pair>, n: seq<Move>)
    requires IsRun(states, moves) && Leads(states[|moves|], m, s)
    ensures IsRun(t, n) && t == states + [s] && n == moves + [m]
  {
    hide IsOnline, Leads;
    t, n := states + [s], moves + [m];
  }

  /** The handshake steps of both sides. */
  const Steps: seq<Event> :=
    [RunPreDisconnect, RunCloseTimeWait, RunTeardown, SendFin, SendAck,
     FinArrives, AckArrives, FinCompletes, AckCompletes]

  /** A handshake step that is due, if there is one. */
  method Due(a: ClosingConnection, b: ClosingConnection) returns (found: bool, m: Move)
    ensures found ==> Enabled(Pair(a.View(), b.View()), m) && !ByUser(m.e)
    ensures !found ==> AtRest(Pair(a.View(), b.View()))
  {
    hide EnabledAt;
    ghost var s := Pair(a.View(), b.View());
    found, m := false, Move(true, RunTeardown);
    for i := 0 to |Steps|
      invariant forall k :: 0 <= k < i ==> !Enabled(s, Move(true, Steps[k])) && !Enabled(s, Move(false, Steps[k]))
    {
      if Enabled(Pair(a.View(), b.View()), Move(true, Steps[i])) { return true, Move(true, Steps[i]); }
      if Enabled(Pair(a.View(), b.View()), Move(false, Steps[i])) { return true, Move(false, Steps[i]); }
    }
    forall x: Move | !ByUser(x.e) ensures !Enabled(s, x) {
      var k := StepIndex(x.e);
      assert Move(x.atA, Steps[k]) == x;
    }
  }

  lemma StepIndex(e: Event) returns (k: nat)
    requires !ByUser(e)
    ensures k < |Steps| && Steps[k] == e
  {
    match e
    case RunPreDisconnect => k := 0;
    case RunCloseTimeWait => k := 1;
    case RunTeardown => k := 2;
    case SendFin => k := 3;
    case SendAck => k := 4;
    case FinArrives => k := 5;
    case AckArrives => k := 6;
    case FinCompletes => k := 7;
    case AckCompletes => k := 8;
  }

  /** From any state of any run, taking steps as they are due comes to rest; if either side has
      disconnected, both objects are then closed and only their users still hold them. An object is
      released, once, exactly if it was destroyed, by its user or for them, and not before it was closed. */
  method RunToRest(a: ClosingConnection, b: ClosingConnection, ghost states: seq<Pair>, ghost moves: seq<Move>)
    returns (ghost t: seq<Pair>, ghost n: seq<Move>)
    requires a != b && IsRun(states, moves) && states[|moves|] == Pair(a.View(), b.View())
    modifies a, b
    ensures IsRun(t, n) && t[|n|] == Pair(a.View(), b.View()) && AtRest(t[|n|])
    ensures Begun(t[|n|]) ==> a.state.Closed? && b.state.Closed?
    ensures Begun(t[|n|]) ==> a.kref == B2N(!a.handlePut) && b.kref == B2N(!b.handlePut)
    ensures Begun(t[|n|]) ==>
              (a.postDestroys == 1 <==> (a.disableNotify || Came(n, |n|, true, UserDestroy)) && !DestroyedEarly(t, n, |n|, true))
    ensures Begun(t[|n|]) ==>
              (b.postDestroys == 1 <==> (b.disableNotify || Came(n, |n|, false, UserDestroy)) && !DestroyedEarly(t, n, |n|, false))
    ensures a.postDestroys <= 1 && b.postDestroys <= 1
  {
    hide IsRun, Leads, TotalLeft, EnabledAt, AtRest, HandshakeSteps, DestroyedEarly, Came, CountedRight;
    t, n := states, moves;
    RunIsPositive(t, n);
    var found, m := Due(a, b);
    while found
      invariant IsRun(t, n) && |t| == |n| + 1 && t[|n|] == Pair(a.View(), b.View()) && TotalLeft(t[|n|]) >= 0
      invariant if found then Enabled(t[|n|], m) && !ByUser(m.e) else AtRest(t[|n|])
      decreases TotalLeft(t[|n|]), found
    {
      TakeMove(a, b, m);
      t, n := Stepped(t, n, m, Pair(a.View(), b.View()));
      found, m := Due(a, b);
    }
    AtMostOnce(t, n);
    if Begun(t[|n|]) {
      CloseCompletes(t, n, |n|);
      ReleasedIff(t, n, |n|, true);
      ReleasedIff(t, n, |n|, false);
    }
  }

  lemma AtMostOnce(states: seq<Pair>, moves: seq<Move>)
    requires IsRun(states, moves)
    ensures |states| == |moves| + 1
    ensures states[|moves|].a.refs.postDestroys <= 1 && states[|moves|].b.refs.postDestroys <= 1
  {
    CountsHolders(states, moves, |moves|, true);
    CountsHolders(states, moves, |moves|, false);
    hide IsOnline, Leads, Holders, EnabledAt;
  }

  lemma RunIsPositive(states: seq<Pair>, moves: seq<Move>)
    requires IsRun(states, moves)
    ensures |states| == |moves| + 1 && TotalLeft(states[|moves|]) >= 0
  {
    LeftAt(states, moves, |moves|);
  }

  lemma Stepped(states: seq<Pair>, moves: seq<Move>, m: Move, s: Pair) returns (t: seq<Pair>, n: seq<Move>)
    requires IsRun(states, moves) && Leads(states[|moves|], m, s) && !ByUser(m.e)
    ensures IsRun(t, n) && t == states + [s] && n == moves + [m]
    ensures 0 <= TotalLeft(s) < TotalLeft(states[|moves|])
  {
    hide IsOnline, Leads, TotalLeft;
    t, n := Extended(states, moves, m, s);
    RunInv(states, moves, |moves|);
    StepProgress(states[|moves|], m, s);
    RunIsPositive(t, n);
  }
}
