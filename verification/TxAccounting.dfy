/**
  The send-queue counters `tx_queued_msgs` and `tx_bytes`: which messages they count, when a message
  stops being counted, and how far they can grow. One message per send call, flow control on, no
  RDMA, cancellation, reconnect or failed send. `tx_bytes` has 64 bits and may wrap.
 */
module TxAccounting {
  import opened Words
  import opened Sums
  import opened FlowControl

  datatype Tx = Tx(queuedMsgs: int, bytes: U64)

  datatype SendLimits = SendLimits(msgs: U16, bytes: U64)

  /** The two overflow tests of `xio_send_request` and `xio_send_typed_msg`. */
  predicate Overflows(tx: Tx, lim: SendLimits, m: Msg) {
    tx.queuedMsgs > lim.msgs || Add64(tx.bytes, m.bytes) > lim.bytes
  }

  function Count(tx: Tx, m: Msg): Tx { Tx(tx.queuedMsgs + 1, Add64(tx.bytes, m.bytes)) }

  function Uncount(tx: Tx, m: Msg): Tx { Tx(tx.queuedMsgs - 1, Sub64(tx.bytes, m.bytes)) }

  // ----- runs ------------------------------------------------------------------------------------

  datatype Phase = Waiting | InFlight | Answered

  /** A message that was accepted and has not come to its end. */
  datatype Entry = Entry(m: Msg, phase: Phase)

  /** What is kept of a transmitted one-way message. It sees a send completion and, if the peer was asked
      for one, a receipt, in either order. `attached` is `task->omsg != NULL`. */
  datatype Task = Task(m: Msg, wantsReceipt: bool, immReceipt: bool, attached: bool,
                       completed: bool, receipted: bool, uncounts: nat)

  datatype State = State(tx: Tx, nextSn: nat, open: seq<Entry>, tasks: map<U64, Task>)

  datatype Event =
    | Submit(m: Msg)
    | Transmit(i: nat, wantsReceipt: bool, immReceipt: bool)
    | ResponseArrives(i: nat)
    | ReleaseResponse(i: nat)
    | OneWayCompletes(sn: U64, i: nat)   // i is where the message is, if it is to be uncounted
    | ReceiptArrives(sn: U64, i: nat)

  /** `xio_on_ow_req_send_comp` leaves a message alone when a receipt ended it, or will. */
  predicate CompletionCounts(t: Task) { t.attached && !t.wantsReceipt && !t.immReceipt }

  predicate Due(s: State, e: Event) {
    match e
    case OneWayCompletes(sn, i) => sn in s.tasks && !s.tasks[sn].completed
    case ReceiptArrives(sn, i) =>
      sn in s.tasks && (s.tasks[sn].wantsReceipt || s.tasks[sn].immReceipt) && !s.tasks[sn].receipted
    case _ => true
  }

  /** The event that is due ends the message at position `i` of the open messages. */
  predicate PointsAt(s: State, sn: U64, i: nat)
    requires sn in s.tasks
  {
    i < |s.open| && s.open[i] == Entry(s.tasks[sn].m, InFlight)
  }

  predicate Enabled(s: State, lim: SendLimits, e: Event)
  {
    && Due(s, e)
    && match e
       case Submit(m) => (m.typ.Req? || m.typ.OneWayReq?) && s.nextSn <= m.sn
       case Transmit(i, wants, imm) => i < |s.open| && s.open[i].phase.Waiting? && !(wants && imm)
       case ResponseArrives(i) => i < |s.open| && s.open[i].phase.InFlight? && s.open[i].m.typ.Req?
       case ReleaseResponse(i) => i < |s.open| && s.open[i].phase.Answered?
       case OneWayCompletes(sn, i) => CompletionCounts(s.tasks[sn]) ==> PointsAt(s, sn, i)
       case ReceiptArrives(sn, i) => PointsAt(s, sn, i)
  }

  function End(s: State, i: nat): State
    requires i < |s.open|
  {
    s.(tx := Uncount(s.tx, s.open[i].m), open := Without(s.open, i))
  }

  function Next(s: State, lim: SendLimits, e: Event): State
    requires Enabled(s, lim, e)
  {
    match e
    case Submit(m) =>
      if Overflows(s.tx, lim, m) then s
      else s.(tx := Count(s.tx, m), nextSn := m.sn + 1, open := s.open + [Entry(m, Waiting)])
    case Transmit(i, wants, imm) =>
      var m := s.open[i].m;
      var s1 := s.(open := s.open[i := Entry(m, InFlight)]);
      if m.typ.Req? then s1 else s1.(tasks := s.tasks[m.sn := Task(m, wants, imm, true, false, false, 0)])
    case ResponseArrives(i) => s.(open := s.open[i := Entry(s.open[i].m, Answered)])
    case ReleaseResponse(i) => End(s, i)
    case OneWayCompletes(sn, i) =>
      var t := s.tasks[sn];
      if CompletionCounts(t)
      then End(s, i).(tasks := s.tasks[sn := t.(completed := true, uncounts := t.uncounts + 1)])
      else s.(tasks := s.tasks[sn := t.(completed := true)])
    case ReceiptArrives(sn, i) =>
      var t := s.tasks[sn];
      End(s, i).(tasks := s.tasks[sn := t.(receipted := true, attached := false, uncounts := t.uncounts + 1)])
  }

  // ----- the invariant ---------------------------------------------------------------------------

  function EntryBytes(e: Entry): nat { e.m.bytes }

  predicate Ended(t: Task) { t.receipted || (t.completed && !t.wantsReceipt && !t.immReceipt) }

  predicate Counted(s: State, lim: SendLimits) {
    && s.tx.queuedMsgs == |s.open| <= lim.msgs + 1
    && s.tx.bytes == Total(EntryBytes, s.open) % TWO64
  }

  predicate Distinct(s: State) {
    && (forall i, j :: 0 <= i < j < |s.open| ==> s.open[i].m.sn != s.open[j].m.sn)
    && (forall i :: 0 <= i < |s.open| ==> s.open[i].m.sn < s.nextSn)
    && (forall i :: 0 <= i < |s.open| && s.open[i].phase.Answered? ==> s.open[i].m.typ.Req?)
    && (forall i :: 0 <= i < |s.open| ==> s.open[i].m.typ.Req? || s.open[i].m.typ.OneWayReq?)
  }

  predicate TaskOk(sn: U64, t: Task) {
    && t.m.sn == sn && t.m.typ.OneWayReq?
    && !(t.wantsReceipt && t.immReceipt)
    && (t.attached <==> !t.receipted)
    && (t.receipted ==> t.wantsReceipt || t.immReceipt)
    && t.uncounts == if Ended(t) then 1 else 0
  }

  /** A one-way message is open exactly while its task has not ended it. */
  predicate TasksMatch(s: State) {
    && (forall sn :: sn in s.tasks ==> TaskOk(sn, s.tasks[sn]) && sn < s.nextSn)
    && (forall sn :: sn in s.tasks && !Ended(s.tasks[sn]) ==> Entry(s.tasks[sn].m, InFlight) in s.open)
    && (forall sn :: sn in s.tasks && Ended(s.tasks[sn]) ==> forall i :: 0 <= i < |s.open| ==> s.open[i].m.sn != sn)
    && (forall i :: 0 <= i < |s.open| && s.open[i].m.typ.OneWayReq? ==>
          (s.open[i].phase.InFlight? <==> s.open[i].m.sn in s.tasks))
  }

  predicate Inv(s: State, lim: SendLimits) { Counted(s, lim) && Distinct(s) && TasksMatch(s) }

  lemma CountedSubmit(s: State, lim: SendLimits, m: Msg)
    requires Counted(s, lim) && Enabled(s, lim, Submit(m))
    ensures Counted(Next(s, lim, Submit(m)), lim)
  {
    TotalAppend(EntryBytes, s.open, Entry(m, Waiting));
  }

  lemma CountedEnd(s: State, lim: SendLimits, i: nat)
    requires Counted(s, lim) && i < |s.open|
    ensures Counted(End(s, i), lim)
  {
    TotalWithout(EntryBytes, s.open, i);
  }

  lemma CountedRephase(s: State, i: nat, p: Phase)
    requires i < |s.open|
    ensures Total(EntryBytes, s.open[i := Entry(s.open[i].m, p)]) == Total(EntryBytes, s.open)
  {
    var t := s.open[i := Entry(s.open[i].m, p)];
    TotalWithout(EntryBytes, s.open, i);
    TotalWithout(EntryBytes, t, i);
    assert Without(t, i) == Without(s.open, i);
  }

  lemma EndOpen(s: State, i: nat)
    requires Distinct(s) && i < |s.open|
    ensures Distinct(End(s, i))
    ensures forall e :: e in End(s, i).open <==> e in s.open && e != s.open[i]
    ensures forall e :: e in End(s, i).open ==> e.m.sn != s.open[i].m.sn
  {
    var o, t := s.open, Without(s.open, i);
    forall j | 0 <= j < |t| ensures t[j] == o[if j < i then j else j + 1] {}
    forall e | e in o && e != o[i] ensures e in t {
      var j :| 0 <= j < |o| && o[j] == e;
      assert t[if j < i then j else j - 1] == e;
    }
  }

  lemma SubmitInv(s: State, lim: SendLimits, m: Msg)
    requires Inv(s, lim) && Enabled(s, lim, Submit(m))
    ensures Inv(Next(s, lim, Submit(m)), lim)
  {
    hide Counted, TaskOk, Ended, Overflows;
    CountedSubmit(s, lim, m);
    var s' := Next(s, lim, Submit(m));
    forall sn | sn in s'.tasks && !Ended(s'.tasks[sn]) ensures Entry(s'.tasks[sn].m, InFlight) in s'.open {
      assert Entry(s.tasks[sn].m, InFlight) in s.open;
    }
  }

  lemma DistinctRephase(s: State, i: nat, p: Phase)
    requires Distinct(s) && i < |s.open| && (p.Answered? ==> s.open[i].m.typ.Req?)
    ensures Distinct(s.(open := s.open[i := Entry(s.open[i].m, p)]))
  {
  }

  lemma TransmitTasks(s: State, lim: SendLimits, i: nat, wants: bool, imm: bool)
    requires Distinct(s) && TasksMatch(s) && Enabled(s, lim, Transmit(i, wants, imm))
    ensures TasksMatch(Next(s, lim, Transmit(i, wants, imm)))
  {
    var s' := Next(s, lim, Transmit(i, wants, imm));
    assert s'.open[i] == Entry(s.open[i].m, InFlight);
    forall sn | sn in s'.tasks && !Ended(s'.tasks[sn]) ensures Entry(s'.tasks[sn].m, InFlight) in s'.open {
      if sn in s.tasks && s'.tasks[sn] == s.tasks[sn] {
        var j :| 0 <= j < |s.open| && s.open[j] == Entry(s.tasks[sn].m, InFlight);
        assert s'.open[j] == s.open[j];
      }
    }
  }

  lemma TransmitInv(s: State, lim: SendLimits, i: nat, wants: bool, imm: bool)
    requires Inv(s, lim) && Enabled(s, lim, Transmit(i, wants, imm))
    ensures Inv(Next(s, lim, Transmit(i, wants, imm)), lim)
  {
    CountedRephase(s, i, InFlight);
    DistinctRephase(s, i, InFlight);
    TransmitTasks(s, lim, i, wants, imm);
  }

  lemma ResponseInv(s: State, lim: SendLimits, i: nat)
    requires Inv(s, lim) && Enabled(s, lim, ResponseArrives(i))
    ensures Inv(Next(s, lim, ResponseArrives(i)), lim)
  {
    var s' := Next(s, lim, ResponseArrives(i));
    CountedRephase(s, i, Answered);
    DistinctRephase(s, i, Answered);
    forall sn | sn in s'.tasks && !Ended(s'.tasks[sn]) ensures Entry(s'.tasks[sn].m, InFlight) in s'.open {
      var j :| 0 <= j < |s.open| && s.open[j] == Entry(s.tasks[sn].m, InFlight);
      assert s'.open[j] == s.open[j];
    }
  }

  lemma ReleaseInv(s: State, lim: SendLimits, i: nat)
    requires Inv(s, lim) && Enabled(s, lim, ReleaseResponse(i))
    ensures Inv(Next(s, lim, ReleaseResponse(i)), lim)
  {
    CountedEnd(s, lim, i);
    EndOpen(s, i);
    TasksAfterEnd(s, End(s, i), i);
  }

  /** Ending the message at `i` keeps the tasks in step, if its own task (if any) is now ended. */
  lemma TasksAfterEnd(s: State, s': State, i: nat)
    requires Distinct(s) && TasksMatch(s) && i < |s.open|
    requires s'.open == End(s, i).open && s'.nextSn == s.nextSn && s'.tasks.Keys == s.tasks.Keys
    requires forall sn :: sn in s'.tasks ==> TaskOk(sn, s'.tasks[sn])
    requires forall sn :: sn in s.tasks && sn != s.open[i].m.sn ==> s'.tasks[sn] == s.tasks[sn]
    requires s.open[i].m.sn in s.tasks ==> Ended(s'.tasks[s.open[i].m.sn])
    ensures TasksMatch(s')
  {
    EndOpen(s, i);
    forall sn | sn in s'.tasks && !Ended(s'.tasks[sn]) ensures Entry(s'.tasks[sn].m, InFlight) in s'.open {
      assert Entry(s.tasks[sn].m, InFlight) in s.open;
    }
    forall sn, j | sn in s'.tasks && Ended(s'.tasks[sn]) && 0 <= j < |s'.open| ensures s'.open[j].m.sn != sn {
      assert s'.open[j] in s'.open;
    }
    forall j | 0 <= j < |s'.open| && s'.open[j].m.typ.OneWayReq?
      ensures s'.open[j].phase.InFlight? <==> s'.open[j].m.sn in s'.tasks
    {
      assert s'.open[j] in s.open;
    }
  }

  /** A completion that a receipt makes irrelevant changes nothing but its own mark. */
  lemma LateCompletion(s: State, s': State, sn: U64)
    requires TasksMatch(s) && sn in s.tasks && !CompletionCounts(s.tasks[sn])
    requires s' == s.(tasks := s.tasks[sn := s.tasks[sn].(completed := true)])
    ensures TasksMatch(s')
  {
    assert TaskOk(sn, s.tasks[sn]);
    assert Ended(s'.tasks[sn]) <==> Ended(s.tasks[sn]);
  }

  lemma CompletionInv(s: State, lim: SendLimits, sn: U64, i: nat)
    requires Inv(s, lim) && Enabled(s, lim, OneWayCompletes(sn, i))
    ensures Inv(Next(s, lim, OneWayCompletes(sn, i)), lim)
  {
    var s' := Next(s, lim, OneWayCompletes(sn, i));
    assert TaskOk(sn, s.tasks[sn]);
    if CompletionCounts(s.tasks[sn]) {
      CountedEnd(s, lim, i);
      EndOpen(s, i);
      TasksAfterEnd(s, s', i);
    } else {
      LateCompletion(s, s', sn);
      hide TasksMatch;
    }
  }

  lemma ReceiptInv(s: State, lim: SendLimits, sn: U64, i: nat)
    requires Inv(s, lim) && Enabled(s, lim, ReceiptArrives(sn, i))
    ensures Inv(Next(s, lim, ReceiptArrives(sn, i)), lim)
  {
    CountedEnd(s, lim, i);
    EndOpen(s, i);
    TasksAfterEnd(s, Next(s, lim, ReceiptArrives(sn, i)), i);
  }

  lemma StepInv(s: State, lim: SendLimits, e: Event)
    requires Inv(s, lim) && Enabled(s, lim, e)
    ensures Inv(Next(s, lim, e), lim)
  {
    match e
    case Submit(m) => SubmitInv(s, lim, m);
    case Transmit(i, wants, imm) => TransmitInv(s, lim, i, wants, imm);
    case ResponseArrives(i) => ResponseInv(s, lim, i);
    case ReleaseResponse(i) => ReleaseInv(s, lim, i);
    case OneWayCompletes(sn, i) => CompletionInv(s, lim, sn, i);
    case ReceiptArrives(sn, i) => ReceiptInv(s, lim, sn, i);
  }

  predicate IsRun(lim: SendLimits, states: seq<State>, events: seq<Event>) {
    && |states| == |events| + 1
    && states[0].tx == Tx(0, 0) && states[0].open == [] && states[0].tasks == map[]
    && forall i {:trigger events[i]} :: 0 <= i < |events| ==>
         Enabled(states[i], lim, events[i]) && states[i + 1] == Next(states[i], lim, events[i])
  }

  lemma {:induction false} RunInv(lim: SendLimits, states: seq<State>, events: seq<Event>, k: nat)
    requires IsRun(lim, states, events) && k < |states|
    ensures Inv(states[k], lim)
  {
    if k > 0 {
      RunInv(lim, states, events, k - 1);
      var e := events[k - 1];
      StepInv(states[k - 1], lim, e);
    }
  }

  // ----- the laws --------------------------------------------------------------------------------

  /** In every run the message counter is the number of accepted, unfinished messages, at most one over
      the depth since the test is made before counting; the byte counter is their length modulo 2^64. */
  lemma CountersModulo(lim: SendLimits, states: seq<State>, events: seq<Event>, k: nat)
    requires IsRun(lim, states, events) && k < |states|
    ensures var s := states[k];
      && s.tx.queuedMsgs == |s.open| <= lim.msgs + 1
      && s.tx.bytes == Total(EntryBytes, s.open) % TWO64
  {
    RunInv(lim, states, events, k);
  }

  /** The state once `m` has been let in: one more unfinished message, counted. */
  predicate LetIn(s: State, s': State, m: Msg) {
    s'.open == s.open + [Entry(m, Waiting)] && s'.tx.queuedMsgs == s.tx.queuedMsgs + 1 && s'.nextSn == m.sn + 1
  }

  /** In every run a message is let in if and only if no more are unfinished than the depth in messages, and
      their total length with it, modulo 2^64, is within the depth in bytes. Otherwise nothing changes. */
  lemma LetInIff(lim: SendLimits, states: seq<State>, events: seq<Event>, k: nat, m: Msg)
    requires IsRun(lim, states, events) && k < |states| && Enabled(states[k], lim, Submit(m))
    ensures var s, s' := states[k], Next(states[k], lim, Submit(m));
      && (LetIn(s, s', m) <==> |s.open| <= lim.msgs && (Total(EntryBytes, s.open) + m.bytes) % TWO64 <= lim.bytes)
      && (!LetIn(s, s', m) ==> s' == s)
  {
    RunInv(lim, states, events, k);
    var s := states[k];
    assert Add64(s.tx.bytes, m.bytes) == (Total(EntryBytes, s.open) + m.bytes) % TWO64;
    assert |s.open + [Entry(m, Waiting)]| == |s.open| + 1;
    hide Total, Distinct, TasksMatch;
  }

  /** The depth can be passed by one: a run, for any limits, with that many messages unfinished. */
  lemma DepthIsPassed(lim: SendLimits, n: nat) returns (states: seq<State>, events: seq<Event>)
    requires n <= lim.msgs + 1
    ensures IsRun(lim, states, events) && |states[|events|].open| == n
    ensures states[|events|].nextSn == n && states[|events|].tx.bytes == 0
  {
    if n == 0 {
      states, events := [State(Tx(0, 0), 0, [], map[])], [];
    } else {
      states, events := DepthIsPassed(lim, n - 1);
      var s, m := states[|events|], Msg(Req, n - 1, 0, false, false);
      RunInv(lim, states, events, |events|);
      states, events := Extended(lim, states, events, Submit(m), Next(s, lim, Submit(m)));
    }
  }

  /** The byte counter is the length of the unfinished messages, and within the depth. */
  predicate Exact(s: State, lim: SendLimits) { s.tx.bytes == Total(EntryBytes, s.open) <= lim.bytes }

  /** A message is accepted although its length takes the byte counter past 64 bits. */
  predicate WrapsOn(s: State, lim: SendLimits, e: Event) {
    e.Submit? && !Overflows(s.tx, lim, e.m) && s.tx.bytes + e.m.bytes >= TWO64
  }

  lemma EndExact(s: State, lim: SendLimits, i: nat)
    requires Exact(s, lim) && i < |s.open|
    ensures Exact(End(s, i), lim)
  {
    TotalWithout(EntryBytes, s.open, i);
  }

  lemma StepExact(s: State, lim: SendLimits, e: Event)
    requires Exact(s, lim) && Enabled(s, lim, e)
    ensures Exact(Next(s, lim, e), lim) <==> !WrapsOn(s, lim, e)
  {
    match e
    case Submit(m) => TotalAppend(EntryBytes, s.open, Entry(m, Waiting));
    case Transmit(i, wants, imm) => CountedRephase(s, i, InFlight);
    case ResponseArrives(i) => CountedRephase(s, i, Answered);
    case ReleaseResponse(i) => EndExact(s, lim, i);
    case OneWayCompletes(sn, i) => if CompletionCounts(s.tasks[sn]) { EndExact(s, lim, i); }
    case ReceiptArrives(sn, i) => EndExact(s, lim, i);
  }

  lemma {:induction false} ExactUpTo(lim: SendLimits, states: seq<State>, events: seq<Event>, k: nat)
    requires IsRun(lim, states, events) && k < |states|
    requires forall j :: 0 <= j < k ==> !WrapsOn(states[j], lim, events[j])
    ensures Exact(states[k], lim)
  {
    if k > 0 {
      ExactUpTo(lim, states, events, k - 1);
      var e := events[k - 1];
      StepExact(states[k - 1], lim, e);
    }
  }

  /** The byte counter is exact and within the depth throughout a run if and only if no message was
      accepted in it whose length took the counter past 64 bits. */
  lemma CountersAreTotals(lim: SendLimits, states: seq<State>, events: seq<Event>)
    requires IsRun(lim, states, events)
    ensures (forall k :: 0 <= k < |states| ==> Exact(states[k], lim))
            <==> (forall j :: 0 <= j < |events| ==> !WrapsOn(states[j], lim, events[j]))
  {
    hide Exact, WrapsOn, Next, Enabled;
    if forall j :: 0 <= j < |events| ==> !WrapsOn(states[j], lim, events[j]) {
      forall k | 0 <= k < |states| ensures Exact(states[k], lim) { ExactUpTo(lim, states, events, k); }
    }
    if forall k :: 0 <= k < |states| ==> Exact(states[k], lim) {
      forall j | 0 <= j < |events| ensures !WrapsOn(states[j], lim, events[j]) {
        var e := events[j];
        StepExact(states[j], lim, e);
        assert Exact(states[j + 1], lim);
      }
    }
  }

  /** With a depth of 10 bytes, 6 bytes and then 2^64 - 1 more are accepted; the counter says 5. */
  lemma LongMessageWraps() returns (states: seq<State>, events: seq<Event>)
    ensures var lim := SendLimits(2, 10);
      IsRun(lim, states, events) && !Exact(states[|events|], lim) && states[|events|].tx.bytes == 5
  {
    var lim := SendLimits(2, 10);
    var m1, m2 := Msg(Req, 1, 6, false, false), Msg(Req, 2, TWO64 - 1, false, false);
    var s0 := State(Tx(0, 0), 1, [], map[]);
    events := [Submit(m1), Submit(m2)];
    var s1 := Next(s0, lim, events[0]);
    var s2 := Next(s1, lim, events[1]);
    states := [s0, s1, s2];
    var j := 1;
    assert WrapsOn(states[j], lim, events[j]);
    ExactUpTo(lim, states, events, 1);
    StepExact(s1, lim, events[1]);
  }

  /** In every run a one-way message is uncounted exactly once: when its receipt arrives if one was
      asked for, else when its send completes; and then it is on the in-flight list to be removed. */
  lemma OneWayUncountedOnce(lim: SendLimits, states: seq<State>, events: seq<Event>, k: nat, sn: U64)
    requires IsRun(lim, states, events) && k < |states| && sn in states[k].tasks
    ensures var t := states[k].tasks[sn];
      && t.uncounts == (if Ended(t) then 1 else 0)
      && (!t.completed && CompletionCounts(t) ==> exists i :: PointsAt(states[k], sn, i))
      && (Due(states[k], ReceiptArrives(sn, 0)) ==> exists i :: PointsAt(states[k], sn, i))
  {
    RunInv(lim, states, events, k);
    var s := states[k];
    if !Ended(s.tasks[sn]) {
      var i :| 0 <= i < |s.open| && s.open[i] == Entry(s.tasks[sn].m, InFlight);
      assert PointsAt(s, sn, i);
    }
  }

  // ----- the counters in place -------------------------------------------------------------------

  /** The counters and what they count, changed in place. */
  class SendCounters {
    var txQueuedMsgs: int
    var txBytes: U64
    var nextSn: nat
    var open: seq<Entry>
    var tasks: map<U64, Task>

    function View(): State
      reads this
    {
      State(Tx(txQueuedMsgs, txBytes), nextSn, open, tasks)
    }

    constructor (firstSn: nat)
      ensures View() == State(Tx(0, 0), firstSn, [], map[])
    {
      txQueuedMsgs, txBytes, nextSn, open, tasks := 0, 0, firstSn, [], map[];
    }

    /** The accounting of `xio_send_request` and `xio_send_typed_msg` for one message. */
    method Send(m: Msg, lim: SendLimits) returns (accepted: bool)
      requires Enabled(View(), lim, Submit(m))
      modifies this
      ensures View() == Next(old(View()), lim, Submit(m))
      ensures accepted <==> old(txQueuedMsgs) <= lim.msgs && (old(txBytes) + m.bytes) % TWO64 <= lim.bytes
      ensures open == if accepted then old(open) + [Entry(m, Waiting)] else old(open)
    {
      if txQueuedMsgs > lim.msgs { return false; }
      if Add64(txBytes, m.bytes) > lim.bytes { return false; }
      txQueuedMsgs := txQueuedMsgs + 1;
      txBytes := Add64(txBytes, m.bytes);
      nextSn := m.sn + 1;
      open := open + [Entry(m, Waiting)];
      return true;
    }

    /** The decrement that `xio_release_response`, `xio_on_rsp_recv` and `xio_on_ow_req_send_comp` share. */
    method Finish(i: nat)
      requires i < |open|
      modifies this`txQueuedMsgs, this`txBytes, this`open
      ensures View() == End(old(View()), i)
    {
      txQueuedMsgs := txQueuedMsgs - 1;
      txBytes := Sub64(txBytes, open[i].m.bytes);
      open := Without(open, i);
    }

    /** Any event that is due, handled in place. */
    method Handle(e: Event, lim: SendLimits)
      requires Enabled(View(), lim, e)
      modifies this
      ensures View() == Next(old(View()), lim, e)
    {
      match e
      case Submit(m) => var _ := Send(m, lim);
      case Transmit(i, wants, imm) =>
        var m := open[i].m;
        open := open[i := Entry(m, InFlight)];
        if !m.typ.Req? { tasks := tasks[m.sn := Task(m, wants, imm, true, false, false, 0)]; }
      case ResponseArrives(i) => open := open[i := Entry(open[i].m, Answered)];
      case ReleaseResponse(i) => Finish(i);
      case OneWayCompletes(sn, i) =>
        var t := tasks[sn];
        if CompletionCounts(t) {
          Finish(i);
          t := t.(uncounts := t.uncounts + 1);
        }
        tasks := tasks[sn := t.(completed := true)];
      case ReceiptArrives(sn, i) =>
        var t := tasks[sn];
        Finish(i);
        tasks := tasks[sn := t.(receipted := true, attached := false, uncounts := t.uncounts + 1)];
    }

    /** Any schedule of events, those that are not due left out. The counters end up as the laws of runs
        say, read off the list of unfinished messages itself. */
    method Serve(schedule: seq<Event>, lim: SendLimits) returns (ghost states: seq<State>, ghost events: seq<Event>)
      requires View() == State(Tx(0, 0), nextSn, [], map[])
      modifies this
      ensures IsRun(lim, states, events) && states[|events|] == View()
      ensures txQueuedMsgs == |open| <= lim.msgs + 1
      ensures txBytes == Total(EntryBytes, open) % TWO64
      ensures (forall j :: 0 <= j < |events| ==> !WrapsOn(states[j], lim, events[j])) ==>
                txBytes == Total(EntryBytes, open) <= lim.bytes
      ensures forall sn :: sn in tasks ==> tasks[sn].uncounts == if Ended(tasks[sn]) then 1 else 0
    {
      states, events := [View()], [];
      for i := 0 to |schedule|
        invariant IsRun(lim, states, events) && states[|events|] == View()
      {
        if Enabled(View(), lim, schedule[i]) {
          Handle(schedule[i], lim);
          states, events := Extended(lim, states, events, schedule[i], View());
        }
      }
      hide IsRun, WrapsOn, Total;
      RunInv(lim, states, events, |events|);
      if forall j :: 0 <= j < |events| ==> !WrapsOn(states[j], lim, events[j]) {
        ExactUpTo(lim, states, events, |events|);
      }
    }
  }

  lemma Extended(lim: SendLimits, states: seq<State>, events: seq<Event>, e: Event, s': State)
    returns (t: seq<State>, n: seq<Event>)
    requires IsRun(lim, states, events) && Enabled(states[|events|], lim, e) && s' == Next(states[|events|], lim, e)
    ensures IsRun(lim, t, n) && t == states + [s'] && n == events + [e]
  {
    t, n := states + [s'], events + [e];
    hide Enabled, Next;
  }
}
