/**
  The order of a connection's requests through submission, transmission, completion and restart,
  and what a flush hands back to the application.
 */
module QueueOrder {
  import opened Sums
  import opened FlowControl
  import opened Transmit

  /** Every request the connection still owes an end to: sent and unfinished, then not yet sent. */
  function Pending(l: Lists): seq<Msg> { l.inFlightReqs + l.reqs }

  /** `xio_connection_flush_msgs`, on the lists. */
  function Flush(l: Lists): Lists {
    Lists(l.inFlightReqs + l.reqs, l.inFlightRsps + l.rsps, [], [])
  }

  /** `xio_connection_notify_msgs_flush`, on the lists. */
  function DropQueues(l: Lists): Lists { l.(reqs := [], rsps := []) }

  /** The requests whose failure is reported to the application by that flush. */
  function ReportedReqs(l: Lists): seq<Msg> { Keep(IsApplicationMsg, l.reqs) }

  predicate IsReportedRsp(m: Msg) { m.typ.Rsp? && !Standalone(m) }

  function ReportedRsps(l: Lists): seq<Msg> { Keep(IsReportedRsp, l.rsps) }

  datatype QueueStep =
    | Submit(m: Msg)              // a request or one-way message, numbered by the session
    | Control(m: Msg, front: bool)
    | Try(a: Attempt)
    | Finish(i: nat)              // response, receipt or send completion of the i-th in flight
    | Restart

  /** `nextSn` is the session's transaction counter; other connections of the session advance it too. */
  datatype State = State(conn: Endpoint, nextSn: nat)

  predicate CanStep(s: State, t: QueueStep) {
    match t
    case Submit(m) => (m.typ.Req? || m.typ.OneWayReq?) && s.nextSn <= m.sn
    case Control(m, front) => IsRequest(m.typ) && !IsApplicationMsg(m)
    case Try(a) => true
    case Finish(i) => i < |s.conn.lists.inFlightReqs|
    case Restart => true
  }

  function SetReqs(e: Endpoint, ms: seq<Msg>): Endpoint { e.(lists := e.lists.(reqs := ms)) }

  function Next(s: State, t: QueueStep): State
    requires CanStep(s, t)
  {
    var e, l := s.conn, s.conn.lists;
    match t
    case Submit(m) => State(SetReqs(e, l.reqs + [m]), m.sn + 1)
    case Control(m, front) => s.(conn := SetReqs(e, if front then [m] + l.reqs else l.reqs + [m]))
    case Try(a) => s.(conn := XmitOne(e, a))
    case Finish(i) => s.(conn := e.(lists := l.(inFlightReqs := Without(l.inFlightReqs, i))))
    case Restart => s.(conn := e.(lists := Flush(l)))
  }

  predicate IsRun(states: seq<State>, steps: seq<QueueStep>) {
    && |states| == |steps| + 1
    && Pending(states[0].conn.lists) == []
    && forall i :: 0 <= i < |steps| ==>
         CanStep(states[i], steps[i]) && states[i + 1] == Next(states[i], steps[i])
  }

  /** Application messages appear in strictly increasing order of serial number. */
  predicate Ordered(s: seq<Msg>) {
    forall i, j :: 0 <= i < j < |s| && IsApplicationMsg(s[i]) && IsApplicationMsg(s[j]) ==> s[i].sn < s[j].sn
  }

  predicate Below(s: seq<Msg>, n: nat) {
    forall i :: 0 <= i < |s| && IsApplicationMsg(s[i]) ==> s[i].sn < n
  }

  predicate InFlightIsApplication(l: Lists) {
    forall i :: 0 <= i < |l.inFlightReqs| ==> IsApplicationMsg(l.inFlightReqs[i])
  }

  predicate Inv(s: State) {
    && Ordered(Pending(s.conn.lists))
    && Below(Pending(s.conn.lists), s.nextSn)
    && InFlightIsApplication(s.conn.lists)
  }

  lemma OrderedWithout(s: seq<Msg>, i: nat, n: nat)
    requires i < |s| && Ordered(s) && Below(s, n)
    ensures Ordered(Without(s, i)) && Below(Without(s, i), n)
  {
    var t := Without(s, i);
    forall j | 0 <= j < |t| ensures t[j] == s[if j < i then j else j + 1] {}
  }

  lemma OrderedInsert(s: seq<Msg>, i: nat, m: Msg, n: nat)
    requires i <= |s| && Ordered(s) && Below(s, n) && !IsApplicationMsg(m)
    ensures Ordered(s[..i] + [m] + s[i..]) && Below(s[..i] + [m] + s[i..], n)
  {
    var t := s[..i] + [m] + s[i..];
    forall j | 0 <= j < |t| && j != i ensures t[j] == s[if j < i then j else j - 1] {}
  }

  lemma OrderedShrunk(s: seq<Msg>, t: seq<Msg>, k: nat, n: nat)
    requires Ordered(s) && Below(s, n) && k <= |s|
    requires t == s || t == s[..k] || (k < |s| && t == Without(s, k))
    ensures Ordered(t) && Below(t, n)
  {
    if k < |s| { OrderedWithout(s, k, n); }
  }

  /** What one attempt does to the pending requests: nothing, one message gone, or the queue dropped. */
  lemma TryPending(e: Endpoint, a: Attempt)
    ensures var k, p, p' := |e.lists.inFlightReqs|, Pending(e.lists), Pending(XmitOne(e, a).lists);
      p' == p || p' == p[..k] || (k < |p| && p' == Without(p, k))
    ensures InFlightIsApplication(e.lists) ==> InFlightIsApplication(XmitOne(e, a).lists)
  {
    hide XmitOne;
    AttemptOnLists(e, a);
    var l, l' := e.lists, XmitOne(e, a).lists;
    if a.q.Requests? && l.reqs != [] {
      var m, rest := l.reqs[0], l.reqs[1..];
      assert l.reqs == [m] + rest;
      assert l.inFlightReqs + [m] + rest == Pending(l);
      assert Without(Pending(l), |l.inFlightReqs|) == l.inFlightReqs + rest;
    } else if a.q.Responses? {
      assert Queued(l', Requests) == l.reqs && InFlight(l', Requests) == l.inFlightReqs;
    }
  }

  /** What an attempt can cost: with an accepting or a busy transport no application request is lost, a
      busy one changes nothing at all, and otherwise at most the request at the head is gone; but a head
      that is too long for the peer takes all queued requests with it. */
  lemma TryLoses(e: Endpoint, a: Attempt)
    ensures var k, p, p' := |e.lists.inFlightReqs|, Pending(e.lists), Pending(XmitOne(e, a).lists);
      if a.q.Responses? then p' == p
      else if e.lists.reqs != [] && TooLong(e, e.lists.reqs[0]) then p' == e.lists.inFlightReqs
      else
        && (a.v.Busy? ==> p' == p)
        && (a.v.Accept? ==> Keep(IsApplicationMsg, p') == Keep(IsApplicationMsg, p))
        && (a.v.Notified? || a.v.Broken? ==> p' == p || (k < |p| && p' == Without(p, k)))
  {
    AttemptMeaning(e, a, 0);
    hide XmitOne, TooLong, Short, NumberUsed;
    var l, l' := e.lists, XmitOne(e, a).lists;
    if a.q.Requests? && l.reqs != [] && l'.reqs == l.reqs[1..] {
      HeadGone(l.inFlightReqs, l.reqs);
      if !IsApplicationMsg(l.reqs[0]) { ControlGone(l.inFlightReqs, l.reqs); }
    }
    assert l.inFlightReqs + [] == l.inFlightReqs;
  }

  lemma HeadGone(fl: seq<Msg>, ms: seq<Msg>)
    requires ms != []
    ensures Without(fl + ms, |fl|) == fl + ms[1..]
    ensures (fl + [ms[0]]) + ms[1..] == fl + ms
  {
  }

  lemma ControlGone(fl: seq<Msg>, ms: seq<Msg>)
    requires ms != [] && !IsApplicationMsg(ms[0])
    ensures Keep(IsApplicationMsg, fl + ms[1..]) == Keep(IsApplicationMsg, fl + ms)
  {
    hide Keep;
    KeepConcat(IsApplicationMsg, fl, ms);
    KeepConcat(IsApplicationMsg, fl, ms[1..]);
    ControlHead(ms);
  }

  lemma ControlHead(ms: seq<Msg>)
    requires ms != [] && !IsApplicationMsg(ms[0])
    ensures Keep(IsApplicationMsg, ms) == Keep(IsApplicationMsg, ms[1..])
  {
  }

  /** The pending requests after a step, read off the pending requests before it. */
  predicate Evolves(p: seq<Msg>, p': seq<Msg>, t: QueueStep, k: nat) {
    match t
    case Submit(m) => p' == p + [m]
    case Control(m, front) => k <= |p| && p' == p[..k] + [m] + p[k..]
    case Try(a) => k <= |p| && (p' == p || p' == p[..k] || (k < |p| && p' == Without(p, k)))
    case Finish(i) => i < |p| && p' == Without(p, i)
    case Restart => p' == p
  }

  lemma StepEvolves(s: State, t: QueueStep) returns (k: nat)
    requires CanStep(s, t)
    ensures Evolves(Pending(s.conn.lists), Pending(Next(s, t).conn.lists), t, k)
  {
    var l := s.conn.lists;
    var p, f := Pending(l), |l.inFlightReqs|;
    k := if t.Control? && !t.front then |p| else f;
    match t
    case Submit(m) => assert l.inFlightReqs + (l.reqs + [m]) == p + [m];
    case Control(m, front) =>
      assert front ==> l.inFlightReqs + ([m] + l.reqs) == p[..f] + [m] + p[f..];
      assert !front ==> l.inFlightReqs + (l.reqs + [m]) == p[..|p|] + [m] + p[|p|..];
    case Try(a) => TryPending(s.conn, a);
    case Finish(i) => assert Without(l.inFlightReqs, i) + l.reqs == Without(p, i);
    case Restart => assert [] + p == p;
  }

  lemma EvolutionOrdered(p: seq<Msg>, p': seq<Msg>, t: QueueStep, k: nat, n: nat)
    requires Evolves(p, p', t, k) && Ordered(p) && Below(p, n)
    requires t.Submit? ==> n <= t.m.sn
    requires t.Control? ==> !IsApplicationMsg(t.m)
    ensures Ordered(p') && Below(p', if t.Submit? then t.m.sn + 1 else n)
  {
    match t
    case Submit(m) =>
    case Control(m, front) => OrderedInsert(p, k, m, n);
    case Try(a) => OrderedShrunk(p, p', k, n);
    case Finish(i) => OrderedWithout(p, i, n);
    case Restart =>
  }

  lemma StepInv(s: State, t: QueueStep)
    requires Inv(s) && CanStep(s, t)
    ensures Inv(Next(s, t))
  {
    var k := StepEvolves(s, t);
    EvolutionOrdered(Pending(s.conn.lists), Pending(Next(s, t).conn.lists), t, k, s.nextSn);
    if t.Try? { TryPending(s.conn, t.a); }
  }

  /** In every run, requests in flight followed by requests queued are in strictly increasing order. */
  lemma {:induction false} OrderKept(states: seq<State>, steps: seq<QueueStep>, i: nat)
    requires IsRun(states, steps) && i < |states|
    ensures Inv(states[i])
  {
    if i > 0 {
      OrderKept(states, steps, i - 1);
      StepInv(states[i - 1], steps[i - 1]);
    } else {
      var l := states[0].conn.lists;
      assert |Pending(l)| == |l.inFlightReqs| + |l.reqs|;
    }
  }

  predicate SnIncreasing(s: seq<Msg>) {
    forall i, j :: 0 <= i < j < |s| ==> s[i].sn < s[j].sn
  }

  lemma {:induction false} KeepIncreasing(s: seq<Msg>)
    requires Ordered(s)
    ensures SnIncreasing(Keep(IsApplicationMsg, s))
  {
    if s != [] {
      assert Ordered(s[1..]);
      KeepIncreasing(s[1..]);
      var k := Keep(IsApplicationMsg, s[1..]);
      forall j | 0 <= j < |k| && IsApplicationMsg(s[0]) ensures s[0].sn < k[j].sn {
        KeepMembers(IsApplicationMsg, s[1..], k[j]);
        var i :| 0 <= i < |s[1..]| && s[1..][i] == k[j];
        assert s[i + 1] == k[j];
      }
    }
  }

  /** Closing: flush, then report. Every application request still owed an end is reported exactly
      once, in serial-number order, and all four lists are left empty. */
  lemma FlushReportsEach(states: seq<State>, steps: seq<QueueStep>, i: nat)
    requires IsRun(states, steps) && i < |states|
    ensures var l, f := states[i].conn.lists, Flush(states[i].conn.lists);
      && f.reqs == l.inFlightReqs + l.reqs && f.rsps == l.inFlightRsps + l.rsps
      && DropQueues(f) == Lists([], [], [], [])
    ensures forall m :: m in ReportedReqs(Flush(states[i].conn.lists))
                        <==> m in Pending(states[i].conn.lists) && IsApplicationMsg(m)
    ensures SnIncreasing(ReportedReqs(Flush(states[i].conn.lists)))
    ensures var l := states[i].conn.lists;
      ReportedRsps(Flush(l)) == Keep(IsReportedRsp, l.inFlightRsps) + Keep(IsReportedRsp, l.rsps)
  {
    OrderKept(states, steps, i);
    var l := states[i].conn.lists;
    KeepIncreasing(Pending(l));
    assert Flush(l).reqs == Pending(l);
    forall m ensures m in ReportedReqs(Flush(l)) <==> m in Pending(l) && IsApplicationMsg(m) {
      KeepMembers(IsApplicationMsg, Pending(l), m);
    }
    KeepConcat(IsReportedRsp, l.inFlightRsps, l.rsps);
  }
}
