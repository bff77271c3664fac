/**
  Delivery of requests across reconnects. A client connection sends over a FIFO wire; a break loses
  a suffix of what is on the wire; the restart puts unanswered requests back in front of the queue
  and sends them again; the server drops what it has already delivered.
 */
module Reconnect {
  import opened Sums
  import opened FlowControl
  import Q = QueueOrder

  /** `issued` is the history of what the application sent, `delivered` of what the peer's got. */
  datatype Link = Link(
    lists: Lists, nextSn: nat, issued: seq<Msg>,
    up: bool, wire: seq<Msg>,
    latestDelivered: nat, delivered: seq<Msg>)

  datatype Step =
    | Submit(m: Msg)
    | Transmit
    | Deliver
    | Finish(i: nat)      // response, receipt or, for a one-way message, send completion
    | Break(k: nat)       // the first k messages on the wire still arrive
    | Restart

  predicate IsTwoWay(m: Msg) { m.typ.Req? }

  predicate Enabled(s: Link, t: Step) {
    match t
    case Submit(m) => (m.typ.Req? || m.typ.OneWayReq?) && s.nextSn <= m.sn
    case Transmit => s.up && s.lists.reqs != []
    case Deliver => s.wire != []
    case Finish(i) => s.up && i < |s.lists.inFlightReqs|
                      && (IsTwoWay(s.lists.inFlightReqs[i]) ==> s.lists.inFlightReqs[i] in s.delivered)
    case Break(k) => s.up && k <= |s.wire|
    case Restart => !s.up
  }

  /** The test that suppresses repeated messages in `xio_on_req_recv`. */
  predicate IsNew(latestDelivered: nat, m: Msg) { latestDelivered < m.sn || latestDelivered == 0 }

  function Next(s: Link, t: Step): Link
    requires Enabled(s, t)
  {
    var l := s.lists;
    match t
    case Submit(m) => s.(lists := l.(reqs := l.reqs + [m]), nextSn := m.sn + 1, issued := s.issued + [m])
    case Transmit => s.(lists := MoveHead(l, Requests), wire := s.wire + [l.reqs[0]])
    case Deliver =>
      var m := s.wire[0];
      if IsNew(s.latestDelivered, m)
      then s.(wire := s.wire[1..], latestDelivered := m.sn, delivered := s.delivered + [m])
      else s.(wire := s.wire[1..])
    case Finish(i) => s.(lists := l.(inFlightReqs := Without(l.inFlightReqs, i)))
    case Break(k) => s.(up := false, wire := s.wire[..k])
    case Restart => s.(up := true, lists := Q.Flush(l))
  }

  function Init(initialSn: nat): Link {
    Link(Lists([], [], [], []), initialSn, [], true, [], 0, [])
  }

  predicate IsRun(initialSn: nat, states: seq<Link>, steps: seq<Step>) {
    && |states| == |steps| + 1
    && states[0] == Init(initialSn)
    && forall i :: 0 <= i < |steps| ==>
         Enabled(states[i], steps[i]) && states[i + 1] == Next(states[i], steps[i])
  }

  // ----- what is still to arrive -----------------------------------------------------------------

  /** Everything that will reach the server, in order, if nothing more is submitted and nothing breaks. */
  function Stream(s: Link): seq<Msg> {
    s.wire + if s.up then s.lists.reqs else Q.Pending(s.lists)
  }

  /** `m` comes, and nothing numbered above it comes before it. */
  predicate InTurn(w: seq<Msg>, m: Msg) {
    && m in w
    && forall p :: 0 <= p < |w| && w[p].sn > m.sn ==> m in w[..p]
  }

  lemma InTurnPop(w: seq<Msg>, m: Msg)
    requires w != [] && InTurn(w, m) && w[0] != m
    ensures InTurn(w[1..], m)
    ensures w[0].sn <= m.sn
  {
    assert w[..0] == [];
    assert w == [w[0]] + w[1..];
    forall p | 0 <= p < |w[1..]| && w[1..][p].sn > m.sn ensures m in w[1..][..p] {
      assert w[p + 1].sn > m.sn;
      assert w[..p + 1] == [w[0]] + w[1..][..p];
    }
  }

  lemma InTurnAppend(w: seq<Msg>, m: Msg, x: Msg)
    requires InTurn(w, m)
    ensures InTurn(w + [x], m)
  {
    forall p | 0 <= p < |w + [x]| && (w + [x])[p].sn > m.sn ensures m in (w + [x])[..p] {
      assert (w + [x])[..p] == w[..p];
      assert w[..|w|] == w;
    }
  }

  lemma InTurnResent(w: seq<Msg>, rest: seq<Msg>, k: nat, pending: seq<Msg>, m: Msg)
    requires k <= |w| && InTurn(w + rest, m) && Q.SnIncreasing(pending) && m in pending
    ensures InTurn(w[..k] + pending, m)
  {
    var t := w[..k] + pending;
    var j :| 0 <= j < |pending| && pending[j] == m;
    assert t[k + j] == m;
    forall p | 0 <= p < |t| && t[p].sn > m.sn ensures m in t[..p] {
      if p < k {
        assert (w + rest)[p] == t[p];
        assert (w + rest)[..p] == t[..p];
      } else {
        assert j < p - k;
        assert t[..p][k + j] == m;
      }
    }
  }

  // ----- the invariant ---------------------------------------------------------------------------

  predicate AllIn(s: seq<Msg>, t: seq<Msg>) { forall m :: m in s ==> m in t }

  /** Strictly increasing, except that serial number 0 may repeat. */
  predicate DeliveredInOrder(d: seq<Msg>) {
    forall i, j :: 0 <= i < j < |d| ==> d[i].sn < d[j].sn || d[i].sn == d[j].sn == 0
  }

  predicate Bookkeeping(s: Link) {
    && Q.SnIncreasing(s.issued) && (forall m :: m in s.issued ==> m.sn < s.nextSn)
    && Q.SnIncreasing(Q.Pending(s.lists)) && AllIn(Q.Pending(s.lists), s.issued)
    && (forall m :: m in s.issued ==> IsApplicationMsg(m))
    && AllIn(s.wire, s.issued) && AllIn(s.delivered, s.issued)
  }

  predicate DeliveryLog(s: Link) {
    && DeliveredInOrder(s.delivered)
    && (forall m :: m in s.delivered ==> m.sn <= s.latestDelivered)
    && s.latestDelivered == if s.delivered == [] then 0 else s.delivered[|s.delivered| - 1].sn
  }

  /** A two-way request the peer's application has not seen: still owned by the client, above all
      that was delivered, and due in its turn. */
  predicate Owed(s: Link, m: Msg) {
    && m in Q.Pending(s.lists)
    && (s.delivered == [] || s.latestDelivered < m.sn)
    && InTurn(Stream(s), m)
  }

  predicate NothingSkipped(s: Link) {
    forall m :: m in s.issued && IsTwoWay(m) && m !in s.delivered ==> Owed(s, m)
  }

  predicate Inv(s: Link) { Bookkeeping(s) && DeliveryLog(s) && NothingSkipped(s) }

  // ----- preservation ----------------------------------------------------------------------------

  lemma IncreasingAppend(p: seq<Msg>, m: Msg)
    requires Q.SnIncreasing(p) && forall x :: x in p ==> x.sn < m.sn
    ensures Q.SnIncreasing(p + [m])
  {
    forall i | 0 <= i < |p| ensures p[i].sn < m.sn { assert p[i] in p; }
  }

  lemma AllInAppend(s: seq<Msg>, t: seq<Msg>, m: Msg)
    requires AllIn(s, t)
    ensures AllIn(s, t + [m]) && AllIn(s + [m], t + [m])
  {
    assert forall x :: x in s + [m] ==> x in s || x == m;
  }

  lemma SubmitBookkeeping(s: Link, m: Msg)
    requires Bookkeeping(s) && Enabled(s, Submit(m))
    ensures Bookkeeping(Next(s, Submit(m)))
    ensures var s' := Next(s, Submit(m));
      Q.Pending(s'.lists) == Q.Pending(s.lists) + [m] && Stream(s') == Stream(s) + [m]
  {
    var s', p := Next(s, Submit(m)), Q.Pending(s.lists);
    assert s.lists.inFlightReqs + (s.lists.reqs + [m]) == p + [m];
    assert forall x :: x in p ==> x in s.issued;
    IncreasingAppend(p, m);
    IncreasingAppend(s.issued, m);
    AllInAppend(p, s.issued, m);
    AllInAppend(s.wire, s.issued, m);
    AllInAppend(s.delivered, s.issued, m);
    hide Q.SnIncreasing, AllIn;
  }

  lemma SubmitInv(s: Link, m: Msg)
    requires Inv(s) && Enabled(s, Submit(m))
    ensures Inv(Next(s, Submit(m)))
  {
    var s' := Next(s, Submit(m));
    SubmitBookkeeping(s, m);
    forall x | x in s'.issued && IsTwoWay(x) && x !in s'.delivered ensures Owed(s', x) {
      if x in s.issued {
        assert Owed(s, x);
        InTurnAppend(Stream(s), x, m);
      } else {
        assert x == m;
        FreshInTurn(s, m);
      }
    }
  }

  lemma FreshInTurn(s: Link, m: Msg)
    requires Inv(s) && s.nextSn <= m.sn
    ensures InTurn(Stream(s) + [m], m)
    ensures s.delivered == [] || s.latestDelivered < m.sn
  {
    var w := Stream(s) + [m];
    assert w[|w| - 1] == m;
    forall p | 0 <= p < |Stream(s)| ensures w[p].sn < m.sn {
      assert Stream(s)[p] in s.issued;
    }
    if s.delivered != [] { assert s.delivered[|s.delivered| - 1] in s.issued; }
  }

  /** A step that changes neither what is pending nor what is still to arrive. */
  lemma SameStreamInv(s: Link, s': Link)
    requires Inv(s)
    requires Q.Pending(s'.lists) == Q.Pending(s.lists) && Stream(s') == Stream(s)
    requires s' == s.(lists := s'.lists, wire := s'.wire, up := s'.up)
    requires AllIn(s'.wire, s.issued)
    ensures Inv(s')
  {
    forall m | m in s'.issued && IsTwoWay(m) && m !in s'.delivered ensures Owed(s', m) {
      assert Owed(s, m);
    }
  }

  lemma TransmitStream(s: Link)
    requires Enabled(s, Transmit) && IsApplicationMsg(s.lists.reqs[0])
    ensures Q.Pending(Next(s, Transmit).lists) == Q.Pending(s.lists)
    ensures Stream(Next(s, Transmit)) == Stream(s)
  {
    var l := s.lists;
    var m, rest := l.reqs[0], l.reqs[1..];
    assert l.reqs == [m] + rest;
    assert (l.inFlightReqs + [m]) + rest == l.inFlightReqs + ([m] + rest);
    assert (s.wire + [m]) + rest == s.wire + ([m] + rest);
  }

  lemma TransmitInv(s: Link)
    requires Inv(s) && Enabled(s, Transmit)
    ensures Inv(Next(s, Transmit))
  {
    var l := s.lists;
    assert Q.Pending(l)[|l.inFlightReqs|] == l.reqs[0];
    assert l.reqs[0] in s.issued;
    TransmitStream(s);
    SameStreamInv(s, Next(s, Transmit));
  }

  lemma LogAppend(d: seq<Msg>, latest: nat, x: Msg)
    requires DeliveredInOrder(d) && (forall m :: m in d ==> m.sn <= latest)
    requires IsNew(latest, x)
    ensures DeliveredInOrder(d + [x]) && (forall m :: m in d + [x] ==> m.sn <= x.sn)
  {
    forall i | 0 <= i < |d| ensures d[i].sn < x.sn || d[i].sn == x.sn == 0 {
      assert d[i] in d;
    }
  }

  lemma DeliverLog(s: Link)
    requires Bookkeeping(s) && DeliveryLog(s) && Enabled(s, Deliver)
    ensures Bookkeeping(Next(s, Deliver)) && DeliveryLog(Next(s, Deliver))
  {
    var x := s.wire[0];
    assert x in s.wire;
    if IsNew(s.latestDelivered, x) { LogAppend(s.delivered, s.latestDelivered, x); }
  }

  lemma DeliverStream(s: Link)
    requires Enabled(s, Deliver)
    ensures Stream(s) != [] && Stream(s)[0] == s.wire[0] && Stream(Next(s, Deliver)) == Stream(s)[1..]
  {
  }

  lemma DeliverOwed(s: Link, m: Msg)
    requires Inv(s) && Enabled(s, Deliver) && Owed(s, m) && m in s.issued
    requires m !in Next(s, Deliver).delivered
    ensures Owed(Next(s, Deliver), m)
  {
    var s', x := Next(s, Deliver), s.wire[0];
    assert x in s.wire && x in s.issued;
    assert IsNew(s.latestDelivered, x) ==> s'.delivered[|s'.delivered| - 1] == x;
    DeliverStream(s);
    SameSn(s.issued, x, m);
    InTurnPop(Stream(s), m);
    hide InTurn, Stream;
  }

  lemma DeliverInv(s: Link)
    requires Inv(s) && Enabled(s, Deliver)
    ensures Inv(Next(s, Deliver))
  {
    var s' := Next(s, Deliver);
    DeliverLog(s);
    forall m | m in s'.issued && IsTwoWay(m) && m !in s'.delivered ensures Owed(s', m) {
      assert m !in s.delivered && Owed(s, m);
      DeliverOwed(s, m);
    }
  }

  /** Issued messages with one serial number are one message. */
  lemma SameSn(issued: seq<Msg>, x: Msg, m: Msg)
    requires Q.SnIncreasing(issued) && x in issued && m in issued
    ensures x.sn == m.sn ==> x == m
  {
  }

  lemma FinishInv(s: Link, i: nat)
    requires Inv(s) && Enabled(s, Finish(i))
    ensures Inv(Next(s, Finish(i)))
  {
    var s', l := Next(s, Finish(i)), s.lists;
    assert Q.Pending(s'.lists) == Without(Q.Pending(l), i);
    WithoutIncreasing(Q.Pending(l), i);
    forall m | m in s'.issued && IsTwoWay(m) && m !in s'.delivered ensures Owed(s', m) {
      assert Owed(s, m) && Q.Pending(l)[i] == l.inFlightReqs[i] != m;
    }
  }

  lemma WithoutIncreasing(s: seq<Msg>, i: nat)
    requires Q.SnIncreasing(s) && i < |s|
    ensures Q.SnIncreasing(Without(s, i))
    ensures forall m :: m in Without(s, i) <==> m in s && m != s[i]
  {
    var t := Without(s, i);
    forall j | 0 <= j < |t| ensures t[j] == s[if j < i then j else j + 1] {}
    forall m | m in s && m != s[i] ensures m in t {
      var j :| 0 <= j < |s| && s[j] == m;
      assert t[if j < i then j else j - 1] == m;
    }
  }

  lemma BreakInv(s: Link, k: nat)
    requires Inv(s) && Enabled(s, Break(k))
    ensures Inv(Next(s, Break(k)))
  {
    var s' := Next(s, Break(k));
    forall m | m in s'.issued && IsTwoWay(m) && m !in s'.delivered ensures Owed(s', m) {
      assert Owed(s, m);
      InTurnResent(s.wire, s.lists.reqs, k, Q.Pending(s.lists), m);
    }
  }

  lemma RestartInv(s: Link)
    requires Inv(s) && Enabled(s, Restart)
    ensures Inv(Next(s, Restart))
  {
    var s' := Next(s, Restart);
    assert [] + Q.Pending(s.lists) == Q.Pending(s.lists);
    SameStreamInv(s, s');
  }

  lemma StepInv(s: Link, t: Step)
    requires Inv(s) && Enabled(s, t)
    ensures Inv(Next(s, t))
  {
    match t
    case Submit(m) => SubmitInv(s, m);
    case Transmit => TransmitInv(s);
    case Deliver => DeliverInv(s);
    case Finish(i) => FinishInv(s, i);
    case Break(k) => BreakInv(s, k);
    case Restart => RestartInv(s);
  }

  /** Serial numbers start at `sn0`. */
  predicate NumberedFrom(s: Link, sn0: nat) { sn0 <= s.nextSn && forall m :: m in s.issued ==> sn0 <= m.sn }

  lemma StepNumbered(s: Link, t: Step, sn0: nat)
    requires NumberedFrom(s, sn0) && Enabled(s, t)
    ensures NumberedFrom(Next(s, t), sn0)
  {
  }

  lemma {:induction false} RunInv(sn0: nat, states: seq<Link>, steps: seq<Step>, i: nat)
    requires IsRun(sn0, states, steps) && i < |states|
    ensures Inv(states[i]) && NumberedFrom(states[i], sn0)
  {
    if i == 0 {
      InitInv(sn0);
    } else {
      RunInv(sn0, states, steps, i - 1);
      StepInv(states[i - 1], steps[i - 1]);
      StepNumbered(states[i - 1], steps[i - 1], sn0);
    }
    hide Inv, Enabled, Next, NumberedFrom, Init;
  }

  lemma InitInv(sn0: nat)
    ensures Inv(Init(sn0)) && NumberedFrom(Init(sn0), sn0)
  {
  }

  // ----- the laws --------------------------------------------------------------------------------

  /** Across any number of reconnects, messages reach the peer's application in strictly increasing
      order, so none twice, except that serial number 0 may repeat; and no two-way request is
      overtaken by a later message. */
  lemma DeliveredOnceInOrder(sn0: nat, states: seq<Link>, steps: seq<Step>, i: nat)
    requires IsRun(sn0, states, steps) && i < |states|
    ensures DeliveredInOrder(states[i].delivered)
    ensures forall m, d :: m in states[i].issued && IsTwoWay(m) && d in states[i].delivered && m.sn < d.sn
                           ==> m in states[i].delivered
  {
    RunInv(sn0, states, steps, i);
    var s := states[i];
    forall m, d | m in s.issued && IsTwoWay(m) && d in s.delivered && m.sn < d.sn ensures m in s.delivered {
      assert m in s.delivered || Owed(s, m);
    }
  }

  lemma NoGapAt(a: seq<Msg>, b: seq<Msg>, k: nat, j: nat)
    requires Q.SnIncreasing(a) && Q.SnIncreasing(b) && k < |a| && j < |b| && a[k] == b[j]
    requires forall i :: 0 <= i < k ==> i < |b| && a[i] == b[i]
    requires forall x, y :: x in b && y in a && x.sn < y.sn ==> x in a
    ensures j == k
  {
    assert k <= j;
    if k < j {
      assert b[k] in b && a[k] in a && b[k].sn < a[k].sn;
      var i :| 0 <= i < |a| && a[i] == b[k];
      assert false;
    }
  }

  /** An increasing selection from an increasing sequence that leaves no gap is a prefix of it. */
  lemma {:induction false} GapFreeIsPrefix(a: seq<Msg>, b: seq<Msg>, k: nat)
    requires Q.SnIncreasing(a) && Q.SnIncreasing(b) && AllIn(a, b) && k <= |a|
    requires forall x, y :: x in b && y in a && x.sn < y.sn ==> x in a
    ensures forall i :: 0 <= i < k ==> i < |b| && a[i] == b[i]
  {
    if k > 0 {
      GapFreeIsPrefix(a, b, k - 1);
      assert a[k - 1] in a;
      var j :| 0 <= j < |b| && b[j] == a[k - 1];
      NoGapAt(a, b, k - 1, j);
    }
  }

  lemma {:induction false} KeepTwoWayIncreasing(s: seq<Msg>)
    requires Q.SnIncreasing(s)
    ensures Q.SnIncreasing(Keep(IsTwoWay, s))
  {
    if s != [] {
      KeepTwoWayIncreasing(s[1..]);
      var k := Keep(IsTwoWay, s[1..]);
      forall j | 0 <= j < |k| ensures s[0].sn < k[j].sn {
        KeepMembers(IsTwoWay, s[1..], k[j]);
        var i :| 0 <= i < |s[1..]| && s[1..][i] == k[j];
        assert s[i + 1] == k[j];
      }
    }
  }

  /** With a session counter that starts above 0: what the peer's application has seen of the two-way
      requests is always a prefix of what was issued. None is lost, repeated or reordered. */
  lemma DeliveredIsPrefix(sn0: nat, states: seq<Link>, steps: seq<Step>, i: nat)
    requires IsRun(sn0, states, steps) && i < |states| && sn0 > 0
    ensures Q.SnIncreasing(states[i].delivered)
    ensures Keep(IsTwoWay, states[i].delivered) <= Keep(IsTwoWay, states[i].issued)
  {
    RunInv(sn0, states, steps, i);
    DeliveredOnceInOrder(sn0, states, steps, i);
    var s := states[i];
    var a, b := Keep(IsTwoWay, s.delivered), Keep(IsTwoWay, s.issued);
    forall m ensures m in a <==> m in s.delivered && IsTwoWay(m) { KeepMembers(IsTwoWay, s.delivered, m); }
    forall m ensures m in b <==> m in s.issued && IsTwoWay(m) { KeepMembers(IsTwoWay, s.issued, m); }
    assert Q.SnIncreasing(s.delivered) by {
      assert forall j :: 0 <= j < |s.delivered| ==> s.delivered[j] in s.issued;
    }
    KeepTwoWayIncreasing(s.delivered);
    KeepTwoWayIncreasing(s.issued);
    GapFreeIsPrefix(a, b, |a|);
    if a != [] {
      var last := a[|a| - 1];
      assert |a| - 1 < |b|;
    }
  }

  predicate Repeats(d: seq<Msg>) { exists i, j :: 0 <= i < j < |d| && d[i] == d[j] }

  /** With a counter that starts at 0 the first request can be delivered twice. */
  lemma ZeroRepeats() returns (states: seq<Link>, steps: seq<Step>)
    ensures IsRun(0, states, steps) && Repeats(states[|steps|].delivered)
  {
    var m := Msg(Req, 0, 0, false, false);
    steps := [Submit(m), Transmit, Deliver, Break(0), Restart, Transmit, Deliver];
    var s0 := Init(0);
    var s1 := Next(s0, steps[0]);
    var s2 := Next(s1, steps[1]);
    var s3 := Next(s2, steps[2]);
    var s4 := Next(s3, steps[3]);
    var s5 := Next(s4, steps[4]);
    assert s5.lists.reqs == [m];
    var s6 := Next(s5, steps[5]);
    var s7 := Next(s6, steps[6]);
    states := [s0, s1, s2, s3, s4, s5, s6, s7];
    assert s7.delivered == [m, m];
    assert s7.delivered[0] == s7.delivered[1];
  }

  /** So deliveries never repeat, in any run, exactly when the counter starts above 0. */
  lemma NoRepeatsIff(sn0: nat)
    ensures (forall states: seq<Link>, steps: seq<Step>, i: int :: IsRun(sn0, states, steps) && 0 <= i < |states| ==> !Repeats(states[i].delivered))
            <==> sn0 > 0
  {
    if sn0 > 0 {
      forall states: seq<Link>, steps: seq<Step>, i: int | IsRun(sn0, states, steps) && 0 <= i < |states| ensures !Repeats(states[i].delivered) {
        DeliveredIsPrefix(sn0, states, steps, i);
      }
    } else {
      var states, steps := ZeroRepeats();
      assert |states| == |steps| + 1;
    }
  }
}
