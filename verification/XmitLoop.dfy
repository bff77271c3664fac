/**
  The two-queue loop of `xio_connection_xmit`, attempt by attempt, against a transport that may answer
  anything for ever: when the loop ends, and in what state. Two attempts make a round; the retry
  counter is looked at between rounds, a failed send ends the loop at once.
 */
module XmitLoop {
  import opened FlowControl
  import opened Transmit

  /** A call: the connection at entry, whether responses go first, and what the transport answers to
      the i-th attempt. */
  datatype Call = Call(e: Endpoint, rspFirst: bool, answer: nat -> Verdict)

  function QueueAt(rspFirst: bool, i: nat): Queue { if (i % 2 == 0) == rspFirst then Responses else Requests }

  function AttemptAt(c: Call, i: nat): Attempt { Attempt(QueueAt(c.rspFirst, i), c.answer(i)) }

  /** The first `n` attempts. */
  function Script(c: Call, n: nat): (s: seq<Attempt>)
    ensures |s| == n
  {
    if n == 0 then [] else Script(c, n - 1) + [AttemptAt(c, n - 1)]
  }

  /** The connection after `n` attempts. */
  function After(c: Call, n: nat): Endpoint {
    if n == 0 then c.e else XmitOne(After(c, n - 1), AttemptAt(c, n - 1))
  }

  function Retry(c: Call, n: nat): nat {
    if n == 0 then 0 else RetryAfter(After(c, n - 1), AttemptAt(c, n - 1), Retry(c, n - 1))
  }

  predicate FailsAt(c: Call, i: nat) { Fails(After(c, i), AttemptAt(c, i)) }

  /** The loop is left after `n` attempts, if it has got that far. */
  predicate Stops(c: Call, n: nat) {
    (n % 2 == 0 && Retry(c, n) >= 2) || (n > 0 && FailsAt(c, n - 1))
  }

  ghost predicate Ends(c: Call) { exists n: nat :: Stops(c, n) }

  /** The loop is not left before the n-th attempt. */
  ghost predicate GoesPast(c: Call, n: nat) { forall m: nat :: m < n ==> !Stops(c, m) }

  lemma GoesOn(c: Call, n: nat)
    requires GoesPast(c, n) && (n % 2 == 0 ==> Retry(c, n) < 2) && (n > 0 ==> !FailsAt(c, n - 1))
    ensures GoesPast(c, n + 1)
  {
  }

  lemma BeforeTheEnd(c: Call, n: nat, end: nat)
    requires GoesPast(c, n) && Stops(c, end)
    ensures n <= end
  {
  }

  lemma LeftAt(c: Call, n: nat)
    requires (n % 2 == 0 && Retry(c, n) >= 2) || (n > 0 && FailsAt(c, n - 1))
    ensures Stops(c, n)
  {
  }

  lemma AtEntry(c: Call)
    ensures After(c, 0) == c.e && Retry(c, 0) == 0 && PacketsOf(c.e, Script(c, 0)) == [] && GoesPast(c, 0)
    ensures !Stops(c, 0)
  {
  }

  lemma {:induction false} AfterIsXmitMany(c: Call, n: nat)
    ensures After(c, n) == XmitMany(c.e, Script(c, n))
  {
    if n > 0 {
      AfterIsXmitMany(c, n - 1);
      XmitManyAppend(c.e, Script(c, n - 1), AttemptAt(c, n - 1));
    }
  }

  lemma {:induction false} ScriptAt(c: Call, n: nat, i: nat)
    requires i < n
    ensures Script(c, n)[i] == AttemptAt(c, i)
  {
    if i < n - 1 { ScriptAt(c, n - 1, i); }
  }

  // ----- what ends the loop ----------------------------------------------------------------------

  /** A control message at the head of a queue is answered with an error already notified (-ENOMSG): it
      stays where it is and the retry counter is reset. */
  predicate Spins(e: Endpoint, a: Attempt) {
    Queued(e.lists, a.q) != [] && !IsApplicationMsg(Queued(e.lists, a.q)[0]) && a.v.Notified?
  }

  predicate SpinsAt(c: Call, i: nat) { Spins(After(c, i), AttemptAt(c, i)) }

  function Left(e: Endpoint): nat { |e.lists.reqs| + |e.lists.rsps| }

  /** Every other attempt that goes on shortens the queues or raises the retry counter. */
  lemma AttemptProgress(e: Endpoint, a: Attempt, retry: nat)
    ensures var e', r := XmitOne(e, a), RetryAfter(e, a, retry);
      && Left(e') <= Left(e)
      && (if Spins(e, a) then r == 0 && e'.lists == e.lists
          else Fails(e, a) || Left(e') < Left(e) || (r == retry + 1 && e'.lists == e.lists))
  {
  }

  lemma ProgressAt(c: Call, n: nat)
    ensures Left(After(c, n + 1)) <= Left(After(c, n))
    ensures SpinsAt(c, n) ==> Retry(c, n + 1) == 0 && !FailsAt(c, n)
    ensures !SpinsAt(c, n) && !FailsAt(c, n) && Left(After(c, n + 1)) == Left(After(c, n)) ==>
              Retry(c, n + 1) == Retry(c, n) + 1
    ensures Retry(c, n + 1) <= Retry(c, n) + 1
  {
    AttemptProgress(After(c, n), AttemptAt(c, n), Retry(c, n));
  }

  /** From where no control message at a head is answered that way any more, the loop ends: the length
      of the queues, then the retry counter, then the end of the round. */
  lemma {:induction false} EndsFrom(c: Call, n: nat)
    requires forall i: nat :: i >= n ==> !SpinsAt(c, i)
    ensures Ends(c)
    decreases Left(After(c, n)), if Retry(c, n) < 2 then 2 - Retry(c, n) else 0, n % 2
  {
    hide After, Retry, FailsAt, SpinsAt;
    if !Stops(c, n) {
      ProgressAt(c, n);
      if FailsAt(c, n) {
        assert Stops(c, n + 1);
      } else if Left(After(c, n + 1)) == Left(After(c, n)) && Retry(c, n) >= 2 {
        assert Stops(c, n + 1);
      } else {
        EndsFrom(c, n + 1);
      }
    }
  }

  /** A round in which a control message at a head is answered that way, and no send fails. */
  predicate SpinRound(c: Call, r: nat) {
    (SpinsAt(c, 2 * r) || SpinsAt(c, 2 * r + 1)) && !FailsAt(c, 2 * r) && !FailsAt(c, 2 * r + 1)
  }

  lemma SpinRoundGoesOn(c: Call, r: nat)
    requires SpinRound(c, r)
    ensures !Stops(c, 2 * r + 1) && !Stops(c, 2 * r + 2)
  {
    hide After, Retry, FailsAt, SpinsAt;
    ProgressAt(c, 2 * r);
    ProgressAt(c, 2 * r + 1);
  }

  /** A round that does not stop the loop spins, or shortens the queues. */
  lemma RoundProgress(c: Call, r: nat)
    requires !Stops(c, 2 * r + 1) && !Stops(c, 2 * r + 2)
    ensures SpinRound(c, r) || Left(After(c, 2 * r + 2)) < Left(After(c, 2 * r))
  {
    hide After, Retry, FailsAt, SpinsAt;
    ProgressAt(c, 2 * r);
    ProgressAt(c, 2 * r + 1);
    assert !FailsAt(c, 2 * r) && !FailsAt(c, 2 * r + 1);
  }

  lemma {:induction false} LeftShrinks(c: Call, n: nat, m: nat)
    requires n <= m
    ensures Left(After(c, m)) <= Left(After(c, n))
  {
    hide After, Retry, FailsAt, SpinsAt;
    if n < m {
      LeftShrinks(c, n, m - 1);
      ProgressAt(c, m - 1);
    }
  }

  /** From round `r` on, every round spins. */
  ghost predicate SpinsFrom(c: Call, r: nat) { forall k: nat :: k >= r ==> SpinRound(c, k) }

  lemma {:induction false} EventuallySpins(c: Call, r: nat) returns (s: nat)
    requires !Ends(c)
    ensures SpinsFrom(c, s)
    decreases Left(After(c, 2 * r))
  {
    hide After, Stops, SpinRound;
    if SpinsFrom(c, r) {
      s := r;
    } else {
      var k: nat :| k >= r && !SpinRound(c, k);
      assert !Stops(c, 2 * k + 1) && !Stops(c, 2 * k + 2);
      RoundProgress(c, k);
      LeftShrinks(c, 2 * r, 2 * k);
      s := EventuallySpins(c, k + 1);
    }
  }

  lemma SpinningGoesOn(c: Call, r: nat, n: nat)
    requires SpinsFrom(c, r) && GoesPast(c, 2 * r + 1)
    ensures !Stops(c, n)
  {
    hide Stops, SpinRound;
    if n > 2 * r {
      var k := (n - 1) / 2;
      SpinRoundGoesOn(c, k);
      assert n == 2 * k + 1 || n == 2 * k + 2;
    }
  }

  /** For a given sequence of answers: the loop never ends if and only if it gets to a round from which
      on every round has a control message at the head of a queue answered with a notified error. */
  lemma NeverEndsIff(c: Call)
    ensures !Ends(c) <==> exists r: nat :: GoesPast(c, 2 * r + 1) && SpinsFrom(c, r)
  {
    hide Stops, SpinRound, SpinsFrom;
    if !Ends(c) {
      var r := EventuallySpins(c, 0);
      assert GoesPast(c, 2 * r + 1);
    }
    if exists r: nat :: GoesPast(c, 2 * r + 1) && SpinsFrom(c, r) {
      var r: nat :| GoesPast(c, 2 * r + 1) && SpinsFrom(c, r);
      forall n: nat ensures !Stops(c, n) { SpinningGoesOn(c, r, n); }
    }
  }

  // ----- which connections are safe from it ------------------------------------------------------

  /** The queue has a control message, and current credits admit every message in front of it. */
  predicate Exposes(e: Endpoint, ms: seq<Msg>) {
    && ms != []
    && (!IsApplicationMsg(ms[0]) || (Admitted(e, ms[0]) && Exposes(e, ms[1..])))
  }

  predicate Poorer(e': Endpoint, e: Endpoint) {
    e'.lim == e.lim && e'.cr.peerMsgs <= e.cr.peerMsgs && e'.cr.peerBytes <= e.cr.peerBytes
  }

  lemma {:induction false} ExposesLess(e': Endpoint, e: Endpoint, ms: seq<Msg>)
    requires Poorer(e', e)
    ensures Exposes(e', ms) ==> Exposes(e, ms)
  {
    if ms != [] { ExposesLess(e', e, ms[1..]); }
  }

  predicate Exposed(e: Endpoint) { Exposes(e, e.lists.reqs) || Exposes(e, e.lists.rsps) }

  lemma AttemptPoorer(e: Endpoint, a: Attempt)
    requires Queued(e.lists, a.q) == [] || IsApplicationMsg(Queued(e.lists, a.q)[0])
    ensures Poorer(XmitOne(e, a), e)
    ensures var ms, ms' := Queued(e.lists, a.q), Queued(XmitOne(e, a).lists, a.q);
      ms' == ms || ms' == [] || (ms != [] && Admitted(e, ms[0]) && ms' == ms[1..])
  {
  }

  /** A connection that is not exposed does not become so, and does not spin. */
  lemma StaysSafe(e: Endpoint, a: Attempt)
    requires !Exposed(e)
    ensures !Exposed(XmitOne(e, a)) && !Spins(e, a)
  {
    var e' := XmitOne(e, a);
    AttemptPoorer(e, a);
    AttemptOnLists(e, a);
    var other := if a.q.Requests? then Responses else Requests;
    hide Admitted, XmitOne;
    ExposesLess(e', e, Queued(e'.lists, a.q));
    ExposesLess(e', e, Queued(e'.lists, other));
  }

  lemma {:induction false} NeverExposed(c: Call, n: nat)
    requires !Exposed(c.e)
    ensures !Exposed(After(c, n)) && !SpinsAt(c, n)
  {
    if n > 0 {
      NeverExposed(c, n - 1);
      StaysSafe(After(c, n - 1), AttemptAt(c, n - 1));
    }
    StaysSafe(After(c, n), AttemptAt(c, n));
  }

  /** An attempt against a transport that notifies errors leaves an exposed queue exposed, and resets the
      retry counter if it is on that queue. */
  lemma NotifiedKeepsExposed(e: Endpoint, a: Attempt, q: Queue, retry: nat)
    requires a.v.Notified? && Exposes(e, Queued(e.lists, q))
    ensures Exposes(XmitOne(e, a), Queued(XmitOne(e, a).lists, q)) && !Fails(e, a)
    ensures a.q == q ==> RetryAfter(e, a, retry) == 0
    ensures RetryAfter(e, a, retry) <= retry + 1
  {
    var e' := XmitOne(e, a);
    assert Poorer(e, e') && e'.lim == e.lim;
    ExposesLess(e, e', Queued(e'.lists, q));
  }

  lemma {:induction false} NotifiedGoesOn(c: Call, q: Queue, n: nat)
    requires (forall i :: c.answer(i).Notified?) && Exposes(c.e, Queued(c.e.lists, q))
    ensures Exposes(After(c, n), Queued(After(c, n).lists, q)) && !Stops(c, n)
    ensures n > 0 && QueueAt(c.rspFirst, n - 1) == q ==> Retry(c, n) == 0
  {
    hide XmitOne, RetryAfter, Exposes, Fails;
    if n > 0 {
      NotifiedGoesOn(c, q, n - 1);
      NotifiedKeepsExposed(After(c, n - 1), AttemptAt(c, n - 1), q, Retry(c, n - 1));
      if n > 1 { assert QueueAt(c.rspFirst, n - 1) == q || QueueAt(c.rspFirst, n - 2) == q; }
    }
  }

  /** The loop ends whatever the transport answers, for ever, if and only if no control message can come
      to the head of a queue: each is behind a message the credits at entry do not admit. */
  lemma AlwaysEndsIff(e: Endpoint, rspFirst: bool)
    ensures (forall answer: nat -> Verdict :: Ends(Call(e, rspFirst, answer))) <==> !Exposed(e)
  {
    if Exposed(e) {
      var q := if Exposes(e, e.lists.reqs) then Requests else Responses;
      var answer: nat -> Verdict := i => Notified;
      var c := Call(e, rspFirst, answer);
      forall n: nat ensures !Stops(c, n) { NotifiedGoesOn(c, q, n); }
      assert !Ends(Call(e, rspFirst, answer));
    } else {
      forall answer: nat -> Verdict ensures Ends(Call(e, rspFirst, answer)) {
        var c := Call(e, rspFirst, answer);
        forall i: nat ensures !SpinsAt(c, i) { NeverExposed(c, i); }
        EndsFrom(c, 0);
      }
    }
  }

  /** In particular a transport that never notifies errors lets every call end. */
  lemma UnnotifiedEnds(c: Call)
    requires forall i: nat :: !c.answer(i).Notified?
    ensures Ends(c)
  {
    EndsFrom(c, 0);
  }

  // ----- what an accepting transport leaves ------------------------------------------------------

  lemma AcceptedAt(c: Call, n: nat, q: Queue, other: Queue)
    requires c.answer(n).Accept? && q == QueueAt(c.rspFirst, n) && q != other
    ensures !FailsAt(c, n)
    ensures Retry(c, n + 1) == 0
            || (Retry(c, n + 1) == Retry(c, n) + 1 && Stuck(After(c, n + 1), q)
                && (Stuck(After(c, n), other) ==> Stuck(After(c, n + 1), other)))
  {
    hide Stuck, RetryAfter;
    AcceptedAttempt(After(c, n), q, other, Retry(c, n));
  }

  /** Two attempts that both send nothing show both queues stuck. */
  lemma LastRound(c: Call, n: nat, q: Queue, other: Queue)
    requires c.answer(n).Accept? && c.answer(n + 1).Accept?
    requires q == QueueAt(c.rspFirst, n) && other == QueueAt(c.rspFirst, n + 1) && q != other
    requires Retry(c, n + 2) >= 2
    ensures Stuck(After(c, n + 2), q) && Stuck(After(c, n + 2), other)
  {
    hide After, Retry, FailsAt, Stuck;
    AcceptedAt(c, n, q, other);
    AcceptedAt(c, n + 1, other, q);
  }

  lemma QueuesAlternate(rspFirst: bool, n: nat)
    ensures QueueAt(rspFirst, n) != QueueAt(rspFirst, n + 1)
  {
  }

  /** Where the loop stops on an accepting transport, both queues are stuck. */
  lemma StopsStuck(c: Call, n: nat)
    requires (forall i :: c.answer(i).Accept?) && Stops(c, n)
    ensures n >= 2 && !FailsAt(c, n - 1)
    ensures Stuck(After(c, n), Requests) && Stuck(After(c, n), Responses)
  {
    hide After, Retry, FailsAt, Stuck, QueueAt;
    AtEntry(c);
    QueuesAlternate(c.rspFirst, n);
    QueuesAlternate(c.rspFirst, n - 1);
    AcceptedAt(c, n - 1, QueueAt(c.rspFirst, n - 1), QueueAt(c.rspFirst, n));
    QueuesAlternate(c.rspFirst, n - 2);
    LastRound(c, n - 2, QueueAt(c.rspFirst, n - 2), QueueAt(c.rspFirst, n - 1));
  }
}
