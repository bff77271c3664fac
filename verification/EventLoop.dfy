/**
  Scheduled work of the event loop. Handlers are the application's: `script[i]` lists the events that
  the i-th handler called schedules, in order, possibly its own event among them.
 */
module EventLoop {

  type Event = nat

  predicate Distinct(es: seq<Event>) { forall i, j :: 0 <= i < j < |es| ==> es[i] != es[j] }

  /** The list after scheduling `e`: at the end, unless it is already waiting. */
  function Scheduled(waiting: seq<Event>, e: Event): seq<Event> {
    if e in waiting then waiting else waiting + [e]
  }

  function ScheduledAll(waiting: seq<Event>, adds: seq<Event>): (r: seq<Event>)
    decreases |adds|
  {
    if adds == [] then waiting else ScheduledAll(Scheduled(waiting, adds[0]), adds[1..])
  }

  /** What the i-th handler schedules. */
  function Adds(script: seq<seq<Event>>, i: nat): seq<Event> { if i < |script| then script[i] else [] }

  /** The list after `n` of the events queued at entry have run. */
  function AfterRuns(entry: seq<Event>, script: seq<seq<Event>>, n: nat): seq<Event>
    requires n <= |entry|
  {
    if n == 0 then entry
    else
      var waiting := AfterRuns(entry, script, n - 1);
      ScheduledAll(if waiting == [] then [] else waiting[1..], Adds(script, n - 1))
  }

  lemma {:induction false} ScheduledAllKeeps(waiting: seq<Event>, adds: seq<Event>)
    requires Distinct(waiting)
    ensures Distinct(ScheduledAll(waiting, adds)) && waiting <= ScheduledAll(waiting, adds)
    ensures forall e :: e in ScheduledAll(waiting, adds) <==> e in waiting || e in adds
    decreases |adds|
  {
    if adds != [] {
      ScheduledAllKeeps(Scheduled(waiting, adds[0]), adds[1..]);
      assert adds == [adds[0]] + adds[1..];
    }
  }

  /** The events still to run stay in front, and behind them are the newly scheduled ones. */
  lemma {:induction false} EntryFirst(entry: seq<Event>, script: seq<seq<Event>>, n: nat)
    requires Distinct(entry) && n <= |entry|
    ensures Distinct(AfterRuns(entry, script, n)) && entry[n..] <= AfterRuns(entry, script, n)
  {
    if n > 0 {
      EntryFirst(entry, script, n - 1);
      var waiting := AfterRuns(entry, script, n - 1);
      assert waiting[0] == entry[n - 1..][0];
      assert entry[n..] <= waiting[1..];
      ScheduledAllKeeps(waiting[1..], Adds(script, n - 1));
    }
  }

  /** The event to run next is at the head of the list, and its successor in the list is the one after. */
  lemma Heads(entry: seq<Event>, script: seq<seq<Event>>, n: nat)
    requires Distinct(entry) && n < |entry|
    ensures var waiting := AfterRuns(entry, script, n);
            && waiting != [] && waiting[0] == entry[n]
            && (n + 1 < |entry| ==> |waiting| > 1 && waiting[1] == entry[n + 1])
            && AfterRuns(entry, script, n + 1) == ScheduledAll(waiting[1..], Adds(script, n))
    ensures entry[n] == entry[|entry| - 1] <==> n == |entry| - 1
  {
    EntryFirst(entry, script, n);
    assert entry[n..][0] == entry[n] && (n + 1 < |entry| ==> entry[n..][1] == entry[n + 1]);
  }

  /** `e` was scheduled by one of the first `n` handlers, at a time when it was not waiting to run. */
  predicate Rescheduled(entry: seq<Event>, script: seq<seq<Event>>, n: nat, e: Event)
    requires n <= |entry|
  {
    exists i :: 0 <= i < n && e in Adds(script, i) && e !in entry[i + 1..]
  }

  lemma RescheduledNext(entry: seq<Event>, script: seq<seq<Event>>, n: nat, e: Event)
    requires n < |entry|
    ensures Rescheduled(entry, script, n + 1, e)
            <==> Rescheduled(entry, script, n, e) || (e in Adds(script, n) && e !in entry[n + 1..])
  {
  }

  /** An event that has yet to run cannot be scheduled anew. */
  lemma NotBeforeItRan(entry: seq<Event>, script: seq<seq<Event>>, n: nat)
    requires n < |entry|
    ensures !Rescheduled(entry, script, n, entry[n])
  {
  }

  lemma HeadOnce(es: seq<Event>, e: Event)
    requires Distinct(es) && es != []
    ensures e in es[1..] <==> e in es && e != es[0]
  {
    assert es == [es[0]] + es[1..];
  }

  /** What waits after `n` runs: the rest of the entry events, and exactly the rescheduled ones. */
  lemma {:induction false} Waiting(entry: seq<Event>, script: seq<seq<Event>>, n: nat, e: Event)
    requires Distinct(entry) && n <= |entry|
    ensures e in AfterRuns(entry, script, n) <==> e in entry[n..] || Rescheduled(entry, script, n, e)
  {
    if n == 0 {
      assert entry[0..] == entry;
    } else {
      var k, waiting := n - 1, AfterRuns(entry, script, n - 1);
      Waiting(entry, script, k, e);
      EntryFirst(entry, script, k);
      Heads(entry, script, k);
      HeadOnce(waiting, e);
      DistinctDrop(entry, k);
      HeadOnce(entry[k..], e);
      assert entry[k..][1..] == entry[n..];
      ScheduledAllKeeps(waiting[1..], Adds(script, k));
      RescheduledNext(entry, script, k, e);
      NotBeforeItRan(entry, script, k);
      hide Rescheduled, AfterRuns, ScheduledAll, Distinct, Adds;
    }
  }

  lemma TakeNext(es: seq<Event>, n: nat)
    requires n < |es|
    ensures es[..n] + [es[n]] == es[..n + 1]
  {
  }

  lemma DistinctDrop(es: seq<Event>, k: nat)
    requires Distinct(es) && k <= |es|
    ensures Distinct(es[k..])
  {
  }

  // ----- in what order -------------------------------------------------------------------------

  function NotIn(es: seq<Event>, waiting: seq<Event>): seq<Event> {
    if es == [] then []
    else if es[0] in waiting then NotIn(es[1..], waiting)
    else [es[0]] + NotIn(es[1..], waiting)
  }

  /** The calls by which the first `n` handlers schedule events that are not waiting to run, in the order
      in which they are made. */
  function CallLog(entry: seq<Event>, script: seq<seq<Event>>, n: nat): seq<Event>
    requires n <= |entry|
  {
    if n == 0 then [] else CallLog(entry, script, n - 1) + NotIn(Adds(script, n - 1), entry[n..])
  }

  /** Where `e` first occurs. */
  function FirstIndex(log: seq<Event>, e: Event): nat {
    if log == [] || log[0] == e then 0 else 1 + FirstIndex(log[1..], e)
  }

  /** `left` has every event of the log, once, in the order of first calls. */
  ghost predicate InCallOrder(left: seq<Event>, log: seq<Event>) {
    && (forall e :: e in left <==> e in log)
    && (forall x, y :: 0 <= x < y < |left| ==> FirstIndex(log, left[x]) < FirstIndex(log, left[y]))
  }

  lemma {:induction false} FirstIndexAppend(log: seq<Event>, x: Event, e: Event)
    ensures FirstIndex(log, e) <= |log| && (e in log ==> FirstIndex(log, e) < |log|)
    ensures e !in log && e == x ==> FirstIndex(log + [x], e) == |log|
    ensures e in log ==> FirstIndex(log + [x], e) == FirstIndex(log, e)
  {
    if log != [] {
      assert log == [log[0]] + log[1..] && (log + [x])[1..] == log[1..] + [x];
      FirstIndexAppend(log[1..], x, e);
    }
  }

  lemma {:induction false} ScheduledConcat(waiting: seq<Event>, a: seq<Event>, b: seq<Event>)
    ensures ScheduledAll(waiting, a + b) == ScheduledAll(ScheduledAll(waiting, a), b)
    decreases |a|
  {
    if a == [] {
      assert a + b == b;
    } else {
      assert (a + b)[0] == a[0] && (a + b)[1..] == a[1..] + b;
      ScheduledConcat(Scheduled(waiting, a[0]), a[1..], b);
    }
  }

  lemma AppendInOrder(left: seq<Event>, log: seq<Event>, e: Event)
    requires InCallOrder(left, log)
    ensures InCallOrder(Scheduled(left, e), log + [e])
  {
    var left', log' := Scheduled(left, e), log + [e];
    forall x, y | 0 <= x < y < |left'| ensures FirstIndex(log', left'[x]) < FirstIndex(log', left'[y]) {
      assert left[x] in log;
      FirstIndexAppend(log, e, left'[x]);
      FirstIndexAppend(log, e, left'[y]);
    }
  }

  lemma {:induction false} OnceInOrder(log: seq<Event>)
    ensures InCallOrder(ScheduledAll([], log), log)
  {
    if log != [] {
      var n := |log| - 1;
      OnceInOrder(log[..n]);
      AppendInOrder(ScheduledAll([], log[..n]), log[..n], log[n]);
      assert log == log[..n] + [log[n]];
      ScheduledConcat([], log[..n], [log[n]]);
      hide InCallOrder;
      assert ScheduledAll(ScheduledAll([], log[..n]), [log[n]]) == Scheduled(ScheduledAll([], log[..n]), log[n]);
    }
  }

  lemma {:induction false} ScheduledBehind(front: seq<Event>, back: seq<Event>, adds: seq<Event>)
    ensures ScheduledAll(front + back, adds) == front + ScheduledAll(back, NotIn(adds, front))
    decreases |adds|
  {
    if adds != [] {
      var e := adds[0];
      if e in front {
        ScheduledBehind(front, back, adds[1..]);
      } else {
        assert (front + back) + [e] == front + (back + [e]);
        assert NotIn(adds, front)[1..] == NotIn(adds[1..], front);
        ScheduledBehind(front, Scheduled(back, e), adds[1..]);
      }
    }
  }

  lemma NothingScheduled(waiting: seq<Event>)
    ensures ScheduledAll(waiting, []) == waiting
  {
  }

  /** What waits after `n` runs, in full: the entry events still to run, then every event in the log,
      once, in the order of first calls. */
  lemma {:induction false} WaitingInOrder(entry: seq<Event>, script: seq<seq<Event>>, n: nat)
    requires n <= |entry|
    ensures AfterRuns(entry, script, n) == entry[n..] + ScheduledAll([], CallLog(entry, script, n))
  {
    hide ScheduledAll, NotIn;
    if n == 0 {
      NothingScheduled([]);
      assert entry[0..] + [] == entry;
    } else {
      WaitingInOrder(entry, script, n - 1);
      var back := ScheduledAll([], CallLog(entry, script, n - 1));
      assert (entry[n - 1..] + back)[1..] == entry[n..] + back;
      ScheduledBehind(entry[n..], back, Adds(script, n - 1));
      ScheduledConcat([], CallLog(entry, script, n - 1), NotIn(Adds(script, n - 1), entry[n..]));
    }
  }

  class Loop {
    var eventsList: seq<Event>
    /** The events whose `scheduled` flag is set. */
    var scheduled: set<Event>

    ghost predicate Valid()
      reads this
    {
      Distinct(eventsList) && forall e :: e in scheduled <==> e in eventsList
    }

    /** `xio_ev_loop_add_event` */
    method AddEvent(e: Event)
      requires Valid()
      modifies this
      ensures Valid() && eventsList == Scheduled(old(eventsList), e)
    {
      if e !in scheduled {
        scheduled := scheduled + {e};
        eventsList := eventsList + [e];
      }
    }

    /** `xio_ev_loop_remove_event` */
    method RemoveEvent(e: Event)
      requires Valid()
      modifies this
      ensures Valid() && e !in eventsList
      ensures e !in old(eventsList) ==> eventsList == old(eventsList)
      ensures forall k :: 0 <= k < |old(eventsList)| && old(eventsList)[k] == e ==>
                eventsList == old(eventsList[..k] + eventsList[k + 1..])
    {
      if e in scheduled {
        scheduled := scheduled - {e};
        var i := 0;
        while eventsList[i] != e
          invariant i < |eventsList| && e in eventsList[i..]
          decreases |eventsList| - i
        {
          i := i + 1;
        }
        eventsList := eventsList[..i] + eventsList[i + 1..];
      }
    }

    method RunHandler(adds: seq<Event>)
      requires Valid()
      modifies this
      ensures Valid() && eventsList == ScheduledAll(old(eventsList), adds)
    {
      ghost var waiting := eventsList;
      assert adds[0..] == adds;
      for i := 0 to |adds|
        invariant Valid() && ScheduledAll(eventsList, adds[i..]) == ScheduledAll(waiting, adds)
      {
        assert adds[i..][1..] == adds[i + 1..];
        AddEvent(adds[i]);
      }
    }

    method RunFirst(tev: Event, adds: seq<Event>)
      requires Valid() && eventsList != [] && eventsList[0] == tev
      modifies this
      ensures Valid() && eventsList == ScheduledAll(old(eventsList)[1..], adds)
    {
      RemoveEvent(tev);
      assert old(eventsList[..0] + eventsList[1..]) == old(eventsList)[1..];
      RunHandler(adds);
    }

    /** `xio_ev_loop_exec_scheduled`: runs exactly the events queued at entry, each once and in order, and
        leaves exactly the newly scheduled ones, in the order in which they were first scheduled. */
    method ExecScheduled(script: seq<seq<Event>>) returns (ran: seq<Event>, workRemains: bool)
      requires Valid()
      modifies this
      ensures Valid()
      ensures ran == old(eventsList)
      ensures eventsList == AfterRuns(old(eventsList), script, |old(eventsList)|)
      ensures forall e :: e in eventsList <==> Rescheduled(old(eventsList), script, |old(eventsList)|, e)
      ensures InCallOrder(eventsList, CallLog(old(eventsList), script, |old(eventsList)|))
      ensures workRemains <==> eventsList != []
    {
      ran, workRemains := [], false;
      ghost var entry := eventsList;
      if eventsList != [] {
        ran := RunQueued(script);
        workRemains := eventsList != [];
      }
      forall e ensures e in eventsList <==> Rescheduled(entry, script, |entry|, e) {
        Waiting(entry, script, |entry|, e);
      }
      WaitingInOrder(entry, script, |entry|);
      OnceInOrder(CallLog(entry, script, |entry|));
      assert [] + eventsList == eventsList;
    }

    /** The loop. `next` is read before the handler runs; the last event queued at entry ends it. */
    method RunQueued(script: seq<seq<Event>>) returns (ran: seq<Event>)
      requires Valid() && eventsList != []
      modifies this
      ensures Valid() && ran == old(eventsList)
      ensures eventsList == AfterRuns(old(eventsList), script, |old(eventsList)|)
    {
      ran := [];
      ghost var entry := eventsList;
      var lastSched := eventsList[|eventsList| - 1];
      var tev := eventsList[0];
      var done := false;
      assert AfterRuns(entry, script, 0) == entry;
      hide AfterRuns, ScheduledAll, Distinct, Adds;
      while !done
        invariant Valid() && |ran| <= |entry| && ran == entry[..|ran|]
        invariant eventsList == AfterRuns(entry, script, |ran|)
        invariant if done then |ran| == |entry| else |ran| < |entry| && tev == entry[|ran|]
        decreases |entry| - |ran|
      {
        Heads(entry, script, |ran|);
        TakeNext(entry, |ran|);
        var next := if |eventsList| > 1 then eventsList[1] else tev;
        RunFirst(tev, Adds(script, |ran|));
        ran := ran + [tev];
        done := tev == lastSched;
        tev := next;
      }
    }
  }
}
