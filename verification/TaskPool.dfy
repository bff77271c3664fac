/**
  The pool of reference-counted tasks: a stack of free tasks, grown slab by slab. Hooks and memory
  layout of a slab are left out; `granted` says whether the allocator grants a slab.
 */
module TaskPool {

  class Task {
    const ltid: nat
    var kref: nat

    constructor (id: nat)
      ensures ltid == id && kref == 0
    {
      ltid := id;
      kref := 0;
    }
  }

  datatype Slab = Slab(startIdx: nat, endIdx: int, tasks: seq<Task>)

  function Min(a: nat, b: nat): nat { if a < b then a else b }

  predicate Distinct(s: seq<Task>) { forall i, j :: 0 <= i < j < |s| ==> s[i] != s[j] }

  /** Local ids count up from `start`. */
  predicate Numbered(all: seq<Task>, start: nat) { forall i :: 0 <= i < |all| ==> all[i].ltid == start + i }

  /** The slabs cut `all` into consecutive pieces. */
  predicate Cover(slabs: seq<Slab>, all: seq<Task>) {
    if slabs == [] then all == []
    else
      var s := slabs[|slabs| - 1];
      && s.startIdx < |all| && s.endIdx == |all| - 1 && s.tasks == all[s.startIdx..]
      && Cover(slabs[..|slabs| - 1], all[..s.startIdx])
  }

  predicate Holds(s: Slab, id: nat) { s.startIdx <= id <= s.endIdx }

  lemma {:induction false} PieceOf(slabs: seq<Slab>, all: seq<Task>, i: nat)
    requires Cover(slabs, all) && i < |slabs|
    ensures slabs[i].startIdx <= slabs[i].endIdx < |all|
    ensures slabs[i].tasks == all[slabs[i].startIdx..slabs[i].endIdx + 1]
  {
    if i < |slabs| - 1 { PieceOf(slabs[..|slabs| - 1], all[..slabs[|slabs| - 1].startIdx], i); }
  }

  lemma {:induction false} Covered(slabs: seq<Slab>, all: seq<Task>, id: nat)
    requires Cover(slabs, all)
    ensures id < |all| <==> exists i :: 0 <= i < |slabs| && Holds(slabs[i], id)
  {
    if slabs != [] {
      var r, s := slabs[..|slabs| - 1], slabs[|slabs| - 1];
      Covered(r, all[..s.startIdx], id);
      if id >= s.startIdx {
        assert Holds(s, id) <==> id < |all|;
        if exists i :: 0 <= i < |slabs| && Holds(slabs[i], id) {
          var i :| 0 <= i < |slabs| && Holds(slabs[i], id);
          PieceOf(slabs, all, i);
        }
      } else if exists i :: 0 <= i < |r| && Holds(r[i], id) {
        var i :| 0 <= i < |r| && Holds(r[i], id);
        assert Holds(slabs[i], id);
      }
    }
  }

  function Highest(s: seq<nat>): nat {
    if s == [] then 0
    else
      var h := Highest(s[..|s| - 1]);
      if s[|s| - 1] > h then s[|s| - 1] else h
  }

  /** `Highest` is an upper bound that is reached. */
  lemma {:induction false} HighestIsMaximum(s: seq<nat>)
    ensures forall i :: 0 <= i < |s| ==> s[i] <= Highest(s)
    ensures s != [] ==> Highest(s) in s
  {
    if s != [] {
      var r := s[..|s| - 1];
      HighestIsMaximum(r);
      assert s == r + [s[|s| - 1]];
    }
  }

  lemma HighestKept(h: seq<nat>, x: nat)
    requires h != [] && x <= h[|h| - 1]
    ensures Highest(h + [x]) == Highest(h)
  {
    assert (h + [x])[..|h|] == h;
  }

  lemma {:induction false} Cardinality(s: seq<Task>)
    requires Distinct(s)
    ensures |set t | t in s| == |s|
  {
    if s != [] {
      var r := s[1..];
      Cardinality(r);
      assert s == [s[0]] + r;
      assert (set t | t in s) == {s[0]} + set t | t in r;
    }
  }

  lemma NumberedGrows(all: seq<Task>, tasks: seq<Task>)
    requires Numbered(all, 0) && Numbered(tasks, |all|)
    ensures Numbered(all + tasks, 0)
  {
    forall i | 0 <= i < |all + tasks| ensures (all + tasks)[i].ltid == i {
      if i >= |all| { assert (all + tasks)[i] == tasks[i - |all|]; }
    }
  }

  lemma CoverGrows(slabs: seq<Slab>, all: seq<Task>, tasks: seq<Task>)
    requires Cover(slabs, all) && tasks != []
    ensures Cover(slabs + [Slab(|all|, |all| + |tasks| - 1, tasks)], all + tasks)
  {
    var r := slabs + [Slab(|all|, |all| + |tasks| - 1, tasks)];
    assert r[..|r| - 1] == slabs && (all + tasks)[..|all|] == all && (all + tasks)[|all|..] == tasks;
  }

  lemma OneIsDistinct(t: Task)
    ensures Distinct([t])
  {
  }

  lemma DistinctGrows(s: seq<Task>, t: seq<Task>)
    requires Distinct(s) && Distinct(t) && forall x :: x in s ==> x !in t
    ensures Distinct(s + t)
  {
    forall i, j | 0 <= i < j < |s + t| ensures (s + t)[i] != (s + t)[j] {
      if i < |s| <= j { assert s[i] in s; }
    }
  }

  method NewTasks(start: nat, n: nat) returns (tasks: seq<Task>)
    ensures |tasks| == n && fresh(tasks) && Distinct(tasks) && Numbered(tasks, start)
    ensures forall t :: t in tasks ==> t.kref == 0
  {
    tasks := [];
    for i := 0 to n
      invariant |tasks| == i && fresh(tasks) && Distinct(tasks) && Numbered(tasks, start)
      invariant forall t :: t in tasks ==> t.kref == 0
    {
      var t := new Task(start + i);
      tasks := tasks + [t];
    }
  }

  class TasksPool {
    const startNr: nat
    const maxNr: nat
    const allocNr: nat
    var stack: seq<Task>
    var slabs: seq<Slab>
    var currUsed: nat
    var currAlloced: nat
    var maxUsed: nat
    var currIdx: nat
    /** Every task ever allocated, by local id. */
    ghost var All: seq<Task>
    /** Every value `currUsed` has had. */
    ghost var History: seq<nat>

    ghost predicate Counts()
      reads this
    {
      && |stack| + currUsed == |All| == currAlloced == currIdx <= maxNr
      && (currUsed == 0 || currUsed <= maxNr - 1)
      && (currAlloced == 0 || Min(startNr, maxNr) <= currAlloced)
      && History != [] && History[|History| - 1] == currUsed && maxUsed == Highest(History)
    }

    /** Free tasks, and only those, are on the stack, once each. */
    ghost predicate Stacked()
      reads this, All
    {
      && Distinct(stack)
      && (forall t :: t in stack ==> t in All)
      && (forall t :: t in All ==> (t in stack <==> t.kref == 0))
    }

    ghost predicate Valid()
      reads this, All
    {
      Counts() && Stacked() && Numbered(All, 0) && Cover(slabs, All)
    }

    ghost function Live(): set<Task>
      reads this, All
    {
      set t | t in All && t.kref > 0
    }

    /** `curr_used` is the number of live tasks, that is of tasks off the stack. */
    lemma UsedAreLive()
      requires Valid()
      ensures |Live()| == currUsed
      ensures Live() == (set t | t in All) - set t | t in stack
    {
      Cardinality(stack);
      assert Distinct(All);
      Cardinality(All);
      var all, free := set t | t in All, set t | t in stack;
      assert Live() == all - free;
      assert free <= all;
    }

    constructor (startNr: nat, maxNr: nat, allocNr: nat)
      ensures Valid() && All == [] && currUsed == 0 && maxUsed == 0
      ensures this.startNr == startNr && this.maxNr == maxNr && this.allocNr == allocNr
    {
      this.startNr, this.maxNr, this.allocNr := startNr, maxNr, allocNr;
      stack, slabs, currUsed, currAlloced, maxUsed, currIdx := [], [], 0, 0, 0, 0;
      All, History := [], [0];
    }

    /** How many tasks the next slab holds; the parameters are refused when negative as `int`. */
    function SlabSize(): nat
      requires currAlloced <= maxNr
      reads this
    {
      if startNr >= 0x8000_0000 || maxNr >= 0x8000_0000 || allocNr >= 0x8000_0000 then 0
      else if startNr > 0 && currAlloced < startNr then Min(startNr, maxNr)
      else Min(allocNr, maxNr - currAlloced)
    }

    /** `xio_tasks_pool_alloc_slab`: fresh tasks at the end of the stack. Called for the first slab, and
        otherwise when the stack runs out in a pool that is not exhausted. */
    method AllocSlab(granted: bool) returns (ghost tasks: seq<Task>)
      requires Valid()
      requires All == [] || (|stack| <= 1 && !(maxNr > 0 && currUsed == maxNr - 1))
      modifies this
      ensures Valid() && currUsed == old(currUsed) && History == old(History)
      ensures All == old(All) + tasks && stack == old(stack) + tasks && fresh(tasks)
      ensures |tasks| == if granted then old(SlabSize()) else 0
      ensures granted && startNr < 0x8000_0000 && maxNr < 0x8000_0000 && allocNr < 0x8000_0000 ==>
                if old(All) == [] && startNr > 0 then |All| == (if startNr < maxNr then startNr else maxNr)
                else |tasks| == allocNr || (|tasks| < allocNr && |All| == maxNr)
      ensures startNr >= 0x8000_0000 || maxNr >= 0x8000_0000 || allocNr >= 0x8000_0000 ==> tasks == []
    {
      hide Cover, Numbered, Highest, Distinct;
      tasks := [];
      var allocNr := SlabSize();
      if allocNr == 0 || !granted { return; }
      var added := NewTasks(currIdx, allocNr);
      CoverGrows(slabs, All, added);
      NumberedGrows(All, added);
      DistinctGrows(stack, added);
      slabs := slabs + [Slab(currIdx, currIdx + allocNr - 1, added)];
      currIdx := currIdx + allocNr;
      currAlloced := currAlloced + allocNr;
      stack := stack + added;
      All := All + added;
      tasks := added;
      assert Stacked();
    }

    /** The common end of `xio_tasks_pool_get`: entry `k` leaves the stack. */
    method Take(t: Task, k: nat)
      requires Valid() && k < |stack| && stack[k] == t && currUsed < maxNr - 1
      modifies this, t
      ensures Valid() && All == old(All) && stack == old(stack[..k] + stack[k + 1..])
      ensures t.kref == 1 && currUsed == old(currUsed) + 1 && History == old(History) + [currUsed]
    {
      hide Cover, Numbered;
      stack := stack[..k] + stack[k + 1..];
      currUsed := currUsed + 1;
      if currUsed > maxUsed { maxUsed := currUsed; }
      t.kref := 1;
      History := History + [currUsed];
      assert History[..|History| - 1] == old(History);
    }

    /** `xio_tasks_pool_get` */
    method Get(granted: bool) returns (t: Task?, ghost tasks: seq<Task>)
      requires Valid()
      modifies this, All
      ensures Valid() && All == old(All) + tasks && fresh(tasks)
      ensures t == null <==> |old(stack)| <= 1
                             && ((maxNr > 0 && old(currUsed) == maxNr - 1)
                                 || (old(stack) == [] && (!granted || old(SlabSize()) == 0)))
      ensures t == null ==> stack == old(stack) && tasks == [] && currUsed == old(currUsed) && History == old(History)
      ensures t != null ==> History == old(History) + [currUsed]
      ensures t != null ==> t in All && t.kref == 1 && currUsed == old(currUsed) + 1
      ensures t != null && t in old(All) ==> t in old(stack) && old(t.kref) == 0
      ensures |old(stack)| > 1 ==> [t] + stack == old(stack) && tasks == []
      ensures t != null && |old(stack)| <= 1 ==> stack + [t] == old(stack) + tasks
      ensures forall x :: x in old(All) && x != t ==> x.kref == old(x.kref)
    {
      tasks := [];
      hide Cover, Numbered, Highest, Distinct;
      if |stack| <= 1 {
        if maxNr > 0 && currUsed == maxNr - 1 { return null, []; }
        tasks := AllocSlab(granted);
        if stack == [] { return null, []; }
        t := stack[|stack| - 1];
        assert t in stack && (t in old(stack) || t in tasks);
        Take(t, |stack| - 1);
      } else {
        t := stack[0];
        assert t in stack;
        Take(t, 0);
      }
    }

    /** `xio_task_addref` */
    method AddRef(t: Task)
      requires Valid() && t in All && t.kref > 0
      modifies t
      ensures Valid() && t.kref == old(t.kref) + 1
    {
      t.kref := t.kref + 1;
    }

    /** `xio_tasks_pool_put`: the last reference puts it back on top of the stack. */
    method Put(t: Task)
      requires Valid() && t in All && t.kref > 0
      modifies this, t
      ensures Valid() && All == old(All) && maxUsed == old(maxUsed)
      ensures t.kref == old(t.kref) - 1
      ensures stack == if t.kref == 0 then [t] + old(stack) else old(stack)
      ensures currUsed == if t.kref == 0 then old(currUsed) - 1 else old(currUsed)
      ensures History == if t.kref == 0 then old(History) + [currUsed] else old(History)
    {
      hide Cover, Numbered, Distinct, Highest;
      UsedAreLive();
      assert t in Live() && t !in stack;
      OneIsDistinct(t);
      DistinctGrows([t], stack);
      t.kref := t.kref - 1;
      if t.kref == 0 {
        HighestKept(History, currUsed - 1);
        currUsed := currUsed - 1;
        stack := [t] + stack;
        History := History + [currUsed];
        assert Counts();
      }
      assert Stacked();
    }

    /** `xio_tasks_pool_lookup`: the one with that id, and there is no other. */
    method Lookup(id: nat) returns (t: Task?)
      requires Valid()
      ensures t != null <==> exists x :: x in All && x.ltid == id
      ensures t != null ==> t in All && t.ltid == id && forall x :: x in All && x.ltid == id ==> x == t
    {
      Covered(slabs, All, id);
      t := null;
      for i := 0 to |slabs|
        invariant forall k :: 0 <= k < i ==> !Holds(slabs[k], id)
      {
        if Holds(slabs[i], id) {
          PieceOf(slabs, All, i);
          t := slabs[i].tasks[id - slabs[i].startIdx];
          break;
        }
      }
      if t != null && t.ltid != id { t := null; }
    }
  }
}
