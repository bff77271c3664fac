/**
  The intrusive message list: a tail queue whose back links are addresses of the pointer that leads to
  the element, as in the original macros. A `Slot` is such an address: the `first` field of a list
  head or the `next` field of an element.
 */
module MsgList {

  datatype Slot = Null | First(list: Head) | NextOf(elm: Node)

  class Node {
    var next: Node?
    var prev: Slot
  }

  predicate Distinct(s: seq<Node>) { forall i, j :: 0 <= i < j < |s| ==> s[i] != s[j] }

  predicate Apart(s: seq<Node>, t: seq<Node>) { forall x :: x in s ==> x !in t }

  lemma Differ(s: seq<Node>, i: nat, j: nat)
    requires Distinct(s) && i < |s| && j < |s|
    ensures s[i] == s[j] ==> i == j
  {
  }

  function Inserted(s: seq<Node>, k: nat, x: Node): (r: seq<Node>)
    requires k <= |s|
    ensures |r| == |s| + 1
  {
    s[..k] + [x] + s[k..]
  }

  lemma InsertDistinct(s: seq<Node>, k: nat, x: Node)
    requires Distinct(s) && x !in s && k <= |s|
    ensures Distinct(Inserted(s, k, x))
  {
  }

  function Removed(s: seq<Node>, k: nat): (r: seq<Node>)
    requires k < |s|
    ensures |r| == |s| - 1
  {
    s[..k] + s[k + 1..]
  }

  lemma RemoveDistinct(s: seq<Node>, k: nat)
    requires Distinct(s) && k < |s|
    ensures Distinct(Removed(s, k)) && s[k] !in Removed(s, k)
  {
  }

  lemma ConcatDistinct(s: seq<Node>, t: seq<Node>)
    requires Distinct(s) && Distinct(t) && Apart(s, t)
    ensures Distinct(s + t)
  {
    forall i, j | 0 <= i < j < |s + t| ensures (s + t)[i] != (s + t)[j] {
      if i < |s| <= j { assert s[i] in s; }
    }
  }

  class Head {
    var first: Node?
    var last: Slot
    /** The sequence the list stands for. */
    ghost var Elems: seq<Node>

    ghost function Nodes(): set<Node>
      reads this
    {
      set x | x in Elems
    }

    ghost function At(i: nat): Node?
      reads this
    {
      if i < |Elems| then Elems[i] else null
    }

    /** The address of the pointer that leads to element `i`. */
    ghost function Address(i: nat): Slot
      requires i <= |Elems|
      reads this
    {
      if i == 0 then First(this) else NextOf(Elems[i - 1])
    }

    ghost predicate Linked(i: nat)
      requires i < |Elems|
      reads this, Elems[i]
    {
      Elems[i].next == At(i + 1) && Elems[i].prev == Address(i)
    }

    ghost predicate Valid()
      reads this, Elems
    {
      && Distinct(Elems) && first == At(0) && last == Address(|Elems|)
      && forall i :: 0 <= i < |Elems| ==> Linked(i)
    }

    /** `xio_msg_list_init` */
    method Init()
      modifies this
      ensures Valid() && Elems == []
    {
      first := null;
      last := First(this);
      Elems := [];
    }

    /** `xio_msg_list_insert_head` */
    method InsertHead(elm: Node)
      requires Valid() && elm !in Elems
      modifies this, Elems, elm
      ensures Valid() && Elems == [elm] + old(Elems)
    {
      hide Distinct;
      ghost var E := Elems;
      InsertDistinct(E, 0, elm);
      assert E != [] ==> Linked(0);
      elm.next := first;
      if elm.next != null { first.prev := NextOf(elm); } else { last := NextOf(elm); }
      first := elm;
      elm.prev := First(this);
      Elems := Inserted(E, 0, elm);
      forall i | 0 <= i < |Elems| ensures Linked(i) {
        if i > 0 {
          Differ(E, i - 1, 0);
          assert old(Linked(i - 1));
        }
      }
    }

    /** `xio_msg_list_insert_tail`: writes through `last`. */
    method InsertTail(elm: Node)
      requires Valid() && elm !in Elems
      modifies this, Elems, elm
      ensures Valid() && Elems == old(Elems) + [elm]
    {
      hide Distinct;
      ghost var E := Elems;
      InsertDistinct(E, |E|, elm);
      elm.next := null;
      elm.prev := last;
      if last.First? { last.list.first := elm; } else { last.elm.next := elm; }
      last := NextOf(elm);
      Elems := Inserted(E, |E|, elm);
      forall i | 0 <= i < |Elems| ensures Linked(i) {
        if i < |E| {
          Differ(E, i, |E| - 1);
          assert old(Linked(i));
        }
      }
    }

    /** `xio_msg_list_insert_after` */
    method InsertAfter(listelm: Node, elm: Node, ghost k: nat)
      requires Valid() && elm !in Elems && k < |Elems| && Elems[k] == listelm
      modifies this, Elems, elm
      ensures Valid() && Elems == Inserted(old(Elems), k + 1, elm)
    {
      hide Distinct;
      ghost var E := Elems;
      InsertDistinct(E, k + 1, elm);
      assert Linked(k);
      elm.next := listelm.next;
      if elm.next != null { elm.next.prev := NextOf(elm); } else { last := NextOf(elm); }
      listelm.next := elm;
      elm.prev := NextOf(listelm);
      Elems := Inserted(E, k + 1, elm);
      forall i | 0 <= i < |Elems| ensures Linked(i) {
        if i <= k {
          Differ(E, i, k);
          if k + 1 < |E| { Differ(E, i, k + 1); }
          assert old(Linked(i));
        } else if i > k + 1 {
          Differ(E, i - 1, k);
          Differ(E, i - 1, k + 1);
          assert old(Linked(i - 1));
        }
      }
    }

    /** `xio_msg_list_insert_before`: needs no list head, at the front it writes `first` through `prev`. */
    method InsertBefore(listelm: Node, elm: Node, ghost k: nat)
      requires Valid() && elm !in Elems && k < |Elems| && Elems[k] == listelm
      modifies this, Elems, elm
      ensures Valid() && Elems == Inserted(old(Elems), k, elm)
    {
      hide Distinct;
      ghost var E := Elems;
      InsertDistinct(E, k, elm);
      assert Linked(k);
      elm.prev := listelm.prev;
      elm.next := listelm;
      if listelm.prev.First? { listelm.prev.list.first := elm; } else { listelm.prev.elm.next := elm; }
      listelm.prev := NextOf(elm);
      Elems := Inserted(E, k, elm);
      forall i | 0 <= i < |Elems| ensures Linked(i) {
        if i < k {
          Differ(E, i, k);
          Differ(E, i, k - 1);
          assert old(Linked(i));
        } else if i > k {
          Differ(E, i - 1, k);
          if k > 0 { Differ(E, i - 1, k - 1); }
          assert old(Linked(i - 1));
        }
      }
    }

    /** `xio_msg_list_remove`: `elm` keeps its own links. */
    method Remove(elm: Node, ghost k: nat)
      requires Valid() && k < |Elems| && Elems[k] == elm
      modifies this, Elems
      ensures Valid() && Elems == Removed(old(Elems), k) && elm !in Elems
    {
      hide Distinct;
      ghost var E := Elems;
      RemoveDistinct(E, k);
      assert Linked(k);
      if elm.next != null { elm.next.prev := elm.prev; } else { last := elm.prev; }
      if elm.prev.First? { elm.prev.list.first := elm.next; } else { elm.prev.elm.next := elm.next; }
      Elems := Removed(E, k);
      forall i | 0 <= i < |Elems| ensures Linked(i) {
        ghost var j := if i < k then i else i + 1;
        if k + 1 < |E| { Differ(E, j, k + 1); }
        if k > 0 { Differ(E, j, k - 1); }
        assert old(Linked(j));
      }
    }

    /** `xio_msg_list_concat` */
    method Concat(other: Head)
      requires Valid() && other.Valid() && other != this
      requires Apart(Elems, other.Elems)
      modifies this, Elems, other, other.Elems
      ensures Valid() && Elems == old(Elems + other.Elems)
      ensures other.Valid() && other.Elems == []
    {
      hide Distinct;
      ghost var E, F := Elems, other.Elems;
      ConcatDistinct(E, F);
      if other.first != null {
        assert other.Linked(0);
        if last.First? { last.list.first := other.first; } else { last.elm.next := other.first; }
        other.first.prev := last;
        last := other.last;
        Elems := E + F;
        forall i | 0 <= i < |Elems| ensures Linked(i) {
          if i < |E| {
            Differ(E, i, |E| - 1);
            assert E[i] in E && F[0] in F;
            assert old(Linked(i));
          } else {
            Differ(F, i - |E|, 0);
            assert F[i - |E|] in F && (E != [] ==> E[|E| - 1] in E);
            assert old(other.Linked(i - |E|));
          }
        }
        assert Valid();
        label L:
        other.Init();
        forall i | 0 <= i < |Elems| ensures Linked(i) { assert old@L(Linked(i)); }
      } else {
        assert E + F == E;
      }
    }
  }

  lemma MovedApart(moved: seq<Node>, rest: seq<Node>, t: seq<Node>)
    requires Distinct(moved + rest) && Apart(moved + rest, t)
    ensures Apart(rest, moved + t)
  {
    var s := moved + rest;
    forall x | x in rest ensures x !in moved + t {
      var j :| 0 <= j < |rest| && rest[j] == x;
      assert s[|moved| + j] == x && x in s;
      forall i | 0 <= i < |moved| ensures moved[i] != x { assert s[i] != s[|moved| + j]; }
    }
  }

  lemma MovedOne(moved: seq<Node>, rest: seq<Node>, t: seq<Node>)
    requires rest != []
    ensures (moved + [rest[0]]) + Removed(rest, 0) == moved + rest
    ensures Inserted(moved + t, |moved|, rest[0]) == (moved + [rest[0]]) + t
    ensures forall x :: x in rest ==> x in moved + rest
    ensures forall x :: x in moved + t ==> x in moved + rest || x in t
  {
  }

  /** One turn of the loop below. */
  method PutBackOne(inFlight: Head, queue: Head, omsg: Node?, pmsg: Node, ghost n: nat) returns (next: Node?)
    requires inFlight.Valid() && queue.Valid() && inFlight != queue
    requires Apart(inFlight.Elems, queue.Elems)
    requires inFlight.Elems != [] && inFlight.Elems[0] == pmsg
    requires n <= |queue.Elems| && omsg == queue.At(n)
    modifies inFlight, queue, inFlight.Nodes(), queue.Nodes()
    ensures inFlight.Valid() && queue.Valid() && next == inFlight.first
    ensures inFlight.Elems == Removed(old(inFlight.Elems), 0)
    ensures queue.Elems == Inserted(old(queue.Elems), n, pmsg)
  {
    hide Distinct;
    assert inFlight.Linked(0) && pmsg in inFlight.Elems;
    next := pmsg.next;
    label L:
    inFlight.Remove(pmsg, 0);
    forall i | 0 <= i < |queue.Elems| ensures queue.Linked(i) {
      assert queue.Elems[i] in queue.Elems && old@L(queue.Linked(i));
    }
    assert queue.Valid() && next == inFlight.At(0);
    label M:
    if omsg != null { queue.InsertBefore(omsg, pmsg, n); } else { queue.InsertTail(pmsg); }
    forall i | 0 <= i < |inFlight.Elems| ensures inFlight.Linked(i) {
      assert inFlight.Elems[i] in inFlight.Elems && old@M(inFlight.Linked(i));
      assert old(inFlight.Elems[i + 1]) in old(inFlight.Elems);
    }
    ghost var Q := old(queue.Elems);
    assert n == |Q| ==> Inserted(Q, n, pmsg) == Q + [pmsg];
  }

  /** The loop of `xio_connection_flush_msgs` on the lists themselves: `foreach_safe` with removal,
      where `omsg` marks the message at which the queue began. */
  method PutBack(inFlight: Head, queue: Head)
    requires inFlight.Valid() && queue.Valid() && inFlight != queue
    requires Apart(inFlight.Elems, queue.Elems)
    modifies inFlight, queue, inFlight.Nodes(), queue.Nodes()
    ensures inFlight.Valid() && inFlight.Elems == []
    ensures queue.Valid() && queue.Elems == old(inFlight.Elems + queue.Elems)
  {
    hide Distinct, Apart, Head.Linked;
    var omsg := queue.first;
    var pmsg := inFlight.first;
    ghost var I, Q := inFlight.Elems, queue.Elems;
    ghost var moved: seq<Node> := [];
    assert [] + I == I && [] + Q == Q;
    while pmsg != null
      invariant I == moved + inFlight.Elems && queue.Elems == moved + Q
      invariant inFlight.Valid() && queue.Valid() && pmsg == inFlight.first
      decreases |inFlight.Elems|
    {
      MovedApart(moved, inFlight.Elems, Q);
      MovedOne(moved, inFlight.Elems, Q);
      ghost var x := inFlight.Elems[0];
      pmsg := PutBackOne(inFlight, queue, omsg, pmsg, |moved|);
      moved := moved + [x];
    }
    assert moved + [] == moved;
  }
}
