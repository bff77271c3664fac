/** Totals and filters over sequences: the vocabulary of the conservation and ordering laws. */
module Sums {

  function Total<T>(f: T -> nat, s: seq<T>): nat {
    if s == [] then 0 else f(s[0]) + Total(f, s[1..])
  }

  lemma {:induction false} TotalConcat<T>(f: T -> nat, s: seq<T>, t: seq<T>)
    ensures Total(f, s + t) == Total(f, s) + Total(f, t)
  {
    if s == [] {
      assert s + t == t;
    } else {
      assert (s + t)[1..] == s[1..] + t;
      TotalConcat(f, s[1..], t);
    }
  }

  lemma TotalOne<T>(f: T -> nat, x: T)
    ensures Total(f, [x]) == f(x)
  {
    assert [x][1..] == [];
  }

  lemma TotalAppend<T>(f: T -> nat, s: seq<T>, x: T)
    ensures Total(f, s + [x]) == Total(f, s) + f(x)
  {
    TotalConcat(f, s, [x]);
  }

  function Without<T>(s: seq<T>, i: nat): seq<T>
    requires i < |s|
  {
    s[..i] + s[i + 1..]
  }

  lemma TotalWithout<T>(f: T -> nat, s: seq<T>, i: nat)
    requires i < |s|
    ensures Total(f, s) == Total(f, Without(s, i)) + f(s[i])
  {
    hide Total;
    assert s == s[..i] + ([s[i]] + s[i + 1..]);
    TotalConcat(f, s[..i], [s[i]] + s[i + 1..]);
    TotalConcat(f, [s[i]], s[i + 1..]);
    TotalConcat(f, s[..i], s[i + 1..]);
    TotalOne(f, s[i]);
  }

  /** The elements of `s` that satisfy `p`, in order. */
  function Keep<T>(p: T -> bool, s: seq<T>): seq<T> {
    if s == [] then [] else if p(s[0]) then [s[0]] + Keep(p, s[1..]) else Keep(p, s[1..])
  }

  lemma {:induction false} KeepConcat<T>(p: T -> bool, s: seq<T>, t: seq<T>)
    ensures Keep(p, s + t) == Keep(p, s) + Keep(p, t)
  {
    if s == [] {
      assert s + t == t;
    } else {
      assert (s + t)[0] == s[0] && (s + t)[1..] == s[1..] + t;
      KeepConcat(p, s[1..], t);
      var a, b := Keep(p, s[1..]), Keep(p, t);
      assert [s[0]] + (a + b) == ([s[0]] + a) + b;
    }
  }

  lemma KeepAppend<T>(p: T -> bool, s: seq<T>, x: T)
    ensures Keep(p, s + [x]) == if p(x) then Keep(p, s) + [x] else Keep(p, s)
  {
    KeepConcat(p, s, [x]);
    assert [x][1..] == [];
    assert Keep(p, [x]) == if p(x) then [x] else [];
    assert Keep(p, s) + [] == Keep(p, s);
  }

  lemma {:induction false} KeepMembers<T>(p: T -> bool, s: seq<T>, x: T)
    ensures x in Keep(p, s) <==> x in s && p(x)
  {
    if s != [] {
      assert s == [s[0]] + s[1..];
      KeepMembers(p, s[1..], x);
    }
  }
}
