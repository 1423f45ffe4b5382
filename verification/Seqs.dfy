/** Mapping and filtering of sequences. */
module Seqs {

  function Map<A, B>(f: A -> B, s: seq<A>): (r: seq<B>)
    ensures |r| == |s|
    ensures forall i :: 0 <= i < |s| ==> r[i] == f(s[i])
  {
    seq(|s|, i requires 0 <= i < |s| => f(s[i]))
  }

  lemma MapMembers<A, B>(f: A -> B, s: seq<A>, y: B)
    ensures y in Map(f, s) <==> exists x :: x in s && f(x) == y
  {
    if x :| x in s && f(x) == y {
      var i :| 0 <= i < |s| && s[i] == x;
      assert Map(f, s)[i] == y;
    }
  }

  function Filter<T(!new)>(p: T -> bool, s: seq<T>): (r: seq<T>)
    ensures forall x :: x in r <==> x in s && p(x)
    ensures |r| <= |s|
  {
    if s == [] then [] else (if p(s[0]) then [s[0]] else []) + Filter(p, s[1..])
  }

  lemma FilterKeepsSome<T(!new)>(p: T -> bool, s: seq<T>)
    ensures Filter(p, s) != [] <==> exists x :: x in s && p(x)
  {
    if Filter(p, s) != [] { assert Filter(p, s)[0] in Filter(p, s); }
    if x :| x in s && p(x) { assert x in Filter(p, s); }
  }

  lemma FilterCons<T(!new)>(p: T -> bool, x: T, s: seq<T>)
    ensures Filter(p, [x] + s) == if p(x) then [x] + Filter(p, s) else Filter(p, s)
  {
    assert ([x] + s)[1..] == s;
    assert [] + Filter(p, s) == Filter(p, s);
  }

  lemma {:induction false} FilterConcat<T(!new)>(p: T -> bool, s: seq<T>, t: seq<T>)
    ensures Filter(p, s + t) == Filter(p, s) + Filter(p, t)
  {
    if s == [] {
      assert s + t == t;
    } else {
      assert (s + t)[1..] == s[1..] + t;
      FilterConcat(p, s[1..], t);
    }
  }

  lemma FilterSnoc<T(!new)>(p: T -> bool, s: seq<T>, x: T)
    ensures Filter(p, s + [x]) == if p(x) then Filter(p, s) + [x] else Filter(p, s)
  {
    FilterConcat(p, s, [x]);
  }

  lemma {:induction false} FilterDistinct<T(!new)>(p: T -> bool, s: seq<T>)
    requires forall i, j :: 0 <= i < j < |s| ==> s[i] != s[j]
    ensures forall i, j :: 0 <= i < j < |Filter(p, s)| ==> Filter(p, s)[i] != Filter(p, s)[j]
  {
    if s != [] {
      var rest := s[1..];
      forall i, j | 0 <= i < j < |rest| ensures rest[i] != rest[j] { assert s[i + 1] != s[j + 1]; }
      FilterDistinct(p, rest);
      forall x | x in Filter(p, rest) ensures x != s[0] {
        var k :| 0 <= k < |rest| && rest[k] == x;
        assert s[k + 1] == x;
      }
    }
  }

  lemma {:induction false} FilterMonotone<T(!new)>(f: T -> bool, g: T -> bool, s: seq<T>)
    requires forall x :: x in s && f(x) ==> g(x)
    ensures |Filter(f, s)| <= |Filter(g, s)|
  {
    if s != [] {
      assert forall x :: x in s[1..] ==> x in s;
      assert s[0] in s;
      FilterMonotone(f, g, s[1..]);
    }
  }

  /** Changing one element loses at most that element. */
  lemma FilterUpdate<T(!new)>(f: T -> bool, s: seq<T>, k: nat, x: T)
    requires k < |s|
    ensures |Filter(f, s[k := x])| == |Filter(f, s)| - (if f(s[k]) then 1 else 0) + if f(x) then 1 else 0
  {
    assert s == s[..k] + [s[k]] + s[k + 1..] && s[k := x] == s[..k] + [x] + s[k + 1..];
    FilterConcat(f, s[..k] + [s[k]], s[k + 1..]);
    FilterConcat(f, s[..k] + [x], s[k + 1..]);
    FilterSnoc(f, s[..k], s[k]);
    FilterSnoc(f, s[..k], x);
  }

  lemma FilterRemove<T(!new)>(f: T -> bool, s: seq<T>, k: nat)
    requires k < |s|
    ensures |Filter(f, s[..k] + s[k + 1..])| == |Filter(f, s)| - if f(s[k]) then 1 else 0
  {
    assert s == s[..k] + [s[k]] + s[k + 1..];
    FilterConcat(f, s[..k] + [s[k]], s[k + 1..]);
    FilterSnoc(f, s[..k], s[k]);
    FilterConcat(f, s[..k], s[k + 1..]);
  }

  lemma {:induction false} FilterAll<T(!new)>(f: T -> bool, s: seq<T>)
    requires forall x :: x in s ==> f(x)
    ensures Filter(f, s) == s
  {
    if s != [] {
      assert s == [s[0]] + s[1..];
      FilterAll(f, s[1..]);
    }
  }

  lemma {:induction false} FilterNone<T(!new)>(f: T -> bool, s: seq<T>)
    requires forall x :: x in s ==> !f(x)
    ensures Filter(f, s) == []
  {
    if s != [] {
      assert s == [s[0]] + s[1..];
      FilterNone(f, s[1..]);
    }
  }
}
