/** Orders on names, and the stable sort that stands for `sort.Slice` and `sort.SliceStable`. */
module Ordering {

  /** Go's `<` on strings. */
  predicate StrLess(a: string, b: string) {
    if b == "" then false
    else if a == "" then true
    else a[0] < b[0] || (a[0] == b[0] && StrLess(a[1..], b[1..]))
  }

  lemma {:induction false} StrLessIrreflexive(a: string)
    ensures !StrLess(a, a)
  {
    if a != "" { StrLessIrreflexive(a[1..]); }
  }

  lemma {:induction false} StrLessTransitive(a: string, b: string, c: string)
    requires StrLess(a, b) && StrLess(b, c)
    ensures StrLess(a, c)
  {
    if a != "" && a[0] == b[0] && b[0] == c[0] { StrLessTransitive(a[1..], b[1..], c[1..]); }
  }

  lemma {:induction false} StrLessTotal(a: string, b: string)
    requires a != b
    ensures StrLess(a, b) || StrLess(b, a)
  {
    if a != "" && b != "" && a[0] == b[0] {
      assert a == [a[0]] + a[1..] && b == [b[0]] + b[1..];
      StrLessTotal(a[1..], b[1..]);
    }
  }

  lemma NotLessTransitive(a: string, b: string, c: string)
    requires !StrLess(a, b) && !StrLess(b, c)
    ensures !StrLess(a, c)
  {
    if StrLess(a, c) && a != b {
      StrLessTotal(a, b);
      StrLessTransitive(b, a, c);
    }
  }

  /** One name comes before another when it is a proper prefix of it, or has the smaller character where they first
      differ. */
  lemma {:induction false} StrLessExactly(a: string, b: string)
    ensures StrLess(a, b) <==>
      a < b || exists k :: 0 <= k < |a| && k < |b| && a[..k] == b[..k] && a[k] < b[k]
  {
    if a != "" && b != "" && a[0] == b[0] {
      StrLessExactly(a[1..], b[1..]);
      assert a == [a[0]] + a[1..] && b == [b[0]] + b[1..];
      if k :| 0 <= k < |a[1..]| && k < |b[1..]| && a[1..][..k] == b[1..][..k] && a[1..][k] < b[1..][k] {
        assert a[..k + 1] == [a[0]] + a[1..][..k] && b[..k + 1] == [b[0]] + b[1..][..k];
        assert a[k + 1] < b[k + 1];
      }
      if k :| 0 <= k < |a| && k < |b| && a[..k] == b[..k] && a[k] < b[k] {
        assert a[1..][..k - 1] == a[..k][1..] && b[1..][..k - 1] == b[..k][1..];
        assert a[1..][k - 1] < b[1..][k - 1];
      }
    } else if a != "" && b != "" {
      assert a[..0] == b[..0];
    }
  }

  /** A strict weak order: the requirement Go's sort package puts on its comparator. */
  ghost predicate WeakOrder<T(!new)>(less: (T, T) -> bool) {
    && (forall x :: !less(x, x))
    && (forall x, y, z :: less(x, y) && less(y, z) ==> less(x, z))
    && (forall x, y, z :: !less(x, y) && !less(y, z) ==> !less(x, z))
  }

  /** Comparing by a name is a strict weak order. */
  lemma NameOrder<T(!new)>(key: T -> string, less: (T, T) -> bool)
    requires forall x, y :: less(x, y) == StrLess(key(x), key(y))
    ensures WeakOrder(less)
  {
    forall x: T ensures !less(x, x) { StrLessIrreflexive(key(x)); }
    forall x: T, y: T, z: T | less(x, y) && less(y, z) ensures less(x, z) { StrLessTransitive(key(x), key(y), key(z)); }
    forall x: T, y: T, z: T | !less(x, y) && !less(y, z)
      ensures !less(x, z)
    {
      NotLessTransitive(key(x), key(y), key(z));
    }
  }

  ghost predicate Sorted<T>(less: (T, T) -> bool, s: seq<T>) {
    forall i, j :: 0 <= i < j < |s| ==> !less(s[j], s[i])
  }

  function Insert<T>(less: (T, T) -> bool, x: T, s: seq<T>): seq<T> {
    if s == [] then [x]
    else if less(s[0], x) then [s[0]] + Insert(less, x, s[1..])
    else [x] + s
  }

  /** Insertion sort; it keeps equal elements in their original order. */
  function Sort<T>(less: (T, T) -> bool, s: seq<T>): seq<T> {
    if s == [] then [] else Insert(less, s[0], Sort(less, s[1..]))
  }

  lemma {:induction false} InsertPermutes<T>(less: (T, T) -> bool, x: T, s: seq<T>)
    ensures multiset(Insert(less, x, s)) == multiset([x] + s)
  {
    if s != [] {
      assert s == [s[0]] + s[1..];
      if less(s[0], x) { InsertPermutes(less, x, s[1..]); }
    }
  }

  lemma {:induction false} InsertMembers<T>(less: (T, T) -> bool, x: T, s: seq<T>)
    ensures forall y :: y in Insert(less, x, s) ==> y == x || y in s
  {
    if s != [] && less(s[0], x) { InsertMembers(less, x, s[1..]); }
  }

  lemma InsertSortsStep<T(!new)>(less: (T, T) -> bool, first: T, r: seq<T>)
    requires Sorted(less, r) && forall y :: y in r ==> !less(y, first)
    ensures Sorted(less, [first] + r)
  {
    var t := [first] + r;
    forall i, j | 0 <= i < j < |t| ensures !less(t[j], t[i]) { assert t[j] == r[j - 1]; }
  }

  lemma {:induction false} InsertSorts<T(!new)>(less: (T, T) -> bool, x: T, s: seq<T>)
    requires WeakOrder(less) && Sorted(less, s)
    ensures Sorted(less, Insert(less, x, s))
  {
    if s == [] {
    } else if less(s[0], x) {
      InsertSorts(less, x, s[1..]);
      InsertMembers(less, x, s[1..]);
      forall y | y in Insert(less, x, s[1..]) ensures !less(y, s[0]) {
        assert y == x || y in s[1..];
      }
      InsertSortsStep(less, s[0], Insert(less, x, s[1..]));
    } else {
      forall y | y in s ensures !less(y, x) {
        var k :| 0 <= k < |s| && s[k] == y;
      }
      InsertSortsStep(less, x, s);
    }
  }

  lemma {:induction false} SortPermutes<T>(less: (T, T) -> bool, s: seq<T>)
    ensures multiset(Sort(less, s)) == multiset(s)
    ensures |Sort(less, s)| == |s|
  {
    if s != [] {
      SortPermutes(less, s[1..]);
      InsertPermutes(less, s[0], Sort(less, s[1..]));
      assert s == [s[0]] + s[1..];
    }
    assert |multiset(Sort(less, s))| == |multiset(s)|;
  }

  lemma SortMembers<T>(less: (T, T) -> bool, s: seq<T>)
    ensures forall x :: x in Sort(less, s) <==> x in s
  {
    SortPermutes(less, s);
    forall x ensures x in Sort(less, s) <==> x in s {
      assert x in Sort(less, s) <==> x in multiset(Sort(less, s));
      assert x in s <==> x in multiset(s);
    }
  }

  lemma {:induction false} SortSorts<T(!new)>(less: (T, T) -> bool, s: seq<T>)
    requires WeakOrder(less)
    ensures Sorted(less, Sort(less, s))
  {
    if s != [] {
      SortSorts(less, s[1..]);
      InsertSorts(less, s[0], Sort(less, s[1..]));
    }
  }

  /** Sorting a sorted list changes nothing. */
  lemma {:induction false} SortOfSorted<T>(less: (T, T) -> bool, s: seq<T>)
    requires Sorted(less, s)
    ensures Sort(less, s) == s
  {
    if s != [] {
      SortOfSorted(less, s[1..]);
      assert s == [s[0]] + s[1..];
      if |s| > 1 { assert !less(s[1], s[0]); }
    }
  }

  function StringLess(): (string, string) -> bool { (a: string, b: string) => StrLess(a, b) }

  lemma StringOrder()
    ensures WeakOrder(StringLess())
  {
    NameOrder((s: string) => s, StringLess());
  }

  ghost predicate Total<T(!new)>(less: (T, T) -> bool) { forall x, y :: x != y ==> less(x, y) || less(y, x) }

  lemma FirstsAgree<T(!new)>(less: (T, T) -> bool, s: seq<T>, t: seq<T>)
    requires Total(less) && Sorted(less, s) && Sorted(less, t) && s != [] && t != []
    requires s[0] in t && t[0] in s
    ensures s[0] == t[0]
  {
    var i :| 0 <= i < |t| && t[i] == s[0];
    var j :| 0 <= j < |s| && s[j] == t[0];
  }

  /** In a total order, two sorted lists with the same elements, counted, are the same. */
  lemma {:induction false} SortedTotalUnique<T(!new)>(less: (T, T) -> bool, s: seq<T>, t: seq<T>)
    requires Total(less) && Sorted(less, s) && Sorted(less, t) && multiset(s) == multiset(t)
    ensures s == t
  {
    EqualCounts(s, t);
    if s != [] {
      FirstsAgree(less, s, t);
      EqualTails(s, t);
      SortedTotalUnique(less, s[1..], t[1..]);
      assert s == [s[0]] + s[1..] && t == [t[0]] + t[1..];
    }
  }

  /** Sorting tells lists of strings apart exactly by their elements. */
  lemma SortedEqually(s: seq<string>, t: seq<string>)
    ensures Sort(StringLess(), s) == Sort(StringLess(), t) <==> multiset(s) == multiset(t)
  {
    StringOrder();
    SortSorts(StringLess(), s); SortPermutes(StringLess(), s);
    SortSorts(StringLess(), t); SortPermutes(StringLess(), t);
    if multiset(s) == multiset(t) {
      forall a: string, b: string | a != b ensures StringLess()(a, b) || StringLess()(b, a) { StrLessTotal(a, b); }
      SortedTotalUnique(StringLess(), Sort(StringLess(), s), Sort(StringLess(), t));
    }
  }

  /** Elements that are distinct are also apart in the order. */
  ghost predicate Separated<T>(less: (T, T) -> bool, s: seq<T>) {
    && (forall i, j :: 0 <= i < j < |s| ==> s[i] != s[j])
    && (forall i, j :: 0 <= i < |s| && 0 <= j < |s| && s[i] != s[j] ==> less(s[i], s[j]) || less(s[j], s[i]))
  }

  lemma SortedFirst<T>(less: (T, T) -> bool, s: seq<T>, t: seq<T>)
    requires Sorted(less, s) && Sorted(less, t) && Separated(less, s)
    requires s != [] && t != [] && s[0] in t && t[0] in s
    ensures s[0] == t[0]
  {
    var i :| 0 <= i < |t| && t[i] == s[0];
    var j :| 0 <= j < |s| && s[j] == t[0];
  }

  lemma EqualTails<T>(s: seq<T>, t: seq<T>)
    requires s != [] && t != [] && s[0] == t[0] && multiset(s) == multiset(t)
    ensures multiset(s[1..]) == multiset(t[1..])
  {
    assert s == [s[0]] + s[1..] && t == [t[0]] + t[1..];
    assert multiset(s[1..]) == multiset(s) - multiset{s[0]};
    assert multiset(t[1..]) == multiset(t) - multiset{t[0]};
  }

  lemma EqualCounts<T>(s: seq<T>, t: seq<T>)
    requires multiset(s) == multiset(t)
    ensures |s| == |t| && forall x :: x in s <==> x in t
  {
    assert |multiset(s)| == |s| && |multiset(t)| == |t|;
    forall x ensures x in s <==> x in t {
      assert x in s <==> x in multiset(s);
      assert x in t <==> x in multiset(t);
    }
  }

  /** When no two elements are tied, the sorted list depends only on which elements there are. */
  lemma {:induction false} SortedUnique<T>(less: (T, T) -> bool, s: seq<T>, t: seq<T>)
    requires Sorted(less, s) && Sorted(less, t) && Separated(less, s)
    requires multiset(s) == multiset(t)
    ensures s == t
  {
    EqualCounts(s, t);
    if s != [] {
      SortedFirst(less, s, t);
      EqualTails(s, t);
      SeparatedTail(less, s);
      SortedUnique(less, s[1..], t[1..]);
      assert s == [s[0]] + s[1..] && t == [t[0]] + t[1..];
    }
  }

  lemma SeparatedTail<T>(less: (T, T) -> bool, s: seq<T>)
    requires Separated(less, s) && s != []
    ensures Separated(less, s[1..])
  {
  }

  lemma SortCanonical<T(!new)>(less: (T, T) -> bool, s: seq<T>, t: seq<T>)
    requires WeakOrder(less) && Separated(less, s) && multiset(s) == multiset(t)
    ensures Sort(less, s) == Sort(less, t)
  {
    SortSorts(less, s); SortPermutes(less, s);
    SortSorts(less, t); SortPermutes(less, t);
    SeparatedPermutation(less, s, Sort(less, s));
    SortedUnique(less, Sort(less, s), Sort(less, t));
  }

  lemma SeparatedPermutation<T>(less: (T, T) -> bool, s: seq<T>, t: seq<T>)
    requires Separated(less, s) && multiset(s) == multiset(t)
    ensures Separated(less, t)
  {
    DistinctPermutation(s, t);
    forall i, j | 0 <= i < |t| && 0 <= j < |t| && t[i] != t[j] ensures less(t[i], t[j]) || less(t[j], t[i]) {
      assert t[i] in multiset(s) && t[j] in multiset(s);
      var a :| 0 <= a < |s| && s[a] == t[i];
      var b :| 0 <= b < |s| && s[b] == t[j];
    }
  }

  ghost predicate Distinct<T>(s: seq<T>) {
    forall i, j :: 0 <= i < j < |s| ==> s[i] != s[j]
  }

  lemma {:induction false} DistinctCounts<T>(s: seq<T>)
    requires Distinct(s)
    ensures forall x :: multiset(s)[x] <= 1
  {
    if s != [] {
      assert s == [s[0]] + s[1..];
      DistinctCounts(s[1..]);
      assert s[0] !in s[1..];
      assert multiset(s) == multiset{s[0]} + multiset(s[1..]);
    }
  }

  lemma {:induction false} CountsDistinct<T>(s: seq<T>)
    requires forall x :: multiset(s)[x] <= 1
    ensures Distinct(s)
  {
    if s != [] {
      var rest := s[1..];
      assert s == [s[0]] + rest;
      assert multiset(s) == multiset{s[0]} + multiset(rest);
      assert forall x :: multiset(rest)[x] <= multiset(s)[x];
      CountsDistinct(rest);
      assert s[0] !in multiset(rest);
      assert forall j :: 0 < j < |s| ==> s[j] == rest[j - 1];
    }
  }

  lemma DistinctPermutation<T>(s: seq<T>, t: seq<T>)
    requires Distinct(s) && multiset(s) == multiset(t)
    ensures Distinct(t)
  {
    DistinctCounts(s);
    CountsDistinct(t);
  }
}
