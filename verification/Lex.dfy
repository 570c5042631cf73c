/** Python's tuple order, prefixes, and the stable sort `list.sort` performs.

    Object identifiers, encoded keys and revision stamps are all compared
    element by element, a proper prefix sorting first, so one order serves them. */
module Lex {

  type Oid = seq<nat>

  /** `a < b` for two Python tuples (or byte strings) of integers. */
  predicate Less(a: seq<int>, b: seq<int>) {
    b != [] && (a == [] || a[0] < b[0] || (a[0] == b[0] && Less(a[1..], b[1..])))
  }

  predicate AtMost(a: seq<int>, b: seq<int>) {
    a == b || Less(a, b)
  }

  lemma {:induction false} LessTotal(a: seq<int>, b: seq<int>)
    ensures Less(a, b) || a == b || Less(b, a)
  {
    if a != [] && b != [] && a[0] == b[0] {
      LessTotal(a[1..], b[1..]);
      assert a == [a[0]] + a[1..] && b == [b[0]] + b[1..];
    }
  }

  lemma {:induction false} LessAsymmetric(a: seq<int>, b: seq<int>)
    requires Less(a, b)
    ensures !Less(b, a) && a != b
  {
    if a != [] && a[0] == b[0] {
      LessAsymmetric(a[1..], b[1..]);
    }
  }

  lemma {:induction false} LessTransitive(a: seq<int>, b: seq<int>, c: seq<int>)
    requires Less(a, b) && Less(b, c)
    ensures Less(a, c)
  {
    if a != [] && a[0] == b[0] == c[0] {
      LessTransitive(a[1..], b[1..], c[1..]);
    }
  }

  lemma NotBelowItself(a: seq<int>)
    ensures !Less(a, a)
  {
    if Less(a, a) {
      LessAsymmetric(a, a);
    }
  }

  lemma NotBoth(a: seq<int>, b: seq<int>)
    ensures !(Less(a, b) && Less(b, a)) && !Less(a, a)
  {
    NotBelowItself(a);
    if Less(a, b) {
      LessAsymmetric(a, b);
    }
  }

  lemma NotLessTransitive(a: seq<int>, b: seq<int>, c: seq<int>)
    requires !Less(b, a) && !Less(c, b)
    ensures !Less(c, a)
  {
    LessTotal(a, b);
    LessTotal(b, c);
    if Less(a, b) && Less(b, c) {
      LessTransitive(a, b, c);
    }
    LessTotal(a, c);
    NotBelowItself(a);
    if Less(a, c) {
      LessAsymmetric(a, c);
    }
  }

  /** A common head decides nothing. */
  lemma {:induction false} LessAfterPrefix(p: seq<int>, a: seq<int>, b: seq<int>)
    ensures Less(p + a, p + b) <==> Less(a, b)
  {
    if p == [] {
      assert p + a == a && p + b == b;
    } else {
      assert (p + a)[1..] == p[1..] + a && (p + b)[1..] == p[1..] + b;
      LessAfterPrefix(p[1..], a, b);
    }
  }

  lemma PrefixAtMost(p: seq<int>, s: seq<int>)
    requires p <= s
    ensures AtMost(p, s)
  {
    if p != s {
      var t := s[|p|..];
      assert s == p + t && p == p + [];
      LessAfterPrefix(p, [], t);
    }
  }

  /** Where two sequences first differ is where they are ordered. */
  lemma {:induction false} LessAtDifference(a: seq<int>, b: seq<int>, i: nat)
    requires i < |a| && i < |b| && a[..i] == b[..i] && a[i] != b[i]
    ensures Less(a, b) <==> a[i] < b[i]
  {
    assert a == a[..i] + a[i..] && b == a[..i] + b[i..];
    LessAfterPrefix(a[..i], a[i..], b[i..]);
  }

  /** Everything sorting between a prefix and one of its extensions extends it too. */
  lemma {:induction false} BetweenExtends(p: seq<int>, m: seq<int>, s: seq<int>)
    requires p <= s && AtMost(p, m) && AtMost(m, s)
    ensures p <= m
  {
    if m != s && p != m && p != [] {
      BetweenExtends(p[1..], m[1..], s[1..]);
      assert p == [p[0]] + p[1..] && m == [m[0]] + m[1..];
    }
  }

  // ---------------------------------------------------------------- sorting

  /** A comparison `list.sort` accepts: irreflexive, and "not before" is transitive. */
  ghost predicate WeakOrder<T(!new)>(before: (T, T) -> bool) {
    && (forall x :: !before(x, x))
    && (forall x, y :: before(x, y) ==> !before(y, x))
    && (forall x, y, z :: !before(y, x) && !before(z, y) ==> !before(z, x))
  }

  ghost predicate SortedBy<T>(s: seq<T>, before: (T, T) -> bool) {
    forall i, j :: 0 <= i < j < |s| ==> !before(s[j], s[i])
  }

  /** Put `x` in front of everything not strictly before it. */
  function Insert<T>(x: T, s: seq<T>, before: (T, T) -> bool): (r: seq<T>)
    ensures multiset(r) == multiset([x]) + multiset(s)
    ensures |r| == |s| + 1
  {
    if s == [] || !before(s[0], x) then [x] + s
    else
      assert s == [s[0]] + s[1..];
      [s[0]] + Insert(x, s[1..], before)
  }

  /** `sorted(s, ...)`: stable, since an element goes in front of its later equals. */
  function StableSort<T>(s: seq<T>, before: (T, T) -> bool): (r: seq<T>)
    ensures multiset(r) == multiset(s)
    ensures |r| == |s|
  {
    if s == [] then []
    else
      assert s == [s[0]] + s[1..];
      Insert(s[0], StableSort(s[1..], before), before)
  }

  lemma InMultiset<T>(s: seq<T>, t: seq<T>, x: T)
    requires multiset(s) == multiset(t) && x in s
    ensures x in t
  {
    assert x in multiset(s);
  }

  lemma {:induction false} InsertSorted<T(!new)>(x: T, s: seq<T>, before: (T, T) -> bool)
    requires WeakOrder(before) && SortedBy(s, before)
    ensures SortedBy(Insert(x, s, before), before)
  {
    if s == [] {
    } else if !before(s[0], x) {
      forall j | 0 <= j < |s| ensures !before(s[j], x) {
        assert j > 0 ==> !before(s[j], s[0]);
      }
    } else {
      var rest := Insert(x, s[1..], before);
      InsertSorted(x, s[1..], before);
      forall y | y in rest ensures !before(y, s[0]) {
        assert y in multiset(rest);
        assert y == x || y in s[1..];
      }
    }
  }

  lemma {:induction false} StableSortSorts<T(!new)>(s: seq<T>, before: (T, T) -> bool)
    requires WeakOrder(before)
    ensures SortedBy(StableSort(s, before), before)
  {
    if s != [] {
      StableSortSorts(s[1..], before);
      InsertSorted(s[0], StableSort(s[1..], before), before);
    }
  }

  /** Only how the elements compare with each other matters. */
  lemma {:induction false} InsertSame<T>(x: T, s: seq<T>, f: (T, T) -> bool, g: (T, T) -> bool)
    requires forall y :: y in s ==> f(y, x) == g(y, x)
    ensures Insert(x, s, f) == Insert(x, s, g)
  {
    if s != [] && f(s[0], x) {
      InsertSame(x, s[1..], f, g);
    }
  }

  lemma {:induction false} StableSortSame<T>(s: seq<T>, f: (T, T) -> bool, g: (T, T) -> bool)
    requires forall x, y :: x in s && y in s ==> f(x, y) == g(x, y)
    ensures StableSort(s, f) == StableSort(s, g)
  {
    if s != [] {
      StableSortSame(s[1..], f, g);
      var rest := StableSort(s[1..], f);
      forall y | y in rest
        ensures f(y, s[0]) == g(y, s[0])
      {
        InMultiset(rest, s[1..], y);
      }
      InsertSame(s[0], rest, f, g);
    }
  }

  /** Selecting keeps every copy of what it selects. */
  lemma {:induction false} SelectCounts<T>(s: seq<T>, p: T -> bool, x: T)
    ensures multiset(Select(s, p))[x] == if p(x) then multiset(s)[x] else 0
  {
    if s != [] {
      SelectCounts(s[1..], p, x);
      assert s == [s[0]] + s[1..];
    }
  }

  function Select<T>(s: seq<T>, p: T -> bool): seq<T> {
    if s == [] then []
    else if p(s[0]) then [s[0]] + Select(s[1..], p)
    else Select(s[1..], p)
  }

  lemma {:induction false} NoneSelected<T>(s: seq<T>, p: T -> bool)
    requires forall j :: 0 <= j < |s| ==> !p(s[j])
    ensures Select(s, p) == []
  {
    if s != [] {
      NoneSelected(s[1..], p);
    }
  }

  lemma {:induction false} InsertKeepsClass<T(!new)>(x: T, s: seq<T>, before: (T, T) -> bool, p: T -> bool)
    requires forall a, b :: p(a) && p(b) ==> !before(a, b)
    ensures Select(Insert(x, s, before), p) == Select([x] + s, p)
  {
    if s != [] && before(s[0], x) {
      InsertKeepsClass(x, s[1..], before, p);
      assert ([x] + s[1..])[1..] == s[1..] && ([x] + s)[1..] == s;
      assert Insert(x, s, before)[1..] == Insert(x, s[1..], before);
    }
  }

  /** Stability: elements the order cannot tell apart keep the order they came in. */
  lemma {:induction false} StableSortKeepsClass<T(!new)>(s: seq<T>, before: (T, T) -> bool, p: T -> bool)
    requires forall a, b :: p(a) && p(b) ==> !before(a, b)
    ensures Select(StableSort(s, before), p) == Select(s, p)
  {
    if s != [] {
      var rest := StableSort(s[1..], before);
      StableSortKeepsClass(s[1..], before, p);
      InsertKeepsClass(s[0], rest, before, p);
      assert ([s[0]] + rest)[1..] == rest;
    }
  }

  /** The element `max()`/`min()` returns: the first nothing else comes before. */
  function FirstBest<T>(s: seq<T>, before: (T, T) -> bool): (i: nat)
    requires s != []
    ensures i < |s|
  {
    if |s| == 1 then 0
    else
      var j := FirstBest(s[1..], before);
      if before(s[1..][j], s[0]) then j + 1 else 0
  }

  /** ... and that is what `FirstBest` finds. */
  lemma {:induction false} FirstBestIsFirstBest<T(!new)>(s: seq<T>, before: (T, T) -> bool)
    requires WeakOrder(before) && s != []
    ensures var i := FirstBest(s, before);
            && (forall j :: 0 <= j < |s| ==> !before(s[j], s[i]))
            && (forall j :: 0 <= j < i ==> before(s[i], s[j]))
  {
    if |s| > 1 {
      FirstBestIsFirstBest(s[1..], before);
      var k := FirstBest(s[1..], before);
      forall j | 0 < j < |s| ensures !before(s[j], s[1..][k]) {
        assert s[j] == s[1..][j - 1];
      }
      if before(s[1..][k], s[0]) {
        forall j | 0 < j < k + 1 ensures before(s[k + 1], s[j]) {
          assert s[j] == s[1..][j - 1];
        }
      }
    }
  }

  /** The head of a stable sort is the first of the best. */
  lemma {:induction false} StableSortHead<T(!new)>(s: seq<T>, before: (T, T) -> bool)
    requires WeakOrder(before) && s != []
    ensures StableSort(s, before)[0] == s[FirstBest(s, before)]
  {
    if |s| > 1 {
      StableSortHead(s[1..], before);
    }
  }

  ghost predicate Ascending(s: seq<seq<int>>) {
    forall i, j :: 0 <= i < j < |s| ==> Less(s[i], s[j])
  }

  /** Two strictly ascending sequences of the same elements are the same sequence. */
  lemma {:induction false} AscendingUnique(s: seq<seq<int>>, t: seq<seq<int>>)
    requires Ascending(s) && Ascending(t)
    requires forall x :: x in s <==> x in t
    ensures s == t
  {
    assert t != [] ==> t[0] in t;
    if s != [] {
      assert s[0] in t && t[0] in s;
      if s[0] != t[0] {
        assert Less(t[0], s[0]) && Less(s[0], t[0]);
        LessAsymmetric(s[0], t[0]);
      }
      forall x ensures x in s[1..] <==> x in t[1..] {
        NotAgain(s, x);
        NotAgain(t, x);
      }
      AscendingUnique(s[1..], t[1..]);
      assert s == [s[0]] + s[1..] && t == [t[0]] + t[1..];
    }
  }

  /** What follows the head of an ascending sequence is everything but the head. */
  lemma NotAgain(s: seq<seq<int>>, x: seq<int>)
    requires Ascending(s) && s != []
    ensures x in s[1..] <==> x in s && x != s[0]
  {
    if x in s[1..] {
      LessAsymmetric(s[0], x);
    }
  }
}
