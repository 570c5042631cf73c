/** `OidOrderedDict`: a dictionary whose key order is sorted only when a read needs it,
    against a plain map that is sorted every time. */
module OrderedIndex {
  import opened Wrappers
  import opened Lex

  // ------------------------------------------------------ the plain map

  ghost predicate SameSet(ks: seq<seq<int>>, s: set<seq<int>>) {
    forall k :: k in ks <==> k in s
  }

  function OidOrder(): (seq<int>, seq<int>) -> bool {
    (a: seq<int>, b: seq<int>) => Less(a, b)
  }

  lemma OidOrderIsWeak()
    ensures WeakOrder(OidOrder())
  {
    forall a: seq<int>, b: seq<int> ensures !Less(a, a) && (Less(a, b) ==> !Less(b, a)) {
      NotBelowItself(a);
      if Less(a, b) {
        LessAsymmetric(a, b);
      }
    }
    forall a: seq<int>, b: seq<int>, c: seq<int> | !Less(b, a) && !Less(c, b) ensures !Less(c, a) {
      NotLessTransitive(a, b, c);
    }
  }

  predicate Distinct(ks: seq<seq<int>>) {
    forall i, j :: 0 <= i < j < |ks| ==> ks[i] != ks[j]
  }

  /** Sorting distinct keys gives the one ascending sequence of them. */
  lemma SortAscends(ks: seq<seq<int>>)
    requires Distinct(ks)
    ensures Ascending(StableSort(ks, OidOrder()))
    ensures forall k :: k in StableSort(ks, OidOrder()) <==> k in ks
  {
    var r := StableSort(ks, OidOrder());
    OidOrderIsWeak();
    StableSortSorts(ks, OidOrder());
    SortKeepsDistinct(ks, r);
    forall i, j | 0 <= i < j < |r| ensures Less(r[i], r[j]) {
      assert !OidOrder()(r[j], r[i]);
      LessTotal(r[i], r[j]);
    }
    forall k ensures k in r <==> k in ks {
      assert k in multiset(r) <==> k in multiset(ks);
    }
  }

  lemma SortKeepsDistinct(s: seq<seq<int>>, t: seq<seq<int>>)
    requires Distinct(s) && multiset(s) == multiset(t)
    ensures Distinct(t)
  {
    forall i, j | 0 <= i < j < |t| ensures t[i] != t[j] {
      AtMostOnce(s, t[i]);
      assert t == t[..i] + [t[i]] + t[i + 1..j] + [t[j]] + t[j + 1..];
      assert multiset(t)[t[i]] <= 1;
    }
  }

  lemma {:induction false} AtMostOnce(s: seq<seq<int>>, x: seq<int>)
    requires Distinct(s)
    ensures multiset(s)[x] <= 1
  {
    if s != [] {
      assert s == [s[0]] + s[1..];
      AtMostOnce(s[1..], x);
      if x == s[0] {
        assert x !in s[1..];
        assert multiset(s[1..])[x] == 0;
      }
    }
  }

  lemma {:induction false} Enumerable(s: set<seq<int>>) returns (ks: seq<seq<int>>)
    ensures Ascending(ks) && SameSet(ks, s)
  {
    var raw := Enumerate(s);
    SortAscends(raw);
    ks := StableSort(raw, OidOrder());
  }

  lemma {:induction false} Enumerate(s: set<seq<int>>) returns (ks: seq<seq<int>>)
    ensures Distinct(ks) && SameSet(ks, s)
  {
    if s == {} {
      ks := [];
    } else {
      var x :| x in s;
      var rest := Enumerate(s - {x});
      ks := [x] + rest;
    }
  }

  /** The keys of a plain map, sorted. */
  ghost function KeyOrder(s: set<seq<int>>): (ks: seq<seq<int>>)
    ensures Ascending(ks) && SameSet(ks, s)
  {
    assert exists w: seq<seq<int>> :: Ascending(w) && SameSet(w, s) by {
      var w := Enumerable(s);
    }
    var w: seq<seq<int>> :| Ascending(w) && SameSet(w, s);
    w
  }

  lemma OnlyKeyOrder(s: set<seq<int>>, ks: seq<seq<int>>)
    requires Ascending(ks) && SameSet(ks, s)
    ensures ks == KeyOrder(s)
  {
    AscendingUnique(ks, KeyOrder(s));
  }

  /** The least key above `k`, which need not be a key itself. */
  ghost predicate IsNext(s: set<seq<int>>, k: seq<int>, r: Option<seq<int>>) {
    match r
    case None => forall q :: q in s ==> !Less(k, q)
    case Some(next) => next in s && Less(k, next) && forall q :: q in s && Less(k, q) ==> AtMost(next, q)
  }

  ghost predicate IsLengthsOf(s: set<seq<int>>, lens: seq<nat>) {
    && (forall i, j :: 0 <= i < j < |lens| ==> lens[i] > lens[j])
    && (forall n :: n in lens <==> exists k :: k in s && |k| == n)
  }

  lemma NextUnique(s: set<seq<int>>, k: seq<int>, a: Option<seq<int>>, b: Option<seq<int>>)
    requires IsNext(s, k, a) && IsNext(s, k, b)
    ensures a == b
  {
    if a.Some? && b.Some? && a != b {
      LessAsymmetric(a.value, b.value);
    }
  }

  /** `bisect(keys, k)`: how many leading keys are not above `k`. */
  function Bisect(keys: seq<seq<int>>, k: seq<int>): (n: nat)
    ensures n <= |keys|
    ensures n < |keys| ==> Less(k, keys[n])
    ensures forall i :: 0 <= i < n ==> !Less(k, keys[i])
  {
    if keys == [] || Less(k, keys[0]) then 0
    else
      var n := Bisect(keys[1..], k);
      assert forall i :: 0 < i < n + 1 ==> keys[i] == keys[1..][i - 1];
      n + 1
  }

  /** On sorted keys the search finds the least key above, whether or not `k` is there. */
  lemma BisectFindsNext(s: set<seq<int>>, keys: seq<seq<int>>, k: seq<int>)
    requires Ascending(keys) && SameSet(keys, s)
    ensures var n := Bisect(keys, k);
            IsNext(s, k, if n < |keys| then Some(keys[n]) else None)
  {
    var n := Bisect(keys, k);
    forall q | q in s && Less(k, q) ensures n < |keys| && AtMost(keys[n], q) {
      assert q in keys;
      var i :| 0 <= i < |keys| && keys[i] == q;
      assert i >= n;
    }
  }

  /** The keys above `k`, in order. */
  ghost function Later(s: set<seq<int>>, k: seq<int>): set<seq<int>> {
    set q | q in s && Less(k, q)
  }

  /** Asking for the next key until `KeyError`. */
  ghost function Visits(s: set<seq<int>>, k: seq<int>): seq<seq<int>>
    decreases Later(s, k)
  {
    var ks := KeyOrder(s);
    var n := Bisect(ks, k);
    if n == |ks| then []
    else
      LaterShrinks(s, k, ks[n]);
      [ks[n]] + Visits(s, ks[n])
  }

  lemma LaterShrinks(s: set<seq<int>>, k: seq<int>, next: seq<int>)
    requires next in s && Less(k, next)
    ensures Later(s, next) < Later(s, k)
  {
    forall q | q in s && Less(next, q) ensures Less(k, q) {
      LessTransitive(k, next, q);
    }
    NotBelowItself(next);
    assert next in Later(s, k) && next !in Later(s, next);
  }

  /** It visits every key above `k` once, in ascending order, and then raises. */
  lemma {:induction false} VisitsAllLater(s: set<seq<int>>, k: seq<int>)
    ensures Visits(s, k) == KeyOrder(Later(s, k))
    decreases Later(s, k)
  {
    var ks := KeyOrder(s);
    var n := Bisect(ks, k);
    var visits := Visits(s, k);
    BisectFindsNext(s, ks, k);
    if n == |ks| {
      OnlyKeyOrder(Later(s, k), []);
    } else {
      var next := ks[n];
      LaterShrinks(s, k, next);
      VisitsAllLater(s, next);
      var rest := Visits(s, next);
      forall q ensures q in visits <==> q in Later(s, k) {
        if q in Later(s, k) {
          assert q == next || Less(next, q);
        }
        if Less(next, q) {
          LessTransitive(k, next, q);
        }
      }
      forall i | 0 <= i < |rest| ensures Less(next, rest[i]) {
        assert rest[i] in Later(s, next);
      }
      OnlyKeyOrder(Later(s, k), visits);
    }
  }

  // ------------------------------------------------------------ the dictionary

  function RemoveKey(keys: seq<seq<int>>, k: seq<int>): (r: seq<seq<int>>)
    requires Distinct(keys) && k in keys
    ensures Distinct(r) && forall q :: q in r <==> q in keys && q != k
  {
    if keys[0] == k then keys[1..]
    else
      var rest := RemoveKey(keys[1..], k);
      assert forall i :: 0 <= i < |rest| ==> rest[i] in rest;
      assert keys[0] !in keys[1..];
      [keys[0]] + rest
  }

  /** `sorted({len(k) for k in keys}, reverse=True)`. */
  function LengthsOf(keys: seq<seq<int>>): (lens: seq<nat>)
    ensures forall i, j :: 0 <= i < j < |lens| ==> lens[i] > lens[j]
    ensures forall n :: n in lens <==> exists k :: k in keys && |k| == n
  {
    if keys == [] then []
    else
      var rest := LengthsOf(keys[1..]);
      var r := AddLength(|keys[0]|, rest);
      assert forall k :: k in keys <==> k == keys[0] || k in keys[1..];
      r
  }

  function AddLength(n: nat, lens: seq<nat>): (r: seq<nat>)
    requires forall i, j :: 0 <= i < j < |lens| ==> lens[i] > lens[j]
    ensures forall i, j :: 0 <= i < j < |r| ==> r[i] > r[j]
    ensures forall m :: m in r <==> m == n || m in lens
  {
    if lens == [] || n > lens[0] then [n] + lens
    else if n == lens[0] then lens
    else
      var rest := AddLength(n, lens[1..]);
      assert forall i :: 0 <= i < |rest| ==> rest[i] in rest;
      [lens[0]] + rest
  }

  lemma OrderKeeps(keys: seq<seq<int>>, s: set<seq<int>>)
    requires Distinct(keys) && SameSet(keys, s)
    ensures var r := StableSort(keys, OidOrder());
            Ascending(r) && Distinct(r) && SameSet(r, s) && IsLengthsOf(s, LengthsOf(r))
  {
    hide StableSort, LengthsOf;
    SortAscends(keys);
    AscendingIsDistinct(StableSort(keys, OidOrder()));
  }

  datatype Op<V> = SetItem(key: seq<int>, value: V) | DelItem(key: seq<int>) | Clear
                 | Keys | Values | Items | NextKey(key: seq<int>) | KeysLens

  datatype Answer<V> = Done | KeyError
                     | KeyList(keys: seq<seq<int>>) | ValueList(values: seq<V>)
                     | ItemList(items: seq<(seq<int>, V)>) | Next(key: seq<int>) | Lengths(lens: seq<nat>)

  /** What a plain map answers, sorting it anew whenever order matters. */
  ghost predicate PlainStep<V>(m: map<seq<int>, V>, op: Op<V>, m': map<seq<int>, V>, a: Answer<V>) {
    match op
    case SetItem(k, v) => m' == m[k := v] && a == Done
    case DelItem(k) => if k in m then m' == m - {k} && a == Done else m' == m && a == KeyError
    case Clear => m' == map[] && a == Done
    case Keys => m' == m && a == KeyList(KeyOrder(m.Keys))
    case Values => m' == m && a == ValueList(ValuesOf(m, KeyOrder(m.Keys)))
    case Items => m' == m && a == ItemList(ItemsOf(m, KeyOrder(m.Keys)))
    case NextKey(k) => m' == m && (a.KeyError? || a.Next?)
                       && IsNext(m.Keys, k, if a.Next? then Some(a.key) else None)
    case KeysLens => m' == m && a.Lengths? && IsLengthsOf(m.Keys, a.lens)
  }

  function ValuesOf<V>(m: map<seq<int>, V>, ks: seq<seq<int>>): seq<V>
    requires forall k :: k in ks ==> k in m
  {
    seq(|ks|, i requires 0 <= i < |ks| => m[ks[i]])
  }

  function ItemsOf<V>(m: map<seq<int>, V>, ks: seq<seq<int>>): seq<(seq<int>, V)>
    requires forall k :: k in ks ==> k in m
  {
    seq(|ks|, i requires 0 <= i < |ks| => (ks[i], m[ks[i]]))
  }

  /** A whole run of the plain map. */
  ghost predicate PlainRun<V>(states: seq<map<seq<int>, V>>, ops: seq<Op<V>>, answers: seq<Answer<V>>) {
    && |answers| == |ops| && |states| == |ops| + 1
    && forall i :: 0 <= i < |ops| ==> PlainStep(states[i], ops[i], states[i + 1], answers[i])
  }

  /** The plain map's answers are determined, so agreeing with it is agreeing exactly. */
  lemma PlainStepDetermined<V>(m: map<seq<int>, V>, op: Op<V>, x: map<seq<int>, V>, a: Answer<V>,
                               y: map<seq<int>, V>, b: Answer<V>)
    requires PlainStep(m, op, x, a) && PlainStep(m, op, y, b)
    ensures x == y && a == b
  {
    match op {
      case NextKey(k) =>
        NextUnique(m.Keys, k, if a.Next? then Some(a.key) else None, if b.Next? then Some(b.key) else None);
      case KeysLens => LengthsUnique(a.lens, b.lens);
      case _ =>
    }
  }

  lemma {:induction false} LengthsUnique(a: seq<nat>, b: seq<nat>)
    requires forall i, j :: 0 <= i < j < |a| ==> a[i] > a[j]
    requires forall i, j :: 0 <= i < j < |b| ==> b[i] > b[j]
    requires forall n :: n in a <==> n in b
    ensures a == b
  {
    if a == [] {
      assert forall i :: 0 <= i < |b| ==> b[i] in a;
    } else {
      assert a[0] in b && b[0] in a;
      assert a[0] == b[0];
      forall n ensures n in a[1..] <==> n in b[1..] {
        assert n in a[1..] <==> n in a && n != a[0];
        assert n in b[1..] <==> n in b && n != b[0];
      }
      LengthsUnique(a[1..], b[1..]);
      assert a == [a[0]] + a[1..] && b == [b[0]] + b[1..];
    }
  }

  /** Keys are tuples of integers, so each sorts by itself. */
  class OidOrderedDict<V> {
    var dict: map<seq<int>, V>
    var keys: seq<seq<int>>
    var dirty: bool
    var keysLens: seq<nat>
    var keysCache: map<seq<int>, seq<int>>

    ghost predicate Valid()
      reads this
    {
      && Distinct(keys) && SameSet(keys, dict.Keys)
      && (!dirty ==> Ascending(keys) && IsLengthsOf(dict.Keys, keysLens))
      && (forall k :: k in keysCache ==> keysCache[k] == k)
      && (forall k :: k in dict ==> k in keysCache)
    }

    constructor ()
      ensures Valid() && dict == map[]
    {
      dict, keys, dirty, keysLens, keysCache := map[], [], true, [], map[];
    }

    method SetItem(k: seq<int>, v: V)
      requires Valid()
      modifies this
      ensures Valid() && dict == old(dict)[k := v]
    {
      if k !in dict {
        keys := keys + [k];
        dirty := true;
      }
      dict := dict[k := v];
      if k !in keysCache {
        keysCache := keysCache[k := k];
      }
    }

    /** False is `KeyError`. */
    method DelItem(k: seq<int>) returns (found: bool)
      requires Valid()
      modifies this
      ensures Valid() && found == (k in old(dict)) && dict == old(dict) - {k}
    {
      if k in dict {
        keys := RemoveKey(keys, k);
        dirty := true;
      }
      if k !in dict {
        return false;
      }
      dict := dict - {k};
      if k in keysCache {
        keysCache := keysCache - {k};
      }
      return true;
    }

    /** The conversion cache is not cleared with the rest. */
    method Clear()
      requires Valid()
      modifies this
      ensures Valid() && dict == map[] && keysCache == old(keysCache)
    {
      dict, keys, dirty := map[], [], true;
    }

    method Order()
      requires Valid()
      modifies this`keys, this`keysLens, this`dirty
      ensures Valid() && !dirty
    {
      hide StableSort, LengthsOf, Ascending, Distinct, SameSet, IsLengthsOf;
      OrderKeeps(keys, dict.Keys);
      keys := StableSort(keys, OidOrder());
      keysLens := LengthsOf(keys);
      dirty := false;
    }

    method KeysInOrder() returns (r: seq<seq<int>>)
      requires Valid()
      modifies this`keys, this`keysLens, this`dirty
      ensures Valid() && r == KeyOrder(dict.Keys)
    {
      if dirty {
        Order();
      }
      OnlyKeyOrder(dict.Keys, keys);
      return keys;
    }

    method ValuesInOrder() returns (r: seq<V>)
      requires Valid()
      modifies this`keys, this`keysLens, this`dirty
      ensures Valid() && r == ValuesOf(dict, KeyOrder(dict.Keys))
    {
      if dirty {
        Order();
      }
      OnlyKeyOrder(dict.Keys, keys);
      return ValuesOf(dict, keys);
    }

    method ItemsInOrder() returns (r: seq<(seq<int>, V)>)
      requires Valid()
      modifies this`keys, this`keysLens, this`dirty
      ensures Valid() && r == ItemsOf(dict, KeyOrder(dict.Keys))
    {
      if dirty {
        Order();
      }
      OnlyKeyOrder(dict.Keys, keys);
      return ItemsOf(dict, keys);
    }

    /** `None` is `KeyError`. */
    method NextKey(k: seq<int>) returns (r: Option<seq<int>>)
      requires Valid()
      modifies this`keys, this`keysLens, this`dirty
      ensures Valid() && IsNext(dict.Keys, k, r)
    {
      if dirty {
        Order();
      }
      BisectFindsNext(dict.Keys, keys, k);
      var n := Bisect(keys, k);
      return if n < |keys| then Some(keys[n]) else None;
    }

    method GetKeysLens() returns (r: seq<nat>)
      requires Valid()
      modifies this`keys, this`keysLens, this`dirty
      ensures Valid() && IsLengthsOf(dict.Keys, r)
    {
      if dirty {
        Order();
      }
      return keysLens;
    }

    method Perform(op: Op<V>) returns (a: Answer<V>)
      requires Valid()
      modifies this
      ensures Valid() && PlainStep(old(dict), op, dict, a)
    {
      match op {
        case SetItem(k, v) => SetItem(k, v); a := Done;
        case DelItem(k) =>
          var found := DelItem(k);
          a := if found then Done else KeyError;
        case Clear => Clear(); a := Done;
        case Keys => var r := KeysInOrder(); a := KeyList(r);
        case Values => var r := ValuesInOrder(); a := ValueList(r);
        case Items => var r := ItemsInOrder(); a := ItemList(r);
        case NextKey(k) =>
          var r := NextKey(k);
          a := if r.Some? then Next(r.value) else KeyError;
        case KeysLens => var r := GetKeysLens(); a := Lengths(r);
      }
    }

    /** Any sequence of writes and reads, in any mixture, answers as the plain map does. */
    method PerformAll(ops: seq<Op<V>>) returns (answers: seq<Answer<V>>, ghost states: seq<map<seq<int>, V>>)
      requires Valid()
      modifies this
      ensures Valid() && PlainRun(states, ops, answers)
      ensures states[0] == old(dict) && states[|ops|] == dict
    {
      answers, states := [], [dict];
      for i := 0 to |ops|
        invariant Valid() && PlainRun(states, ops[..i], answers)
        invariant states[0] == old(dict) && states[i] == dict
      {
        var a := Perform(ops[i]);
        answers := answers + [a];
        states := states + [dict];
        assert ops[..i + 1] == ops[..i] + [ops[i]];
      }
      assert ops[..|ops|] == ops;
    }
  }

  lemma AscendingIsDistinct(ks: seq<seq<int>>)
    requires Ascending(ks)
    ensures Distinct(ks)
  {
    forall i, j | 0 <= i < j < |ks| ensures ks[i] != ks[j] {
      LessAsymmetric(ks[i], ks[j]);
    }
  }
}
