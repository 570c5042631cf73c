/** The MIB view's long labels: the single pass of `indexMib` over the sorted OIDs, and
    `__getOidLabel`, which splits an OID into what is indexed and the rest. */
module LabelView {
  import opened Lex

  /** One element of a label, or of anything a node may be looked up by. */
  datatype Item = Name(text: string) | Arc(n: int)

  type Label = seq<Item>
  type Names = map<seq<int>, string>

  function Arcs(oid: seq<int>): (r: Label)
    ensures |r| == |oid| && forall i :: 0 <= i < |oid| ==> r[i] == Arc(oid[i])
  {
    seq(|oid|, i requires 0 <= i < |oid| => Arc(oid[i]))
  }

  // -------------------------------------------------- what a label should be

  /** The length of the longest indexed proper prefix at most `i` long; zero for none. */
  function AnchorFrom<V>(idx: map<seq<int>, V>, key: seq<int>, i: nat): (a: nat)
    requires i <= |key|
    ensures a <= i
    ensures a > 0 ==> key[..a] in idx
    ensures forall k :: a < k <= i ==> key[..k] !in idx
  {
    if i == 0 || key[..i] in idx then i else AnchorFrom(idx, key, i - 1)
  }

  function Anchor<V>(idx: map<seq<int>, V>, key: seq<int>): (a: nat)
    requires key != []
    ensures a < |key|
    ensures a > 0 ==> key[..a] in idx
    ensures forall k :: a < k < |key| ==> key[..k] !in idx
  {
    AnchorFrom(idx, key, |key| - 1)
  }

  /** The label of the longest indexed proper prefix, the arcs it skips, ... */
  function Base(names: Names, key: seq<int>): Label
    requires key != []
    decreases |key|, 0
  {
    var a := Anchor(names, key);
    if a == 0 then [] else LongLabel(names, key[..a]) + Arcs(key[a..|key| - 1])
  }

  /** ... and the node's own name. */
  function LongLabel(names: Names, key: seq<int>): (r: Label)
    requires key != [] && key in names
    ensures r != [] && r[|r| - 1] == Name(names[key])
    decreases |key|, 1
  {
    Base(names, key) + [Name(names[key])]
  }

  ghost predicate PrefixClosed(names: Names) {
    forall k :: k in names && |k| > 1 ==> k[..|k| - 1] in names
  }

  /** Where every parent is indexed, a label is the parent's and the node's own name. */
  lemma ClosedLabel(names: Names, key: seq<int>)
    requires PrefixClosed(names) && key != [] && key in names
    ensures LongLabel(names, key) ==
            (if |key| == 1 then [] else LongLabel(names, key[..|key| - 1])) + [Name(names[key])]
  {
    if |key| > 1 {
      assert key[..|key| - 1] in names;
      assert Anchor(names, key) == |key| - 1;
      assert Arcs(key[|key| - 1..|key| - 1]) == [];
    }
  }

  // ------------------------------------------------------------------ the pass

  /** Both indices, and the two variables the loop carries from key to key. */
  datatype Pass = Pass(labels: map<seq<int>, Label>, oids: map<Label, seq<int>>, prev: seq<int>, base: Label)

  function Start(names: Names): Pass {
    Pass(map k | k in names :: [Name(names[k])], map[], [], [])
  }

  function NewBase(p: Pass, key: seq<int>): Label
    requires key != [] && (p.prev == [] || p.prev in p.labels)
  {
    var diff := |key| - |p.prev|;
    if diff > 0 then
      if p.prev == [] then []
      else if diff == 1 then p.labels[p.prev]
      else p.base + Arcs(key[|key| - diff..|key| - 1])
    else if diff < 0 then
      var a := Anchor(p.labels, key);
      if a == 0 then []
      else if a != |key| - 1 then p.labels[key[..a]] + Arcs(key[a..|key| - 1])
      else p.labels[key[..a]]
    else p.base
  }

  function Step(p: Pass, key: seq<int>): Pass
    requires key != [] && key in p.labels && (p.prev == [] || p.prev in p.labels)
  {
    var base := NewBase(p, key);
    var long := base + p.labels[key];
    Pass(p.labels[key := long], p.oids[long := key], key, base)
  }

  ghost predicate Listed(names: Names, ks: seq<seq<int>>) {
    && Ascending(ks)
    && (forall i :: 0 <= i < |ks| ==> ks[i] != [] && ks[i] in names)
    && (forall k :: k in names ==> k in ks)
  }

  function After(names: Names, ks: seq<seq<int>>, n: nat): (p: Pass)
    requires n <= |ks| && Listed(names, ks)
    ensures p.labels.Keys == names.Keys
    ensures p.prev == if n == 0 then [] else ks[n - 1]
  {
    if n == 0 then Start(names) else Step(After(names, ks, n - 1), ks[n - 1])
  }

  /** The first half of the loop body: the base label for the next key. */
  method NextBase(labels: map<seq<int>, Label>, prevOid: seq<int>, base: Label, key: seq<int>)
    returns (baseLabel: Label)
    requires key != [] && (prevOid == [] || prevOid in labels)
    ensures baseLabel == NewBase(Pass(labels, map[], prevOid, base), key)
  {
    baseLabel := base;
    var keydiff := |key| - |prevOid|;
    if keydiff > 0 {
      if prevOid != [] {
        if keydiff == 1 {
          baseLabel := labels[prevOid];
        } else {
          baseLabel := baseLabel + Arcs(key[|key| - keydiff..|key| - 1]);
        }
      } else {
        baseLabel := [];
      }
    } else if keydiff < 0 {
      baseLabel := [];
      var i := |key| - 1;
      while i != 0
        invariant 0 <= i < |key| && baseLabel == []
        invariant Anchor(labels, key) == AnchorFrom(labels, key, i)
      {
        if key[..i] in labels {
          baseLabel := labels[key[..i]];
          if i != |key| - 1 {
            baseLabel := baseLabel + Arcs(key[i..|key| - 1]);
          }
          break;
        }
        i := i - 1;
      }
    }
  }

  /** The loop itself, over the ordered dictionary's keys. */
  method IndexLabels(names: Names, ks: seq<seq<int>>) returns (labels: map<seq<int>, Label>, oids: map<Label, seq<int>>)
    requires Listed(names, ks)
    ensures labels == After(names, ks, |ks|).labels && oids == After(names, ks, |ks|).oids
  {
    hide NewBase, Ascending, Anchor, AnchorFrom, Less;
    labels := map k | k in names :: [Name(names[k])];
    oids := map[];
    var prevOid: seq<int>, baseLabel: Label := [], [];
    for n := 0 to |ks|
      invariant After(names, ks, n) == Pass(labels, oids, prevOid, baseLabel)
    {
      var key := ks[n];
      ghost var p := After(names, ks, n);
      BaseIgnoresOids(p, key);
      baseLabel := NextBase(labels, prevOid, baseLabel, key);
      labels := labels[key := baseLabel + labels[key]];
      oids := oids[labels[key] := key];
      prevOid := key;
    }
  }

  lemma BaseIgnoresOids(p: Pass, key: seq<int>)
    requires key != [] && (p.prev == [] || p.prev in p.labels)
    ensures NewBase(p, key) == NewBase(p.(oids := map[]), key)
  {
  }

  // --------------------------------------------- when the pass gets it right

  /** What two neighbouring keys must satisfy for the step between them to be right. */
  predicate Fits<V>(names: map<seq<int>, V>, prev: seq<int>, key: seq<int>)
    requires prev != [] && key != []
  {
    || |key| < |prev|
    || (|key| == |prev| && (key[..|key| - 1] == prev[..|prev| - 1] || Anchor(names, key) == Anchor(names, prev) == 0))
    || (|key| == |prev| + 1 && prev == key[..|key| - 1])
  }

  ghost predicate FitsAt(names: Names, ks: seq<seq<int>>, i: nat)
    requires Listed(names, ks) && 0 < i < |ks|
  {
    Fits(names, ks[i - 1], ks[i])
  }

  ghost predicate AllFit(names: Names, ks: seq<seq<int>>, n: nat)
    requires Listed(names, ks) && n <= |ks|
  {
    forall i :: 0 < i < n ==> FitsAt(names, ks, i)
  }

  /** Below one indexed ancestor the bases grow with the depth. */
  lemma {:induction false} BaseLength(names: Names, p: seq<int>, q: seq<int>)
    requires p != [] && p in names && p < q
    ensures |Base(names, q)| == |LongLabel(names, p)| + |q| - 1 - |p|
    ensures Anchor(names, q) >= |p|
    decreases |q|
  {
    var a := Anchor(names, q);
    assert q[..|p|] == p;
    if a > |p| {
      assert p < q[..a];
      BaseLength(names, p, q[..a]);
    }
  }

  /** A name standing where the other label has an arc. */
  lemma DifferWithin(x: Label, xs: Label, y: Label, ys: Label)
    requires |y| < |x| <= |y| + |ys|
    requires x[|x| - 1].Name? && forall i :: 0 <= i < |ys| ==> ys[i].Arc?
    ensures x + xs != y + ys
  {
    var at := |x| - 1;
    assert (x + xs)[at] == x[at] && (y + ys)[at] == ys[at - |y|];
  }

  lemma LabelLength(names: Names, p: seq<int>, q: seq<int>)
    requires p != [] && p in names && p < q && q in names
    ensures |LongLabel(names, q)| == |LongLabel(names, p)| + |q| - |p|
  {
    BaseLength(names, p, q);
  }

  /** An indexed prefix of a key is an indexed prefix of its left neighbour, or is it. */
  lemma PrefixOfNeighbour(names: Names, ks: seq<seq<int>>, n: nat, p: seq<int>)
    requires Listed(names, ks) && 0 < n < |ks| && p in names && p < ks[n]
    ensures p <= ks[n - 1]
  {
    var prev, key := ks[n - 1], ks[n];
    PrefixAtMost(p, key);
    var j :| 0 <= j < |ks| && ks[j] == p;
    assert j < n by {
      if j > n {
        LessAsymmetric(key, p);
      }
    }
    assert AtMost(p, prev) && AtMost(prev, key);
    BetweenExtends(p, prev, key);
  }

  lemma SameLengthStep(names: Names, ks: seq<seq<int>>, n: nat)
    requires Listed(names, ks) && 0 < n < |ks|
    requires |ks[n]| == |ks[n - 1]|
    ensures Base(names, ks[n]) == Base(names, ks[n - 1]) <==> Fits(names, ks[n - 1], ks[n])
  {
    var prev, key, m := ks[n - 1], ks[n], |ks[n]| - 1;
    var a, b := Anchor(names, key), Anchor(names, prev);
    if key[..m] == prev[..m] {
      assert forall k :: 0 <= k <= m ==> key[..k] == key[..m][..k] && prev[..k] == prev[..m][..k];
      assert a == b;
      assert key[a..m] == key[..m][a..] && prev[a..m] == prev[..m][a..];
    } else if a > 0 {
      var p := key[..a];
      PrefixOfNeighbour(names, ks, n, p);
      assert p < prev;
      BaseLength(names, p, prev);
      if b == a {
        var long, s, t := LongLabel(names, p), key[a..m], prev[a..m];
        assert prev[..a] == p;
        assert key[..m] == p + s && prev[..m] == p + t;
        ArcsInjective(s, t);
        assert (long + Arcs(s))[|long|..] == Arcs(s) && (long + Arcs(t))[|long|..] == Arcs(t);
      } else {
        NameAgainstArc(names, p, key, prev);
      }
    }
  }

  lemma ArcsInjective(s: seq<int>, t: seq<int>)
    ensures Arcs(s) == Arcs(t) ==> s == t
  {
    if Arcs(s) == Arcs(t) {
      forall i | 0 <= i < |s| ensures s[i] == t[i] {
        assert Arcs(s)[i] == Arcs(t)[i];
      }
    }
  }

  /** Where one key skips an arc that the other has indexed, the bases differ there. */
  lemma NameAgainstArc(names: Names, p: seq<int>, key: seq<int>, prev: seq<int>)
    requires p != [] && p in names && p < key && p < prev && |key| == |prev|
    requires Anchor(names, key) == |p| < Anchor(names, prev)
    ensures Base(names, key) != Base(names, prev)
  {
    hide LongLabel;
    var a, b := |p|, Anchor(names, prev);
    var r := prev[..b];
    assert p < r && key[..a] == p;
    LabelLength(names, p, r);
    DifferWithin(LongLabel(names, r), Arcs(prev[b..|prev| - 1]),
                 LongLabel(names, p), Arcs(key[a..|key| - 1]));
  }

  lemma OneLongerStep(names: Names, ks: seq<seq<int>>, n: nat)
    requires Listed(names, ks) && 0 < n < |ks|
    requires |ks[n]| == |ks[n - 1]| + 1
    ensures Base(names, ks[n]) == LongLabel(names, ks[n - 1]) <==> Fits(names, ks[n - 1], ks[n])
  {
    var prev, key, m := ks[n - 1], ks[n], |ks[n]| - 1;
    var a := Anchor(names, key);
    if a == m {
      PrefixOfNeighbour(names, ks, n, key[..a]);
      assert key[..a] == prev;
      assert Arcs(key[m..m]) == [];
    } else if a > 0 {
      var base := Base(names, key);
      assert base[|base| - 1] == Arcs(key[a..m])[m - a - 1];
    }
  }

  lemma MuchLongerStep(names: Names, ks: seq<seq<int>>, n: nat)
    requires Listed(names, ks) && 0 < n < |ks|
    requires |ks[n]| > |ks[n - 1]| + 1
    ensures Base(names, ks[n]) != Base(names, ks[n - 1]) + Arcs(ks[n][|ks[n - 1]|..|ks[n]| - 1])
  {
    var prev, key := ks[n - 1], ks[n];
    var a := Anchor(names, key);
    if a > 0 {
      var p := key[..a];
      PrefixOfNeighbour(names, ks, n, p);
      BaseLength(names, p, key);
      if p != prev {
        BaseLength(names, p, prev);
      }
    }
  }

  /** Among the first `n` keys every label is right; the rest still hold their names. */
  ghost predicate RightPass(names: Names, ks: seq<seq<int>>, n: nat, p: Pass)
    requires Listed(names, ks) && n <= |ks|
  {
    && p.labels.Keys == names.Keys
    && p.prev == (if n == 0 then [] else ks[n - 1])
    && (forall j :: 0 <= j < n ==> p.labels[ks[j]] == LongLabel(names, ks[j]))
    && (forall j :: n <= j < |ks| ==> p.labels[ks[j]] == [Name(names[ks[j]])])
    && (n > 0 ==> p.base == Base(names, ks[n - 1]))
  }

  ghost predicate RightUpTo(names: Names, ks: seq<seq<int>>, n: nat)
    requires Listed(names, ks) && n <= |ks|
  {
    RightPass(names, ks, n, After(names, ks, n))
  }

  /** One step from a right state finds the right base exactly when the pair fits. */
  lemma StepIsRight(names: Names, ks: seq<seq<int>>, n: nat, p: Pass)
    requires Listed(names, ks) && n < |ks| && RightPass(names, ks, n, p)
    ensures NewBase(p, ks[n]) == Base(names, ks[n]) <==>
            (n == 0 || Fits(names, ks[n - 1], ks[n]))
  {
    hide Less, LongLabel, Base, Ascending;
    var key := ks[n];
    if n == 0 {
      FirstKeyHasNoAnchor(names, ks);
    } else if |key| == |ks[n - 1]| {
      SameLengthStep(names, ks, n);
    } else if |key| == |ks[n - 1]| + 1 {
      OneLongerStep(names, ks, n);
    } else if |key| > |ks[n - 1]| {
      MuchLongerStep(names, ks, n);
    } else {
      ShorterStep(names, ks, n, p);
    }
  }

  lemma FirstKeyHasNoAnchor(names: Names, ks: seq<seq<int>>)
    requires Listed(names, ks) && 0 < |ks|
    ensures Base(names, ks[0]) == []
  {
    var a := Anchor(names, ks[0]);
    if a > 0 {
      var j := IndexedPrefixEarlier(names, ks, 0, ks[0][..a]);
    }
  }

  /** Going back up, the loop looks the longest indexed prefix up afresh. */
  lemma ShorterStep(names: Names, ks: seq<seq<int>>, n: nat, p: Pass)
    requires Listed(names, ks) && 0 < n < |ks| && RightPass(names, ks, n, p) && |ks[n]| < |ks[n - 1]|
    ensures NewBase(p, ks[n]) == Base(names, ks[n])
  {
    hide Less, LongLabel, Ascending, AnchorFrom;
    var key := ks[n];
    var a := Anchor(names, key);
    assert Anchor(p.labels, key) == a by {
      AnchorSameKeys(p.labels, names, key, |key| - 1);
    }
    if a > 0 {
      var j := IndexedPrefixEarlier(names, ks, n, key[..a]);
      assert p.labels[key[..a]] == LongLabel(names, key[..a]);
      assert a == |key| - 1 ==> Arcs(key[a..|key| - 1]) == [];
    }
  }

  lemma {:induction false} AnchorSameKeys<V, W>(x: map<seq<int>, V>, y: map<seq<int>, W>, key: seq<int>, i: nat)
    requires i <= |key| && x.Keys == y.Keys
    ensures AnchorFrom(x, key, i) == AnchorFrom(y, key, i)
  {
    assert key[..i] in x.Keys <==> key[..i] in y.Keys;
    if i > 0 {
      AnchorSameKeys(x, y, key, i - 1);
    }
  }

  lemma IndexedPrefixEarlier(names: Names, ks: seq<seq<int>>, n: nat, p: seq<int>) returns (j: nat)
    requires Listed(names, ks) && n < |ks| && p in names && p < ks[n]
    ensures j < n && ks[j] == p
  {
    PrefixAtMost(p, ks[n]);
    assert p in ks;
    j :| 0 <= j < |ks| && ks[j] == p;
    if j >= n {
      LessAsymmetric(p, ks[n]);
    }
  }

  lemma RightAtStart(names: Names, ks: seq<seq<int>>)
    requires Listed(names, ks)
    ensures RightUpTo(names, ks, 0)
  {
  }

  /** While the pairs fit, everything written so far is right. */
  lemma {:induction false} RightWhileFitting(names: Names, ks: seq<seq<int>>, n: nat)
    requires Listed(names, ks) && n <= |ks| && AllFit(names, ks, n)
    ensures RightUpTo(names, ks, n)
  {
    hide RightPass, Step, NewBase, Base, Fits;
    if n > 0 {
      RightWhileFitting(names, ks, n - 1);
      assert n > 1 ==> FitsAt(names, ks, n - 1);
      StepIsRight(names, ks, n - 1, After(names, ks, n - 1));
      RightStep(names, ks, n - 1, After(names, ks, n - 1));
    } else {
      RightAtStart(names, ks);
    }
  }

  lemma RightStep(names: Names, ks: seq<seq<int>>, n: nat, p: Pass)
    requires Listed(names, ks) && n < |ks| && RightPass(names, ks, n, p)
    requires NewBase(p, ks[n]) == Base(names, ks[n])
    ensures RightPass(names, ks, n + 1, Step(p, ks[n]))
  {
    hide Less, NewBase, Base, Ascending;
    var key, q := ks[n], Step(p, ks[n]);
    forall j | 0 <= j < |ks| && j != n ensures q.labels[ks[j]] == p.labels[ks[j]] {
      KeysDistinct(names, ks, j, n);
    }
    assert q.labels[key] == LongLabel(names, key);
  }

  lemma KeysDistinct(names: Names, ks: seq<seq<int>>, i: nat, j: nat)
    requires Listed(names, ks) && i < |ks| && j < |ks| && i != j
    ensures ks[i] != ks[j]
  {
    assert Less(ks[i], ks[j]) || Less(ks[j], ks[i]);
    NotBelowItself(ks[i]);
  }

  /** A label once written is not written again. */
  lemma {:induction false} LabelStays(names: Names, ks: seq<seq<int>>, n: nat, m: nat)
    requires Listed(names, ks) && n < m <= |ks|
    ensures After(names, ks, m).labels[ks[n]] == After(names, ks, n + 1).labels[ks[n]]
    decreases m
  {
    hide Step, NewBase, Less, Ascending;
    if m > n + 1 {
      LabelStays(names, ks, n, m - 1);
      KeysDistinct(names, ks, n, m - 1);
      StepKeepsOthers(After(names, ks, m - 1), ks[m - 1], ks[n]);
    }
  }

  lemma StepKeepsOthers(p: Pass, key: seq<int>, other: seq<int>)
    requires key != [] && key in p.labels && (p.prev == [] || p.prev in p.labels)
    requires other in p.labels && other != key
    ensures Step(p, key).labels[other] == p.labels[other]
  {
  }

  /** The one-pass labels are the recursive ones for every node, if and only if every
      two neighbours in OID order fit. */
  lemma PassIsRightExactly(names: Names, ks: seq<seq<int>>)
    requires Listed(names, ks)
    ensures (forall k :: k in names ==> After(names, ks, |ks|).labels[k] == LongLabel(names, k))
            <==> AllFit(names, ks, |ks|)
  {
    if AllFit(names, ks, |ks|) {
      RightWhileFitting(names, ks, |ks|);
      forall k | k in names ensures After(names, ks, |ks|).labels[k] == LongLabel(names, k) {
        assert k in ks;
      }
    } else {
      var n := FirstMisfit(names, ks, |ks|);
      RightWhileFitting(names, ks, n);
      StepIsRight(names, ks, n, After(names, ks, n));
      LabelStays(names, ks, n, |ks|);
      var p := After(names, ks, n);
      var got := After(names, ks, n + 1).labels[ks[n]];
      assert got == NewBase(p, ks[n]) + [Name(names[ks[n]])];
      assert NewBase(p, ks[n]) == got[..|got| - 1];
      assert Base(names, ks[n]) == LongLabel(names, ks[n])[..|LongLabel(names, ks[n])| - 1];
    }
  }

  lemma {:induction false} FirstMisfit(names: Names, ks: seq<seq<int>>, m: nat) returns (n: nat)
    requires Listed(names, ks) && m <= |ks| && !AllFit(names, ks, m)
    ensures 0 < n < m && AllFit(names, ks, n) && !FitsAt(names, ks, n)
  {
    if AllFit(names, ks, m - 1) {
      n := m - 1;
    } else {
      n := FirstMisfit(names, ks, m - 1);
    }
  }

  /** Prefix closure is enough. */
  lemma ClosedFits(names: Names, ks: seq<seq<int>>)
    requires Listed(names, ks) && PrefixClosed(names)
    ensures AllFit(names, ks, |ks|)
  {
    forall n | 0 < n < |ks| ensures FitsAt(names, ks, n) {
      var prev, key := ks[n - 1], ks[n];
      if |key| > 1 {
        var parent := key[..|key| - 1];
        PrefixOfNeighbour(names, ks, n, parent);
        if |key| == |prev| {
          assert parent == prev[..|prev| - 1];
        }
      } else if |key| == |prev| {
        assert key[..0] == prev[..0];
      }
    }
  }

  const ISO_AND_DOD: Names := map[[1] := "iso", [1, 3, 6] := "dod"]
  const ISO_THEN_DOD: seq<seq<int>> := [[1], [1, 3, 6]]

  lemma IsoAndDodListed()
    ensures Listed(ISO_AND_DOD, ISO_THEN_DOD)
  {
    var iso: seq<int>, dod: seq<int> := [1], [1, 3, 6];
    assert Less(iso, dod) by {
      PrefixAtMost(iso, dod);
      assert iso <= dod && iso != dod;
    }
    assert ISO_THEN_DOD[0] == iso && ISO_THEN_DOD[1] == dod;
  }

  lemma DodShouldBe()
    ensures LongLabel(ISO_AND_DOD, [1, 3, 6]) == [Name("iso"), Arc(3), Name("dod")]
  {
    var iso: seq<int>, dod: seq<int> := [1], [1, 3, 6];
    assert |iso| == 1 && |dod| == 3;
    assert dod[..2] == [1, 3] && [1, 3] !in ISO_AND_DOD && dod[..1] == iso;
    assert Anchor(ISO_AND_DOD, dod) == 1;
    assert Anchor(ISO_AND_DOD, iso) == 0;
    hide Anchor, AnchorFrom;
    assert LongLabel(ISO_AND_DOD, iso) == [Name("iso")];
    assert dod[1..2] == [3] && Arcs([3]) == [Arc(3)];
  }

  lemma DodComesOut()
    requires Listed(ISO_AND_DOD, ISO_THEN_DOD)
    ensures After(ISO_AND_DOD, ISO_THEN_DOD, 2).labels[[1, 3, 6]] == [Arc(3), Name("dod")]
  {
    hide Listed, Anchor, AnchorFrom, Ascending;
    var iso: seq<int>, dod: seq<int> := [1], [1, 3, 6];
    var start, first := After(ISO_AND_DOD, ISO_THEN_DOD, 0), After(ISO_AND_DOD, ISO_THEN_DOD, 1);
    assert first == Step(start, iso) && start == Start(ISO_AND_DOD);
    assert first.base == [] && first.prev == iso && first.labels[dod] == [Name("dod")] by {
      assert iso != dod;
    }
    assert dod[|dod| - 2..|dod| - 1] == [3] && Arcs([3]) == [Arc(3)];
    assert NewBase(first, dod) == [Arc(3)];
    hide NewBase;
    assert After(ISO_AND_DOD, ISO_THEN_DOD, 2) == Step(first, dod);
  }

  /** Skip a parent and the pass goes wrong: with `iso` at 1 and `dod` at 1.3.6, the
      name `iso` is lost from the label of `dod`. */
  lemma SkippedParentLosesName()
    ensures Listed(ISO_AND_DOD, ISO_THEN_DOD)
    ensures After(ISO_AND_DOD, ISO_THEN_DOD, 2).labels[[1, 3, 6]] == [Arc(3), Name("dod")]
    ensures LongLabel(ISO_AND_DOD, [1, 3, 6]) == [Name("iso"), Arc(3), Name("dod")]
  {
    IsoAndDodListed();
    DodComesOut();
    DodShouldBe();
    hide *;
  }

  // ------------------------------------------------ splitting an OID by label

  datatype Split = Split(oid: Label, long: Label, suffix: Label)

  /** `str(n)`, for a natural number. */
  function Decimal(n: nat): (s: string)
    ensures s != "" && '0' <= s[0] <= '9'
  {
    if n < 10 then ["0123456789"[n]] else Decimal(n / 10) + ["0123456789"[n % 10]]
  }

  function Text(i: Item): Item {
    match i
    case Arc(n) => if n >= 0 then Name(Decimal(n)) else Name("-" + Decimal(-n))
    case Name(_) => i
  }

  function Texts(items: Label): (r: Label)
    ensures |r| == |items| && forall i :: 0 <= i < |r| ==> r[i] == Text(items[i])
  {
    seq(|items|, i requires 0 <= i < |items| => Text(items[i]))
  }

  /** `__getOidLabel`: the OID, its label, and what is left over. */
  function GetOidLabel(node: Label, labels: map<Label, Label>, oids: map<Label, Label>): Split
    decreases |node|
  {
    if node == [] then Split(node, node, [])
    else if node in oids then Split(oids[node], node, [])
    else if node in labels then Split(node, labels[node], [])
    else if |node| < 2 then Split(node, node, [])
    else
      var last := |node| - 1;
      var s := GetOidLabel(node[..last], labels, oids);
      Extend(s, s.suffix + node[last..], labels, oids)
  }

  /** The shorter node's split, one element later. */
  function Extend(s: Split, suffix: Label, labels: map<Label, Label>, oids: map<Label, Label>): Split {
    var resLabel := s.long + Texts(suffix);
    var resOid := s.oid + suffix;
    if resLabel in oids then Split(oids[resLabel], resLabel, [])
    else if resOid in labels then Split(resOid, labels[resOid], [])
    else Split(s.oid, s.long, suffix)
  }

  /** SMI descriptors begin with a letter, ... */
  predicate Word(i: Item) {
    i.Name? && (i.text != "" ==> i.text[0] != '-' && !('0' <= i.text[0] <= '9'))
  }

  /** ... so no label ends in a number or in the text of one. */
  ghost predicate NamesAreWords(oids: map<Label, Label>) {
    forall l: Label :: l in oids ==> l != [] && Word(l[|l| - 1])
  }

  ghost predicate EndsInNames(names: Names, p: Pass) {
    && p.labels.Keys == names.Keys
    && (forall k :: k in names ==> EndsIn(p.labels[k], names[k]))
    && (forall l: Label :: l in p.oids ==> p.oids[l] in names && EndsIn(l, names[p.oids[l]]))
  }

  predicate EndsIn(l: Label, name: string) {
    l != [] && l[|l| - 1] == Name(name)
  }

  /** The label index the pass builds is such an index: every label in it ends in a
      node's own name and leads back to a node of that name. */
  lemma {:induction false} LabelsEndInNames(names: Names, ks: seq<seq<int>>, n: nat)
    requires Listed(names, ks) && n <= |ks|
    ensures EndsInNames(names, After(names, ks, n))
  {
    hide Step, EndsInNames, Ascending;
    if n > 0 {
      LabelsEndInNames(names, ks, n - 1);
      StepEndsInNames(names, After(names, ks, n - 1), ks[n - 1]);
    } else {
      StartEndsInNames(names);
    }
  }

  lemma StartEndsInNames(names: Names)
    ensures EndsInNames(names, Start(names))
  {
  }

  lemma StepEndsInNames(names: Names, p: Pass, key: seq<int>)
    requires key != [] && key in p.labels && (p.prev == [] || p.prev in p.labels)
    requires EndsInNames(names, p)
    ensures EndsInNames(names, Step(p, key))
  {
    hide NewBase;
    var q, base := Step(p, key), NewBase(p, key);
    assert key in names.Keys;
    assert (base + p.labels[key])[|base| + |p.labels[key]| - 1] == Name(names[key]);
    assert q.labels.Keys == names.Keys;
  }

  predicate AllArcs(l: Label) {
    forall i :: 0 <= i < |l| ==> l[i].Arc?
  }

  /** The longest non-empty indexed prefix, or zero. */
  function LongestIndexed(labels: map<Label, Label>, node: Label): (n: nat)
    ensures n <= |node|
    ensures n > 0 ==> node[..n] in labels
    ensures forall k :: n < k <= |node| ==> node[..k] !in labels
  {
    if node == [] || node in labels then
      assert node[..|node|] == node;
      |node|
    else
      var n := LongestIndexed(labels, node[..|node| - 1]);
      assert node[..|node| - 1][..n] == node[..n];
      assert forall k :: n < k < |node| ==> node[..|node| - 1][..k] == node[..k];
      assert node[..|node|] == node;
      n
  }

  lemma LongestOfShorter(labels: map<Label, Label>, node: Label)
    requires node != [] && node !in labels
    ensures LongestIndexed(labels, node) == LongestIndexed(labels, node[..|node| - 1])
  {
  }

  lemma SplitDirect(node: Label, labels: map<Label, Label>, oids: map<Label, Label>)
    requires node != [] && node !in oids && (node in labels || |node| == 1)
    ensures var s := GetOidLabel(node, labels, oids);
            var n := LongestIndexed(labels, node);
            && s == Split(node, if node in labels then labels[node] else node, [])
            && n == (if node in labels then |node| else 0)
  {
  }

  /** Nothing resolves at this length, so the split of the shorter OID stands. */
  lemma SplitOfShorter(node: Label, s: Split, labels: map<Label, Label>, oids: map<Label, Label>)
    requires |node| >= 2 && AllArcs(node) && NamesAreWords(oids) && node !in labels
    requires s == GetOidLabel(node[..|node| - 1], labels, oids)
    requires s.oid + s.suffix == node[..|node| - 1]
    ensures GetOidLabel(node, labels, oids) == Split(s.oid, s.long, s.suffix + node[|node| - 1..])
  {
    hide NamesAreWords, Extend;
    var suffix := s.suffix + node[|node| - 1..];
    NotALabel(node, oids);
    assert s.oid + suffix == node[..|node| - 1] + node[|node| - 1..] == node;
    assert suffix[|suffix| - 1] == node[|node| - 1];
    ExtendFails(s, suffix, labels, oids);
  }

  lemma ExtendFails(s: Split, suffix: Label, labels: map<Label, Label>, oids: map<Label, Label>)
    requires suffix != [] && suffix[|suffix| - 1].Arc? && NamesAreWords(oids)
    requires s.oid + suffix !in labels
    ensures Extend(s, suffix, labels, oids) == Split(s.oid, s.long, suffix)
  {
    hide NamesAreWords, Texts;
    EndsInText(s.long, suffix, oids);
  }

  /** An OID is split into its longest indexed prefix with that prefix's label and the
      arcs after it, or into its first arc unresolved. No arc is lost either way. */
  lemma {:induction false} SplitsAtLongestPrefix(node: Label, labels: map<Label, Label>, oids: map<Label, Label>)
    requires node != [] && AllArcs(node) && NamesAreWords(oids)
    ensures var s := GetOidLabel(node, labels, oids);
            var n := LongestIndexed(labels, node);
            && s.oid + s.suffix == node
            && (n > 0 ==> s == Split(node[..n], labels[node[..n]], node[n..]))
            && (n == 0 ==> s == Split(node[..1], node[..1], node[1..]))
    decreases |node|
  {
    hide NamesAreWords, GetOidLabel, LongestIndexed;
    NotALabel(node, oids);
    if node in labels || |node| == 1 {
      SplitDirect(node, labels, oids);
      assert node[..|node|] == node && node[|node|..] == [] && node + [] == node;
    } else {
      var last := |node| - 1;
      var shorter := node[..last];
      LongestOfShorter(labels, node);
      SplitsAtLongestPrefix(shorter, labels, oids);
      SplitOfShorter(node, GetOidLabel(shorter, labels, oids), labels, oids);
      Regroup(node, LongestIndexed(labels, shorter));
      Regroup(node, 1);
    }
  }

  lemma Regroup(node: Label, n: nat)
    requires node != [] && n < |node|
    ensures var shorter, tail := node[..|node| - 1], node[|node| - 1..];
            shorter + tail == node && shorter[..n] == node[..n] && shorter[n..] + tail == node[n..]
    ensures forall x: Label, y: Label :: x + y == node[..|node| - 1] ==> x + (y + node[|node| - 1..]) == node
  {
    var tail := node[|node| - 1..];
    forall x: Label, y: Label | x + y == node[..|node| - 1] ensures x + (y + tail) == node {
      assert x + (y + tail) == x + y + tail;
    }
  }

  lemma NotALabel(node: Label, oids: map<Label, Label>)
    requires node != [] && AllArcs(node) && NamesAreWords(oids)
    ensures node !in oids
  {
    assert node[|node| - 1].Arc?;
  }

  lemma EndsInText(long: Label, suffix: Label, oids: map<Label, Label>)
    requires suffix != [] && suffix[|suffix| - 1].Arc? && NamesAreWords(oids)
    ensures long + Texts(suffix) !in oids
  {
    var r := long + Texts(suffix);
    assert r[|r| - 1] == Text(suffix[|suffix| - 1]);
  }

  // ----------------------------------------------- the two together

  /** The indices as `__getOidLabel` looks things up in them: by tuples that may be OIDs or
      labels alike. */
  function ByTuple(labels: map<seq<int>, Label>): (r: map<Label, Label>)
    ensures forall k :: k in labels ==> Arcs(k) in r && r[Arcs(k)] == labels[k]
    ensures forall l: Label :: l in r ==> exists k :: k in labels && l == Arcs(k)
  {
    AllArcsInjective();
    map k | k in labels :: Arcs(k) := labels[k]
  }

  function ToTuple(oids: map<Label, seq<int>>): map<Label, Label> {
    map l | l in oids :: Arcs(oids[l])
  }

  lemma AllArcsInjective()
    ensures forall s, t :: Arcs(s) == Arcs(t) ==> s == t
  {
    forall s, t ensures Arcs(s) == Arcs(t) ==> s == t {
      ArcsInjective(s, t);
    }
  }

  ghost predicate AllWords(names: Names) {
    forall k :: k in names ==> Word(Name(names[k]))
  }

  lemma PassNamesAreWords(names: Names, ks: seq<seq<int>>)
    requires Listed(names, ks) && AllWords(names)
    ensures NamesAreWords(ToTuple(After(names, ks, |ks|).oids))
  {
    LabelsEndInNames(names, ks, |ks|);
    hide After, Word, Ascending;
    var oids := After(names, ks, |ks|).oids;
    forall l: Label | l in ToTuple(oids)
      ensures l != [] && Word(l[|l| - 1])
    {
      assert EndsIn(l, names[oids[l]]);
    }
  }

  /** With the indices the pass builds, and every name a word, an OID is split into its
      longest indexed prefix, that prefix's label and the arcs after it; where neighbours
      fit that label is the recursive one. An OID with no indexed prefix is left whole. */
  lemma ViewSplitsOid(names: Names, ks: seq<seq<int>>, oid: seq<int>) returns (n: nat)
    requires Listed(names, ks) && AllWords(names) && oid != []
    ensures n <= |oid| && (n > 0 ==> oid[..n] in names) && forall k :: n < k <= |oid| ==> oid[..k] !in names
    ensures var p := After(names, ks, |ks|);
            var s := GetOidLabel(Arcs(oid), ByTuple(p.labels), ToTuple(p.oids));
            && s.oid + s.suffix == Arcs(oid)
            && (n > 0 ==> s == Split(Arcs(oid[..n]), p.labels[oid[..n]], Arcs(oid[n..])))
            && (n > 0 && AllFit(names, ks, |ks|) ==> s.long == LongLabel(names, oid[..n]))
            && (n == 0 ==> s == Split(Arcs(oid[..1]), Arcs(oid[..1]), Arcs(oid[1..])))
  {
    var p := After(names, ks, |ks|);
    var labels, node := ByTuple(p.labels), Arcs(oid);
    PassNamesAreWords(names, ks);
    SplitsAtLongestPrefix(node, labels, ToTuple(p.oids));
    PassIsRightExactly(names, ks);
    n := LongestIndexed(labels, node);
    PrefixByTuple(p.labels, oid, n);
    PrefixByTuple(p.labels, oid, 1);
    NoneIndexedBeyond(p.labels, oid, n);
    hide *;
  }

  lemma NoneIndexedBeyond(labels: map<seq<int>, Label>, oid: seq<int>, n: nat)
    requires forall k :: n < k <= |oid| ==> Arcs(oid)[..k] !in ByTuple(labels)
    ensures forall k :: n < k <= |oid| ==> oid[..k] !in labels
  {
    hide Arcs, ByTuple;
    forall k | n < k <= |oid|
      ensures oid[..k] !in labels
    {
      PrefixByTuple(labels, oid, k);
    }
  }

  lemma PrefixByTuple(labels: map<seq<int>, Label>, oid: seq<int>, k: nat)
    requires k <= |oid|
    ensures Arcs(oid)[..k] == Arcs(oid[..k]) && Arcs(oid)[k..] == Arcs(oid[k..])
    ensures oid[..k] in labels <==> Arcs(oid)[..k] in ByTuple(labels)
    ensures oid[..k] in labels ==> ByTuple(labels)[Arcs(oid)[..k]] == labels[oid[..k]]
  {
    AllArcsInjective();
    assert Arcs(oid)[..k] == Arcs(oid[..k]);
  }

  // --------------------------------------------------- labels as names

  function Among(ks: seq<seq<int>>): set<seq<int>> {
    set k | k in ks
  }

  /** Of the OIDs done, each label in the label index is that of the OID it leads to, and each
      OID has its label there, leading to it or, where two have one label, to a later one. */
  ghost predicate Inverse(done: set<seq<int>>, p: Pass) {
    && (forall l :: l in p.oids ==> p.oids[l] in done)
    && (forall l :: l in p.oids && p.oids[l] in p.labels ==> p.labels[p.oids[l]] == l)
    && (forall k :: k in done ==> k in p.labels && p.labels[k] in p.oids && AtMost(k, p.oids[p.labels[k]]))
  }

  lemma StepInverse(done: set<seq<int>>, p: Pass, key: seq<int>)
    requires Inverse(done, p) && key != [] && key in p.labels && (p.prev == [] || p.prev in p.labels)
    requires forall k :: k in done ==> k != key && Less(k, key)
    ensures Inverse(done + {key}, Step(p, key))
  {
    hide NewBase, Less, AtMost;
    ItselfAtMost(key);
    forall k | k in done
      ensures AtMost(k, key)
    {
      LessIsAtMost(k, key);
    }
    PutInverse(done, p, key, NewBase(p, key) + p.labels[key]);
    var q := Step(p, key);
    assert Inverse(done + {key}, Pass(q.labels, q.oids, p.prev, p.base));
  }

  lemma PutInverse(done: set<seq<int>>, p: Pass, key: seq<int>, long: Label)
    requires Inverse(done, p) && key !in done && AtMost(key, key)
    requires forall k :: k in done ==> AtMost(k, key)
    ensures Inverse(done + {key}, p.(labels := p.labels[key := long], oids := p.oids[long := key]))
  {
    hide AtMost;
  }

  lemma ItselfAtMost(k: seq<int>)
    ensures AtMost(k, k)
  {
  }

  lemma LessIsAtMost(a: seq<int>, b: seq<int>)
    requires Less(a, b)
    ensures AtMost(a, b)
  {
  }

  lemma {:induction false} PassInverse(names: Names, ks: seq<seq<int>>, n: nat)
    requires n <= |ks| && Listed(names, ks)
    ensures Inverse(Among(ks[..n]), After(names, ks, n))
  {
    hide Inverse, Step, Ascending, Less;
    if n == 0 {
      NothingInverse(names);
      assert Among(ks[..0]) == {};
    } else {
      PassInverse(names, ks, n - 1);
      EarlierIsLess(names, ks, n - 1);
      StepInverse(Among(ks[..n - 1]), After(names, ks, n - 1), ks[n - 1]);
      assert ks[..n] == ks[..n - 1] + [ks[n - 1]];
      assert Among(ks[..n]) == Among(ks[..n - 1]) + {ks[n - 1]};
    }
  }

  lemma EarlierIsLess(names: Names, ks: seq<seq<int>>, n: nat)
    requires n < |ks| && Listed(names, ks)
    ensures forall k :: k in ks[..n] ==> k != ks[n] && Less(k, ks[n])
  {
    NotBelowItself(ks[n]);
  }

  lemma NothingInverse(names: Names)
    ensures Inverse({}, Start(names))
  {
  }

  /** Indices that undo each other: a label leads to an OID whose label it is. */
  ghost predicate LeadBack(labels: map<Label, Label>, oids: map<Label, Label>) {
    && NamesAreWords(oids) && (forall k :: k in labels ==> AllArcs(k))
    && (forall l: Label :: l in oids ==> AllArcs(oids[l]) && oids[l] != [] && oids[l] in labels && labels[oids[l]] == l)
  }

  lemma LeadsBackAt(l: Label, arcs: Label, labels: map<Label, Label>, oids: map<Label, Label>)
    requires LeadBack(labels, oids) && l in oids && AllArcs(arcs)
    ensures l != [] && oids[l] != [] && AllArcs(oids[l] + arcs)
    ensures oids[l] in labels && labels[oids[l]] == l && NamesAreWords(oids)
    ensures l + arcs !in labels && (arcs != [] ==> l + arcs !in oids)
  {
    var named := l + arcs;
    assert Word(l[|l| - 1]) && named[|l| - 1] == l[|l| - 1];
    assert arcs != [] ==> named[|named| - 1] == arcs[|arcs| - 1];
  }

  /** A label, and any arcs after it, is split as the OID it stands for with those arcs after
      it. */
  lemma {:induction false} LabelSplitsAsOid(l: Label, arcs: Label, labels: map<Label, Label>, oids: map<Label, Label>)
    requires LeadBack(labels, oids) && l in oids && AllArcs(arcs)
    ensures GetOidLabel(l + arcs, labels, oids) == GetOidLabel(oids[l] + arcs, labels, oids)
    decreases |arcs|
  {
    LeadsBackAt(l, arcs, labels, oids);
    hide LeadBack, NamesAreWords;
    NotALabel(oids[l] + arcs, oids);
    if arcs == [] {
      assert l + arcs == l && oids[l] + arcs == oids[l];
    } else {
      LabelSplitsAsOid(l, arcs[..|arcs| - 1], labels, oids);
      hide GetOidLabel;
      OneArcOn(l, oids[l], arcs, labels, oids);
    }
  }

  lemma OneArcOn(l: Label, oid: Label, arcs: Label, labels: map<Label, Label>, oids: map<Label, Label>)
    requires l != [] && oid != [] && arcs != [] && AllArcs(oid + arcs) && NamesAreWords(oids)
    requires l + arcs !in oids && l + arcs !in labels
    requires GetOidLabel(l + arcs[..|arcs| - 1], labels, oids) == GetOidLabel(oid + arcs[..|arcs| - 1], labels, oids)
    ensures GetOidLabel(l + arcs, labels, oids) == GetOidLabel(oid + arcs, labels, oids)
  {
    hide GetOidLabel, NamesAreWords, Extend;
    var named, node := l + arcs, oid + arcs;
    var short, last := oid + arcs[..|arcs| - 1], arcs[|arcs| - 1..];
    assert named[..|named| - 1] == l + arcs[..|arcs| - 1] && named[|named| - 1..] == last;
    assert node[..|node| - 1] == short && node[|node| - 1..] == last && node == short + last;
    assert AllArcs(short) && last[0] == node[|node| - 1];
    NotALabel(node, oids);
    OneLonger(named, labels, oids);
    OneLonger(node, labels, oids);
    var s := GetOidLabel(short, labels, oids);
    SplitsAtLongestPrefix(short, labels, oids);
    assert s.oid + (s.suffix + last) == short + last;
    if node in labels {
      ExtendFinds(s, s.suffix + last, labels, oids);
    }
  }

  lemma ExtendFinds(s: Split, suffix: Label, labels: map<Label, Label>, oids: map<Label, Label>)
    requires suffix != [] && suffix[|suffix| - 1].Arc? && NamesAreWords(oids)
    requires s.oid + suffix in labels
    ensures Extend(s, suffix, labels, oids) == Split(s.oid + suffix, labels[s.oid + suffix], [])
  {
    hide NamesAreWords, Texts;
    EndsInText(s.long, suffix, oids);
  }

  /** Where a node is no label itself, it goes by the split of the node one shorter. */
  lemma OneLonger(node: Label, labels: map<Label, Label>, oids: map<Label, Label>)
    requires |node| >= 2 && node !in oids
    ensures var s := GetOidLabel(node[..|node| - 1], labels, oids);
            GetOidLabel(node, labels, oids) ==
            if node in labels then Split(node, labels[node], [])
            else Extend(s, s.suffix + node[|node| - 1..], labels, oids)
  {
    hide Extend;
  }

  /** The indices the pass builds undo each other where every name is a word. */
  lemma PassLeadsBack(names: Names, ks: seq<seq<int>>)
    requires Listed(names, ks) && AllWords(names)
    ensures var p := After(names, ks, |ks|); LeadBack(ByTuple(p.labels), ToTuple(p.oids))
  {
    PassNamesAreWords(names, ks);
    WholeInverse(names, ks);
    ListedNotEmpty(names, ks);
    hide *;
    InverseLeadsBack(Among(ks), After(names, ks, |ks|));
  }

  lemma ListedNotEmpty(names: Names, ks: seq<seq<int>>)
    requires Listed(names, ks)
    ensures forall k :: k in Among(ks) ==> k != [] && k in names
  {
    hide Ascending;
  }

  lemma InverseLeadsBack(done: set<seq<int>>, p: Pass)
    requires Inverse(done, p) && NamesAreWords(ToTuple(p.oids))
    requires forall k :: k in done ==> k != [] && k in p.labels
    ensures LeadBack(ByTuple(p.labels), ToTuple(p.oids))
  {
    hide NamesAreWords, AtMost;
    var labels, oids := ByTuple(p.labels), ToTuple(p.oids);
    forall l: Label | l in oids
      ensures AllArcs(oids[l]) && oids[l] != [] && oids[l] in labels && labels[oids[l]] == l
    {
      assert oids[l] == Arcs(p.oids[l]) && p.oids[l] in p.labels;
    }
  }

  /** So in the view a node's label, alone or with arcs after it, names what its OID names. */
  lemma ViewSplitsLabel(names: Names, ks: seq<seq<int>>, key: seq<int>, rest: seq<int>)
    requires Listed(names, ks) && AllWords(names) && key in names
    ensures var p := After(names, ks, |ks|);
            var long := p.labels[key];
            && long in p.oids && p.oids[long] in names && AtMost(key, p.oids[long])
            && GetOidLabel(long + Arcs(rest), ByTuple(p.labels), ToTuple(p.oids))
               == GetOidLabel(Arcs(p.oids[long] + rest), ByTuple(p.labels), ToTuple(p.oids))
  {
    hide *;
    WholeInverse(names, ks);
    PassLeadsBack(names, ks);
    SplitsLabel(Among(ks), After(names, ks, |ks|), key, rest);
  }

  lemma WholeInverse(names: Names, ks: seq<seq<int>>)
    requires Listed(names, ks)
    ensures Inverse(Among(ks), After(names, ks, |ks|))
    ensures forall k :: k in Among(ks) <==> k in names
  {
    hide Inverse, Ascending, After;
    PassInverse(names, ks, |ks|);
    assert ks[..|ks|] == ks;
  }

  lemma SplitsLabel(done: set<seq<int>>, p: Pass, key: seq<int>, rest: seq<int>)
    requires Inverse(done, p) && LeadBack(ByTuple(p.labels), ToTuple(p.oids)) && key in done
    ensures key in p.labels
    ensures var long := p.labels[key];
            && long in p.oids && p.oids[long] in done && AtMost(key, p.oids[long])
            && GetOidLabel(long + Arcs(rest), ByTuple(p.labels), ToTuple(p.oids))
               == GetOidLabel(Arcs(p.oids[long] + rest), ByTuple(p.labels), ToTuple(p.oids))
  {
    hide LeadBack, ByTuple, GetOidLabel, AtMost;
    var long := p.labels[key];
    var oids := ToTuple(p.oids);
    assert long in oids && oids[long] == Arcs(p.oids[long]);
    LabelSplitsAsOid(long, Arcs(rest), ByTuple(p.labels), oids);
    assert Arcs(p.oids[long]) + Arcs(rest) == Arcs(p.oids[long] + rest);
  }
}
