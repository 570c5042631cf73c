/** Notification filtering in `ntforg`: the prepared filter against the rule of section 6
    of RFC 3413. */
module Filter {
  import opened Wrappers
  import opened Lex

  /** A row of the filter table; `mask` is its octets, `included` its filter type. */
  datatype Entry = Entry(subtree: seq<int>, mask: seq<nat>, included: bool)

  // ------------------------------------------------------- the RFC's rule

  const POWER_OF_TWO: seq<nat> := [128, 64, 32, 16, 8, 4, 2, 1]

  /** Bit `j` of an octet, the most significant first. */
  predicate Bit(octet: nat, j: nat)
    requires j < 8
  {
    (octet / POWER_OF_TWO[j]) % 2 == 1
  }

  /** Bit `k` of a mask, which a short one is extended with ones to supply. */
  predicate MaskBit(mask: seq<nat>, k: nat) {
    k / 8 < |mask| ==> Bit(mask[k / 8], k % 8)
  }

  /** The family contains the OID: it is long enough and agrees wherever the mask is one. */
  predicate Contains(e: Entry, oid: seq<int>) {
    |e.subtree| <= |oid| && forall k :: 0 <= k < |e.subtree| && MaskBit(e.mask, k) ==> oid[k] == e.subtree[k]
  }

  /** Longer subtrees take precedence, then lexicographically larger ones. */
  function Precedence(subtree: seq<int>): seq<int> {
    [|subtree|] + subtree
  }

  /** Entry `i` decides: it contains the OID, and every other entry that does has less
      precedence, or is the same subtree listed earlier. */
  ghost predicate Decides(entries: seq<Entry>, oid: seq<int>, i: nat) {
    && i < |entries| && Contains(entries[i], oid)
    && forall j :: 0 <= j < |entries| && Contains(entries[j], oid) ==>
         var a, b := Precedence(entries[j].subtree), Precedence(entries[i].subtree);
         Less(a, b) || (a == b && j <= i)
  }

  ghost predicate RfcMatch(entries: seq<Entry>, oid: seq<int>, r: Option<bool>) {
    match r
    case None => forall j :: 0 <= j < |entries| ==> !Contains(entries[j], oid)
    case Some(included) => exists i: nat :: Decides(entries, oid, i) && included == entries[i].included
  }

  lemma RfcMatchUnique(entries: seq<Entry>, oid: seq<int>, r: Option<bool>, s: Option<bool>)
    requires RfcMatch(entries, oid, r) && RfcMatch(entries, oid, s)
    ensures r == s
  {
    if r.Some? && s.Some? {
      var i: nat :| Decides(entries, oid, i) && r.value == entries[i].included;
      var j: nat :| Decides(entries, oid, j) && s.value == entries[j].included;
      NotBoth(Precedence(entries[i].subtree), Precedence(entries[j].subtree));
    }
  }

  // ----------------------------------------------------- the prepared filter

  datatype Prepared = Prepared(original: seq<int>, normalized: seq<int>, ignored: seq<nat>, included: bool)

  /** The masked-out positions among the first `n` bits, in order. */
  function IgnoredBits(mask: seq<nat>, length: nat, n: nat): (r: seq<nat>)
    requires n <= 8 * |mask|
    ensures forall k: nat :: k in r <==> k < n && k < length && !MaskBit(mask, k)
  {
    if n == 0 then []
    else if (n - 1) < length && !MaskBit(mask, n - 1) then IgnoredBits(mask, length, n - 1) + [n - 1]
    else IgnoredBits(mask, length, n - 1)
  }

  function Ignored(e: Entry): seq<nat> {
    IgnoredBits(e.mask, if 8 * |e.mask| < |e.subtree| then 8 * |e.mask| else |e.subtree|, 8 * |e.mask|)
  }

  /** `oid` with the listed positions set to zero. */
  function Zeroed(oid: seq<int>, at: seq<nat>): (r: seq<int>)
    requires forall k :: k in at ==> k < |oid|
    ensures |r| == |oid|
    ensures forall k :: 0 <= k < |oid| ==> r[k] == if k in at then 0 else oid[k]
  {
    if at == [] then oid
    else
      assert at[0] in at && forall k :: k in at <==> k == at[0] || k in at[1..];
      Zeroed(oid, at[1..])[at[0] := 0]
  }

  function Prepare(e: Entry): Prepared {
    Prepared(e.subtree, Zeroed(e.subtree, Ignored(e)), Ignored(e), e.included)
  }

  function PrepareEach(entries: seq<Entry>): (r: seq<Prepared>)
    ensures |r| == |entries| && forall i :: 0 <= i < |r| ==> r[i] == Prepare(entries[i])
  {
    if entries == [] then [] else PrepareEach(entries[..|entries| - 1]) + [Prepare(entries[|entries| - 1])]
  }

  function ByPrecedence(): (Prepared, Prepared) -> bool {
    (a: Prepared, b: Prepared) => Less(Precedence(a.original), Precedence(b.original))
  }

  function PreparedFilter(entries: seq<Entry>): seq<Prepared> {
    StableSort(PrepareEach(entries), ByPrecedence())
  }

  /** One prepared entry against one OID. */
  predicate PreparedContains(p: Prepared, oid: seq<int>)
    requires forall k :: k in p.ignored ==> k < |p.original|
  {
    |p.original| <= |oid| && p.normalized <= Zeroed(oid, p.ignored)
  }

  /** Zeroing the masked arcs of both sides and comparing is comparing the others. */
  lemma PreparedAgrees(e: Entry, oid: seq<int>)
    ensures PreparedContains(Prepare(e), oid) <==> Contains(e, oid)
  {
    if |e.subtree| <= |oid| {
      var at := Ignored(e);
      var n, z := Zeroed(e.subtree, at), Zeroed(oid, at);
      assert n <= z <==> forall k :: 0 <= k < |n| ==> n[k] == z[k];
      forall k | 0 <= k < |e.subtree| ensures n[k] == z[k] <==> (MaskBit(e.mask, k) ==> oid[k] == e.subtree[k]) {
        assert k in at <==> !MaskBit(e.mask, k);
      }
    }
  }

  /** Every entry is a prepared row. */
  ghost predicate AllPrepared(ps: seq<Prepared>) {
    forall p :: p in ps ==> forall k :: k in p.ignored ==> k < |p.original|
  }

  lemma PreparedInBounds(entries: seq<Entry>)
    ensures AllPrepared(PrepareEach(entries)) && AllPrepared(PreparedFilter(entries))
  {
    var each, sorted := PrepareEach(entries), PreparedFilter(entries);
    forall p | p in sorted ensures p in each {
      InMultiset(sorted, each, p);
    }
  }

  method PrepareFilterEntries(filterEntries: seq<Entry>) returns (prepared: seq<Prepared>)
    ensures prepared == PreparedFilter(filterEntries)
  {
    prepared := [];
    for i := 0 to |filterEntries|
      invariant prepared == PrepareEach(filterEntries[..i])
    {
      var e := filterEntries[i];
      assert filterEntries[..i + 1][..i] == filterEntries[..i];
      var bits := 8 * |e.mask|;
      var maskLength := if bits < |e.subtree| then bits else |e.subtree|;
      var ignoredSubOids := IgnoredBits(e.mask, maskLength, bits);
      var normalized := e.subtree;
      if ignoredSubOids != [] {
        normalized := Zeroed(e.subtree, ignoredSubOids);
      }
      prepared := prepared + [Prepared(e.subtree, normalized, ignoredSubOids, e.included)];
    }
    assert filterEntries[..|filterEntries|] == filterEntries;
    prepared := StableSort(prepared, ByPrecedence());
  }

  /** The last match in the list, if there is one. */
  ghost predicate LastMatch(ps: seq<Prepared>, oid: seq<int>, r: Option<bool>)
    requires AllPrepared(ps)
  {
    match r
    case None => forall p :: p in ps ==> !PreparedContains(p, oid)
    case Some(included) =>
      exists q :: 0 <= q < |ps| && PreparedContains(ps[q], oid) && ps[q].included == included
                  && forall k :: q < k < |ps| ==> !PreparedContains(ps[k], oid)
  }

  method MatchPreparedFilter(ps: seq<Prepared>, oid: seq<int>) returns (result: Option<bool>)
    requires AllPrepared(ps)
    ensures LastMatch(ps, oid, result)
  {
    NothingMatchedYet(oid);
    assert ps[..0] == [];
    hide LastMatch, AllPrepared;
    result := None;
    for i := 0 to |ps|
      invariant LastMatch(ps[..i], oid, result)
    {
      var p := ps[i];
      assert p in ps;
      MatchOneMore(ps, i, oid, result);
      if |oid| < |p.original| {
        continue;
      }
      var normalizedOid := oid;
      if p.ignored != [] {
        normalizedOid := Zeroed(oid, p.ignored);
      }
      if p.normalized <= normalizedOid {
        result := Some(p.included);
      }
    }
    assert ps[..|ps|] == ps;
  }

  lemma NothingMatchedYet(oid: seq<int>)
    ensures LastMatch([], oid, None)
  {
  }

  lemma MatchOneMore(ps: seq<Prepared>, i: nat, oid: seq<int>, r: Option<bool>)
    requires AllPrepared(ps) && i < |ps| && LastMatch(ps[..i], oid, r)
    ensures LastMatch(ps[..i + 1], oid, if PreparedContains(ps[i], oid) then Some(ps[i].included) else r)
  {
    var more := ps[..i + 1];
    assert more[i] == ps[i] && more == ps[..i] + [ps[i]];
    if !PreparedContains(ps[i], oid) && r.Some? {
      var q :| 0 <= q < i && PreparedContains(ps[..i][q], oid) && ps[..i][q].included == r.value
               && forall k :: q < k < i ==> !PreparedContains(ps[..i][k], oid);
      assert more[q] == ps[..i][q];
      assert forall k :: q < k < i ==> more[k] == ps[..i][k];
    }
  }

  lemma PrecedenceIsWeakOrder()
    ensures WeakOrder(ByPrecedence())
  {
    forall a: Prepared, b: Prepared, c: Prepared
      ensures !ByPrecedence()(a, a)
      ensures ByPrecedence()(a, b) ==> !ByPrecedence()(b, a)
      ensures !ByPrecedence()(b, a) && !ByPrecedence()(c, b) ==> !ByPrecedence()(c, a)
    {
      var x, y, z := Precedence(a.original), Precedence(b.original), Precedence(c.original);
      NotBoth(x, y);
      LessTotal(x, y);
      LessTotal(y, z);
      if Less(z, x) && Less(x, y) {
        LessTransitive(z, x, y);
      }
    }
  }

  /** The last element a predicate selects is the last index it holds at. */
  lemma {:induction false} LastSelected<T>(s: seq<T>, p: T -> bool, i: nat)
    requires i < |s| && p(s[i]) && forall j :: i < j < |s| ==> !p(s[j])
    ensures Select(s, p) != [] && Select(s, p)[|Select(s, p)| - 1] == s[i]
  {
    if i > 0 {
      LastSelected(s[1..], p, i - 1);
    } else {
      NoneSelected(s[1..], p);
    }
  }

  lemma {:induction false} LastIndex<T>(s: seq<T>, p: T -> bool, x: T) returns (i: nat)
    requires x in s && p(x)
    ensures i < |s| && p(s[i]) && forall j :: i < j < |s| ==> !p(s[j])
  {
    var last := |s| - 1;
    if p(s[last]) {
      i := last;
    } else {
      i := LastIndex(s[..last], p, x);
    }
  }

  /** Preparing, sorting and letting the last match win is the RFC's rule: the matching
      family with the longest, then lexicographically largest subtree decides, and there
      is no match exactly when none contains the OID. */
  lemma PreparedFilterIsRfc(entries: seq<Entry>, oid: seq<int>, r: Option<bool>)
    requires AllPrepared(PreparedFilter(entries)) && LastMatch(PreparedFilter(entries), oid, r)
    ensures RfcMatch(entries, oid, r)
  {
    hide Less, StableSort, Contains, PreparedContains;
    var each, ps := PrepareEach(entries), PreparedFilter(entries);
    PreparedInBounds(entries);
    forall j | 0 <= j < |entries| ensures PreparedContains(each[j], oid) <==> Contains(entries[j], oid) {
      PreparedAgrees(entries[j], oid);
    }
    forall p ensures p in each <==> p in ps {
      assert p in multiset(each) <==> p in multiset(ps);
    }
    if r.None? {
      forall j | 0 <= j < |entries| ensures !Contains(entries[j], oid) {
        assert each[j] in ps;
      }
    } else {
      var q :| 0 <= q < |ps| && PreparedContains(ps[q], oid) && ps[q].included == r.value
               && forall k :: q < k < |ps| ==> !PreparedContains(ps[k], oid);
      var i := WinnerIndex(entries, oid, q);
      assert Decides(entries, oid, i) && r.value == entries[i].included;
    }
  }

  /** Where the sorted list's last match came from. */
  lemma WinnerIndex(entries: seq<Entry>, oid: seq<int>, q: nat) returns (i: nat)
    requires AllPrepared(PreparedFilter(entries)) && AllPrepared(PrepareEach(entries))
    requires var ps := PreparedFilter(entries);
             q < |ps| && PreparedContains(ps[q], oid) && forall k :: q < k < |ps| ==> !PreparedContains(ps[k], oid)
    ensures Decides(entries, oid, i) && PreparedFilter(entries)[q].included == entries[i].included
  {
    hide Less, StableSort, Contains, PreparedContains, PrepareEach;
    var each, ps := PrepareEach(entries), PreparedFilter(entries);
    var best := ps[q];
    var tied := (p: Prepared) => p in each && PreparedContains(p, oid) && p.original == best.original;
    PrecedenceIsWeakOrder();
    StableSortSorts(each, ByPrecedence());
    assert best in each by {
      InMultiset(ps, each, best);
    }
    forall a: Prepared, b: Prepared | tied(a) && tied(b) ensures !ByPrecedence()(a, b) {
      NotBoth(Precedence(best.original), Precedence(best.original));
    }
    StableSortKeepsClass(each, ByPrecedence(), tied);
    LastSelected(ps, tied, q);
    i := LastIndex(each, tied, best);
    LastSelected(each, tied, i);
    assert each[i] == best;
    PreparedAgrees(entries[i], oid);
    forall j | 0 <= j < |entries| && Contains(entries[j], oid)
      ensures var a, b := Precedence(entries[j].subtree), Precedence(entries[i].subtree);
              Less(a, b) || (a == b && j <= i)
    {
      PreparedAgrees(entries[j], oid);
      assert each[j] in ps by {
        InMultiset(each, ps, each[j]);
      }
      var k :| 0 <= k < |ps| && ps[k] == each[j];
      var a, b := Precedence(entries[j].subtree), Precedence(entries[i].subtree);
      assert k <= q;
      assert !Less(b, a) by {
        NotBoth(a, a);
        assert k < q ==> !ByPrecedence()(ps[q], ps[k]);
      }
      LessTotal(a, b);
      if a == b {
        assert entries[j].subtree == a[1..] == b[1..] == best.original;
        assert tied(each[j]);
      }
    }
  }

  /** `_matchFilter`. */
  method MatchFilter(filterEntries: seq<Entry>, oid: seq<int>) returns (result: Option<bool>)
    ensures RfcMatch(filterEntries, oid, result)
  {
    var prepared := PrepareFilterEntries(filterEntries);
    PreparedInBounds(filterEntries);
    result := MatchPreparedFilter(prepared, oid);
    PreparedFilterIsRfc(filterEntries, oid, result);
  }

  /** The filtering step of `sendVarBinds` for one target: the notification's name must
      be specifically included and no object specifically excluded; no filter lets
      everything through. */
  method Passes(filterEntries: seq<Entry>, notification: seq<int>, objects: seq<seq<int>>) returns (passes: bool)
    ensures passes <==> filterEntries == []
                        || (RfcMatch(filterEntries, notification, Some(true))
                            && forall i :: 0 <= i < |objects| ==> !RfcMatch(filterEntries, objects[i], Some(false)))
  {
    hide LastMatch, RfcMatch, StableSort, Less, Zeroed, AllPrepared, PreparedFilter;
    if filterEntries == [] {
      return true;
    }
    var prepared := PrepareFilterEntries(filterEntries);
    PreparedInBounds(filterEntries);
    var named := MatchPreparedFilter(prepared, notification);
    Verdict(filterEntries, notification, named);
    if named != Some(true) {
      return false;
    }
    for i := 0 to |objects|
      invariant forall k :: 0 <= k < i ==> !RfcMatch(filterEntries, objects[k], Some(false))
    {
      var match_ := MatchPreparedFilter(prepared, objects[i]);
      Verdict(filterEntries, objects[i], match_);
      if match_ == Some(false) {
        return false;
      }
    }
    return true;
  }

  lemma Verdict(entries: seq<Entry>, oid: seq<int>, r: Option<bool>)
    requires AllPrepared(PreparedFilter(entries)) && LastMatch(PreparedFilter(entries), oid, r)
    ensures forall b :: RfcMatch(entries, oid, Some(b)) <==> r == Some(b)
  {
    hide LastMatch, RfcMatch, PreparedFilter;
    PreparedFilterIsRfc(entries, oid, r);
    forall b | RfcMatch(entries, oid, Some(b)) ensures r == Some(b) {
      RfcMatchUnique(entries, oid, r, Some(b));
    }
  }
}
