/** Several read-only corpora searched as one: module ownership, the ownership-filtered
    walk and subtrees. A corpus is its rows; a query is its SQL meaning. */
module Corpus {
  import opened Wrappers
  import opened Lex
  import OidKey
  import opened Revision

  /** A `node` row. `isObject` says its class is one of `OBJECT_CLASSES`. */
  datatype Row = Row(mod: string, arcs: seq<int>, isObject: bool, obsolete: bool)

  datatype Record = Record(tier: Option<string>, revision: Option<string>)

  /** The `node`, `oid_index` and `module` tables. */
  datatype Corpus = Corpus(nodes: seq<Row>, index: map<seq<OidKey.byte>, string>, modules: map<string, Record>) {
    ghost predicate Valid() {
      forall r :: r in nodes ==> r.arcs != [] && OidKey.Arcs(r.arcs)
    }
  }

  ghost predicate ValidAll(cs: seq<Corpus>) {
    forall i :: 0 <= i < |cs| ==> cs[i].Valid()
  }

  const TIERS: seq<string> := ["standard", "draft", "vendor"]

  // -------------------------------------------------------------- ownership

  /** The corpora among the first `n` that carry a module, each with its revision. */
  function Carriers(cs: seq<Corpus>, mod: string, n: nat): (r: seq<Copy<nat>>)
    requires n <= |cs|
    ensures forall k :: 0 <= k < |r| ==> r[k].payload < n && mod in cs[r[k].payload].modules
  {
    if n == 0 then []
    else if mod in cs[n - 1].modules then
      Carriers(cs, mod, n - 1) + [Copy(n - 1, cs[n - 1].modules[mod].revision)]
    else Carriers(cs, mod, n - 1)
  }

  /** `owner`: among the corpora carrying a module, the choice made between its copies. */
  function OwnerOf(cs: seq<Corpus>, mod: string): (o: Option<nat>)
    ensures o.Some? ==> o.value < |cs|
  {
    BestByRevision(Carriers(cs, mod, |cs|))
  }

  predicate Carries(cs: seq<Corpus>, i: nat, mod: string) {
    i < |cs| && mod in cs[i].modules
  }

  function CopyIn(cs: seq<Corpus>, i: nat, mod: string): Copy<nat>
    requires Carries(cs, i, mod)
  {
    Copy(i, cs[i].modules[mod].revision)
  }

  /** Every corpus carrying the module dates it, and two of them differently. */
  ghost predicate DatesDiffer(cs: seq<Corpus>, mod: string) {
    && (forall i: nat :: Carries(cs, i, mod) ==> Dated(CopyIn(cs, i, mod)))
    && exists i: nat, j: nat :: Carries(cs, i, mod) && Carries(cs, j, mod)
                                && CopyIn(cs, i, mod).revision != CopyIn(cs, j, mod).revision
  }

  lemma {:induction false} CarriersAre(cs: seq<Corpus>, mod: string, n: nat)
    requires n <= |cs|
    ensures var r := Carriers(cs, mod, n);
            && (forall k :: 0 <= k < |r| ==> Carries(cs, r[k].payload, mod) && r[k] == CopyIn(cs, r[k].payload, mod))
            && (forall k, l :: 0 <= k < l < |r| ==> r[k].payload < r[l].payload)
            && (forall i: nat :: i < n && Carries(cs, i, mod) ==> CopyIn(cs, i, mod) in r)
  {
    if n > 0 {
      CarriersAre(cs, mod, n - 1);
    }
  }

  /** Where a corpus carrying the module stands among the carriers. */
  lemma CarrierIndex(cs: seq<Corpus>, mod: string, i: nat) returns (k: nat)
    requires Carries(cs, i, mod)
    ensures var r := Carriers(cs, mod, |cs|); k < |r| && r[k] == CopyIn(cs, i, mod)
  {
    CarriersAre(cs, mod, |cs|);
    k :| k < |Carriers(cs, mod, |cs|)| && Carriers(cs, mod, |cs|)[k] == CopyIn(cs, i, mod);
  }

  lemma CarrierAt(cs: seq<Corpus>, mod: string, k: nat)
    requires k < |Carriers(cs, mod, |cs|)|
    ensures var c := Carriers(cs, mod, |cs|)[k]; Carries(cs, c.payload, mod) && c == CopyIn(cs, c.payload, mod)
  {
    CarriersAre(cs, mod, |cs|);
  }

  lemma DatesDecide(cs: seq<Corpus>, mod: string)
    ensures RevisionsDecide(Carriers(cs, mod, |cs|)) <==> DatesDiffer(cs, mod)
  {
    hide Carriers, Carries, CopyIn, Dated;
    var r := Carriers(cs, mod, |cs|);
    if RevisionsDecide(r) {
      forall i: nat | Carries(cs, i, mod)
        ensures Dated(CopyIn(cs, i, mod))
      {
        var q := CarrierIndex(cs, mod, i);
      }
      var k, l :| 0 <= k < l < |r| && r[k].revision != r[l].revision;
      CarrierAt(cs, mod, k);
      CarrierAt(cs, mod, l);
    }
    if DatesDiffer(cs, mod) {
      forall k: nat | k < |r|
        ensures Dated(r[k])
      {
        CarrierAt(cs, mod, k);
      }
      var i: nat, j: nat :| Carries(cs, i, mod) && Carries(cs, j, mod)
                            && CopyIn(cs, i, mod).revision != CopyIn(cs, j, mod).revision;
      var k := CarrierIndex(cs, mod, i);
      var l := CarrierIndex(cs, mod, j);
      assert k < l || l < k;
    }
  }

  /** What the owner means: nobody's module has none; otherwise it is carried there, by the
      first corpus that has it unless dates decide, and then nothing carried anywhere is
      newer and everything carried earlier is older. */
  lemma OwnerMeans(cs: seq<Corpus>, mod: string)
    ensures var o := OwnerOf(cs, mod);
            && (o == None <==> forall i: nat :: !Carries(cs, i, mod))
            && (o.Some? ==>
                  Carries(cs, o.value, mod) && forall i: nat :: Carries(cs, i, mod) ==> Yields(cs, mod, o.value, i))
  {
    var r := Carriers(cs, mod, |cs|);
    if r == [] {
      forall i: nat
        ensures !Carries(cs, i, mod)
      {
        if Carries(cs, i, mod) {
          var k := CarrierIndex(cs, mod, i);
        }
      }
    } else {
      var best := BestIsNewestThenFirst(r);
      DatesDecide(cs, mod);
      CarrierAt(cs, mod, best);
      hide Carriers, Carries, CopyIn, DatesDiffer, RevisionsDecide, BestByRevision;
      forall i: nat | Carries(cs, i, mod)
        ensures Yields(cs, mod, r[best].payload, i)
      {
        hide Newer;
        var k := CarrierIndex(cs, mod, i);
        CarriersInOrder(cs, mod, best, k);
        CopySays(cs, i, mod);
      }
    }
  }

  /** Why corpus `i` is passed over for the owner. */
  ghost predicate Yields(cs: seq<Corpus>, mod: string, owner: nat, i: nat)
    requires Carries(cs, owner, mod) && Carries(cs, i, mod)
  {
    if DatesDiffer(cs, mod) then
      !Newer(CopyIn(cs, i, mod), CopyIn(cs, owner, mod))
      && (i < owner ==> Newer(CopyIn(cs, owner, mod), CopyIn(cs, i, mod)))
    else owner <= i
  }

  lemma CopySays(cs: seq<Corpus>, i: nat, mod: string)
    requires Carries(cs, i, mod)
    ensures CopyIn(cs, i, mod).payload == i
  {
  }

  lemma CarriersInOrder(cs: seq<Corpus>, mod: string, k: nat, l: nat)
    requires k < |Carriers(cs, mod, |cs|)| && l < |Carriers(cs, mod, |cs|)|
    ensures var r := Carriers(cs, mod, |cs|);
            (k < l ==> r[k].payload < r[l].payload) && (l < k ==> r[l].payload < r[k].payload)
  {
    CarriersAre(cs, mod, |cs|);
  }

  predicate Owned(cs: seq<Corpus>, i: nat, r: Row) {
    OwnerOf(cs, r.mod) == Some(i)
  }

  function IsOwned(cs: seq<Corpus>, i: nat): Row -> bool {
    (r: Row) => Owned(cs, i, r)
  }

  // ------------------------------------------------------------ the queries

  /** `oid_key > ?`. */
  predicate Above(oid: seq<int>, r: Row)
    requires OidKey.Arcs(oid)
  {
    OidKey.Arcs(r.arcs) && Less(OidKey.Key(oid), OidKey.Key(r.arcs))
  }

  /** `ORDER BY oid_key, module`. */
  predicate RowBefore(a: Row, b: Row) {
    && OidKey.Arcs(a.arcs) && OidKey.Arcs(b.arcs)
    && (var j, k := OidKey.Key(a.arcs), OidKey.Key(b.arcs);
        Less(j, k) || (j == k && Less(Codes(a.mod), Codes(b.mod))))
  }

  function RowOrder(): (Row, Row) -> bool {
    (a: Row, b: Row) => RowBefore(a, b)
  }

  /** `WHERE oid_key > ? ORDER BY oid_key, module LIMIT 1`. */
  function NextRow(rows: seq<Row>, oid: seq<int>): (r: Option<Row>)
    requires OidKey.Arcs(oid)
    ensures r.Some? ==> r.value in rows && Above(oid, r.value)
  {
    if rows == [] then None
    else
      var rest := NextRow(rows[1..], oid);
      if !Above(oid, rows[0]) then rest
      else if rest.None? || !RowBefore(rest.value, rows[0]) then Some(rows[0])
      else rest
  }

  lemma AboveIsLess(oid: seq<int>, r: Row)
    requires OidKey.Arcs(oid) && OidKey.Arcs(r.arcs)
    ensures Above(oid, r) <==> Less(oid, r.arcs)
  {
    OidKey.KeyEmbedsOrder(oid, r.arcs);
  }

  lemma RowBeforeMeans(a: Row, b: Row)
    requires OidKey.Arcs(a.arcs) && OidKey.Arcs(b.arcs)
    ensures RowBefore(a, b) <==>
            Less(a.arcs, b.arcs) || (a.arcs == b.arcs && Less(Codes(a.mod), Codes(b.mod)))
  {
    OidKey.KeyEmbedsOrder(a.arcs, b.arcs);
    if OidKey.Key(a.arcs) == OidKey.Key(b.arcs) {
      OidKey.KeyInjective(a.arcs, b.arcs);
    }
  }

  lemma RowOrderTransitive(a: Row, b: Row, c: Row)
    requires OidKey.Arcs(a.arcs) && OidKey.Arcs(b.arcs) && OidKey.Arcs(c.arcs)
    requires !RowBefore(b, a) && !RowBefore(c, b)
    ensures !RowBefore(c, a)
  {
    RowBeforeMeans(b, a);
    RowBeforeMeans(c, b);
    RowBeforeMeans(c, a);
    LessTotal(a.arcs, b.arcs);
    LessTotal(b.arcs, c.arcs);
    LessTotal(Codes(a.mod), Codes(b.mod));
    LessTotal(Codes(b.mod), Codes(c.mod));
    NotBelowItself(a.arcs);
    NotBelowItself(Codes(a.mod));
    if Less(c.arcs, a.arcs) {
      if Less(a.arcs, b.arcs) {
        LessTransitive(c.arcs, a.arcs, b.arcs);
      }
    } else if c.arcs == a.arcs && Less(Codes(c.mod), Codes(a.mod)) {
      if Less(a.arcs, b.arcs) {
        LessAsymmetric(a.arcs, b.arcs);
      } else if Less(Codes(a.mod), Codes(b.mod)) {
        LessTransitive(Codes(c.mod), Codes(a.mod), Codes(b.mod));
      }
    }
  }

  /** The query finds the least row above the bound. */
  lemma {:induction false} NextRowIsLeast(rows: seq<Row>, oid: seq<int>)
    requires OidKey.Arcs(oid) && forall r :: r in rows ==> OidKey.Arcs(r.arcs)
    ensures forall q :: q in rows && Above(oid, q) ==>
              NextRow(rows, oid).Some? && !RowBefore(q, NextRow(rows, oid).value)
  {
    if rows != [] {
      NextRowIsLeast(rows[1..], oid);
      var rest := NextRow(rows[1..], oid);
      forall q | q in rows && Above(oid, q)
        ensures NextRow(rows, oid).Some? && !RowBefore(q, NextRow(rows, oid).value)
      {
        RowBeforeMeans(rows[0], rows[0]);
        NotBelowItself(rows[0].arcs);
        NotBelowItself(Codes(rows[0].mod));
        if q in rows[1..] && Above(oid, rows[0]) && rest.Some? {
          if RowBefore(rest.value, rows[0]) {
          } else {
            RowOrderTransitive(rows[0], rest.value, q);
          }
        } else if rest.Some? && q == rows[0] {
          RowNotBoth(rest.value, rows[0]);
        }
      }
    }
  }

  lemma RowNotBoth(a: Row, b: Row)
    requires OidKey.Arcs(a.arcs) && OidKey.Arcs(b.arcs)
    ensures !(RowBefore(a, b) && RowBefore(b, a))
  {
    RowBeforeMeans(a, b);
    RowBeforeMeans(b, a);
    NotBoth(a.arcs, b.arcs);
    NotBoth(Codes(a.mod), Codes(b.mod));
  }

  // -------------------------------------------------------------- the walk

  ghost function ArcsAbove(rows: seq<Row>, oid: seq<int>): set<seq<int>> {
    set r | r in rows && Less(oid, r.arcs) :: r.arcs
  }

  lemma FewerAbove(rows: seq<Row>, oid: seq<int>, r: Row)
    requires r in rows && Less(oid, r.arcs)
    ensures ArcsAbove(rows, r.arcs) < ArcsAbove(rows, oid)
  {
    forall q | q in rows && Less(r.arcs, q.arcs) ensures Less(oid, q.arcs) {
      LessTransitive(oid, r.arcs, q.arcs);
    }
    NotBelowItself(r.arcs);
    assert r.arcs in ArcsAbove(rows, oid) && r.arcs !in ArcsAbove(rows, r.arcs);
  }

  /** A corpus advanced to its own first owned successor: rows of a module some other
      corpus owns are stepped over, one query at a time. */
  function OwnedNext(cs: seq<Corpus>, i: nat, oid: seq<int>): (r: Option<Row>)
    requires ValidAll(cs) && i < |cs| && OidKey.Arcs(oid)
    ensures r.Some? ==> r.value in cs[i].nodes && Owned(cs, i, r.value)
    decreases ArcsAbove(cs[i].nodes, oid)
  {
    var found := NextRow(cs[i].nodes, oid);
    if found.None? || Owned(cs, i, found.value) then found
    else
      AboveIsLess(oid, found.value);
      FewerAbove(cs[i].nodes, oid, found.value);
      OwnedNext(cs, i, found.value.arcs)
  }

  /** The earliest of the first `n` corpora's successors, an earlier corpus winning a tie. */
  function NextNodeAmong(cs: seq<Corpus>, n: nat, oid: seq<int>): (r: Option<Row>)
    requires ValidAll(cs) && n <= |cs| && OidKey.Arcs(oid)
    ensures r.Some? ==> exists i :: 0 <= i < n && r.value in cs[i].nodes && Owned(cs, i, r.value)
  {
    if n == 0 then None
    else
      var best := NextNodeAmong(cs, n - 1, oid);
      var found := OwnedNext(cs, n - 1, oid);
      if found.None? then best
      else if best.None? || Less(OidKey.Key(found.value.arcs), OidKey.Key(best.value.arcs)) then found
      else best
  }

  function NextNode(cs: seq<Corpus>, oid: seq<int>): (r: Option<Row>)
    requires ValidAll(cs) && OidKey.Arcs(oid)
    ensures r.Some? ==> r.value.arcs != [] && OidKey.Arcs(r.value.arcs)
  {
    NextNodeAmong(cs, |cs|, oid)
  }

  /** The row a corpus shows at its OID: no other row there has a lesser module name. */
  ghost predicate IsHead(c: Corpus, r: Row) {
    r in c.nodes && forall q :: q in c.nodes && q.arcs == r.arcs ==> !Less(Codes(q.mod), Codes(r.mod))
  }

  ghost predicate VisibleIn(cs: seq<Corpus>, i: nat, oid: seq<int>)
    requires i < |cs|
  {
    exists r :: IsHead(cs[i], r) && r.arcs == oid && Owned(cs, i, r)
  }

  ghost predicate VisibleAt(cs: seq<Corpus>, oid: seq<int>) {
    exists i :: 0 <= i < |cs| && VisibleIn(cs, i, oid)
  }

  ghost predicate OwnedAt(cs: seq<Corpus>, oid: seq<int>) {
    exists i, r :: 0 <= i < |cs| && r in cs[i].nodes && r.arcs == oid && Owned(cs, i, r)
  }

  /** An owned row hidden behind a row that sorts first at its OID. */
  ghost predicate Shadowed(cs: seq<Corpus>, oid: seq<int>) {
    OwnedAt(cs, oid) && !VisibleAt(cs, oid)
  }

  ghost predicate OneRowPerOid(c: Corpus) {
    forall q, r :: q in c.nodes && r in c.nodes && q.arcs == r.arcs ==> q == r
  }

  lemma NextRowIsHead(c: Corpus, oid: seq<int>)
    requires c.Valid() && OidKey.Arcs(oid)
    ensures var r := NextRow(c.nodes, oid);
            && (r.Some? ==> IsHead(c, r.value) && Less(oid, r.value.arcs))
            && (forall q :: q in c.nodes && Less(oid, q.arcs) ==> r.Some? && AtMost(r.value.arcs, q.arcs))
  {
    var r := NextRow(c.nodes, oid);
    NextRowIsLeast(c.nodes, oid);
    forall q | q in c.nodes && Less(oid, q.arcs) ensures r.Some? && AtMost(r.value.arcs, q.arcs) {
      AboveIsLess(oid, q);
      RowBeforeMeans(q, r.value);
      LessTotal(q.arcs, r.value.arcs);
    }
    if r.Some? {
      AboveIsLess(oid, r.value);
      forall q | q in c.nodes && q.arcs == r.value.arcs ensures !Less(Codes(q.mod), Codes(r.value.mod)) {
        AboveIsLess(oid, q);
        RowBeforeMeans(q, r.value);
      }
    }
  }

  /** Two rows a corpus could show at one OID name the same module. */
  lemma HeadsAgree(c: Corpus, q: Row, r: Row)
    requires IsHead(c, q) && IsHead(c, r) && q.arcs == r.arcs
    ensures q.mod == r.mod
  {
    LessTotal(Codes(q.mod), Codes(r.mod));
    CodesInjective(q.mod, r.mod) by {
      assert Codes(q.mod) == Codes(r.mod);
    }
  }

  lemma {:induction false} OwnedNextIsLeast(cs: seq<Corpus>, i: nat, oid: seq<int>)
    requires ValidAll(cs) && i < |cs| && OidKey.Arcs(oid)
    ensures var r := OwnedNext(cs, i, oid);
            && (r.Some? ==> VisibleIn(cs, i, r.value.arcs) && Less(oid, r.value.arcs))
            && (forall o :: VisibleIn(cs, i, o) && Less(oid, o) ==> r.Some? && AtMost(r.value.arcs, o))
    decreases ArcsAbove(cs[i].nodes, oid)
  {
    var found := NextRow(cs[i].nodes, oid);
    NextRowIsHead(cs[i], oid);
    if found.Some? && !Owned(cs, i, found.value) {
      var next := found.value.arcs;
      FewerAbove(cs[i].nodes, oid, found.value);
      OwnedNextIsLeast(cs, i, next);
      var r := OwnedNext(cs, i, oid);
      if r.Some? {
        LessTransitive(oid, next, r.value.arcs);
      }
      forall o | VisibleIn(cs, i, o) && Less(oid, o) ensures r.Some? && AtMost(r.value.arcs, o) {
        var q :| IsHead(cs[i], q) && q.arcs == o && Owned(cs, i, q);
        if o == next {
          HeadsAgree(cs[i], q, found.value);
        }
      }
    } else {
      forall o | VisibleIn(cs, i, o) && Less(oid, o) ensures found.Some? && AtMost(found.value.arcs, o) {
        var q :| IsHead(cs[i], q) && q.arcs == o && Owned(cs, i, q);
      }
    }
  }

  lemma {:induction false} NextNodeAmongIsLeast(cs: seq<Corpus>, n: nat, oid: seq<int>)
    requires ValidAll(cs) && n <= |cs| && OidKey.Arcs(oid)
    ensures var r := NextNodeAmong(cs, n, oid);
            && (r.Some? ==> Less(oid, r.value.arcs) && exists i :: 0 <= i < n && VisibleIn(cs, i, r.value.arcs))
            && (forall i, o :: 0 <= i < n && VisibleIn(cs, i, o) && Less(oid, o) ==>
                  r.Some? && AtMost(r.value.arcs, o))
  {
    hide Less, OidKey.Key, OwnedNext, Owned, VisibleIn;
    if n > 0 {
      NextNodeAmongIsLeast(cs, n - 1, oid);
      OwnedNextIsLeast(cs, n - 1, oid);
      var best, found := NextNodeAmong(cs, n - 1, oid), OwnedNext(cs, n - 1, oid);
      if found.Some? && best.Some? {
        OidKey.KeyEmbedsOrder(found.value.arcs, best.value.arcs);
        LessTotal(found.value.arcs, best.value.arcs);
      }
      var r := NextNodeAmong(cs, n, oid);
      forall i, o | 0 <= i < n && VisibleIn(cs, i, o) && Less(oid, o)
        ensures r.Some? && AtMost(r.value.arcs, o)
      {
        if r.Some? {
          var other := if i == n - 1 then found.value.arcs else best.value.arcs;
          AtMostTransitive(r.value.arcs, other, o);
        }
      }
    }
  }

  lemma AtMostTransitive(a: seq<int>, b: seq<int>, c: seq<int>)
    requires AtMost(a, b) && AtMost(b, c)
    ensures AtMost(a, c)
  {
    if a != b && b != c {
      LessTransitive(a, b, c);
    }
  }

  /** `next_node` returns the least visible OID after the one asked about. */
  lemma NextNodeIsLeast(cs: seq<Corpus>, oid: seq<int>)
    requires ValidAll(cs) && OidKey.Arcs(oid)
    ensures var r := NextNode(cs, oid);
            && (r.Some? ==> VisibleAt(cs, r.value.arcs) && Less(oid, r.value.arcs))
            && (forall o :: VisibleAt(cs, o) && Less(oid, o) ==> r.Some? && AtMost(r.value.arcs, o))
  {
    NextNodeAmongIsLeast(cs, |cs|, oid);
  }

  /** A row that corpus `i` shows and no corpus before it shows one at that OID. */
  ghost predicate FirstShown(cs: seq<Corpus>, i: nat, n: nat, r: Row) {
    && i < n <= |cs| && IsHead(cs[i], r) && Owned(cs, i, r)
    && forall j: nat :: j < i ==> !VisibleIn(cs, j, r.arcs)
  }

  lemma {:induction false} OwnedNextIsHead(cs: seq<Corpus>, i: nat, oid: seq<int>)
    requires ValidAll(cs) && i < |cs| && OidKey.Arcs(oid)
    ensures var r := OwnedNext(cs, i, oid); r.Some? ==> IsHead(cs[i], r.value) && Owned(cs, i, r.value)
    decreases ArcsAbove(cs[i].nodes, oid)
  {
    var found := NextRow(cs[i].nodes, oid);
    NextRowIsHead(cs[i], oid);
    if found.Some? && !Owned(cs, i, found.value) {
      FewerAbove(cs[i].nodes, oid, found.value);
      OwnedNextIsHead(cs, i, found.value.arcs);
    }
  }

  lemma {:induction false} NextNodeAmongIsFirst(cs: seq<Corpus>, n: nat, oid: seq<int>)
    requires ValidAll(cs) && n <= |cs| && OidKey.Arcs(oid)
    ensures var r := NextNodeAmong(cs, n, oid); r.Some? ==> exists i: nat :: FirstShown(cs, i, n, r.value)
  {
    hide Less, OidKey.Key, OwnedNext, Owned, VisibleIn, IsHead;
    if n > 0 {
      NextNodeAmongIsFirst(cs, n - 1, oid);
      NextNodeAmongIsLeast(cs, n - 1, oid);
      OwnedNextIsLeast(cs, n - 1, oid);
      OwnedNextIsHead(cs, n - 1, oid);
      var best, found := NextNodeAmong(cs, n - 1, oid), OwnedNext(cs, n - 1, oid);
      var r := NextNodeAmong(cs, n, oid);
      if r.Some? && r != best {
        if best.Some? {
          OidKey.KeyEmbedsOrder(found.value.arcs, best.value.arcs);
          NotBoth(found.value.arcs, best.value.arcs);
        }
        assert FirstShown(cs, n - 1, n, r.value);
      } else if r.Some? {
        var i: nat :| FirstShown(cs, i, n - 1, r.value);
        assert FirstShown(cs, i, n, r.value);
      }
    }
  }

  /** And the row it returns there is that of the first corpus that shows one: an earlier
      corpus wins where two have a row of their own at one OID. */
  lemma NextNodeIsFirst(cs: seq<Corpus>, oid: seq<int>)
    requires ValidAll(cs) && OidKey.Arcs(oid)
    ensures var r := NextNode(cs, oid); r.Some? ==> exists i: nat :: FirstShown(cs, i, |cs|, r.value)
  {
    NextNodeAmongIsFirst(cs, |cs|, oid);
  }

  ghost function AllArcsAbove(cs: seq<Corpus>, oid: seq<int>): set<seq<int>> {
    set i, r | 0 <= i < |cs| && r in cs[i].nodes && Less(oid, r.arcs) :: r.arcs
  }

  lemma FewerLeft(cs: seq<Corpus>, oid: seq<int>, next: seq<int>)
    requires VisibleAt(cs, next) && Less(oid, next)
    ensures AllArcsAbove(cs, next) < AllArcsAbove(cs, oid)
  {
    forall i, r | 0 <= i < |cs| && r in cs[i].nodes && Less(next, r.arcs) ensures Less(oid, r.arcs) {
      LessTransitive(oid, next, r.arcs);
    }
    NotBelowItself(next);
    assert next in AllArcsAbove(cs, oid) && next !in AllArcsAbove(cs, next);
  }

  /** Asking for the next node until there is none. */
  function Walk(cs: seq<Corpus>, oid: seq<int>): seq<Row>
    requires ValidAll(cs) && OidKey.Arcs(oid)
    decreases AllArcsAbove(cs, oid)
  {
    match NextNode(cs, oid)
    case None => []
    case Some(r) =>
      NextNodeIsLeast(cs, oid);
      FewerLeft(cs, oid, r.arcs);
      [r] + Walk(cs, r.arcs)
  }

  ghost predicate Visits(rows: seq<Row>, oid: seq<int>) {
    exists k :: 0 <= k < |rows| && rows[k].arcs == oid
  }

  lemma ConsVisits(r: Row, rest: seq<Row>, o: seq<int>)
    ensures Visits([r] + rest, o) <==> r.arcs == o || Visits(rest, o)
  {
    var all := [r] + rest;
    if Visits(rest, o) {
      var k :| 0 <= k < |rest| && rest[k].arcs == o;
      assert all[k + 1].arcs == o;
    }
    if Visits(all, o) {
      var k :| 0 <= k < |all| && all[k].arcs == o;
      assert k > 0 ==> rest[k - 1].arcs == o;
    }
    assert all[0] == r;
  }

  ghost predicate AscendingRows(rows: seq<Row>) {
    forall j, k :: 0 <= j < k < |rows| ==> Less(rows[j].arcs, rows[k].arcs)
  }

  /** The walk terminates, ascends strictly and visits exactly the visible OIDs. */
  lemma {:induction false} WalkVisitsVisible(cs: seq<Corpus>, oid: seq<int>)
    requires ValidAll(cs) && OidKey.Arcs(oid)
    ensures AscendingRows(Walk(cs, oid))
    ensures forall o :: Visits(Walk(cs, oid), o) <==> VisibleAt(cs, o) && Less(oid, o)
    decreases AllArcsAbove(cs, oid)
  {
    hide Less, VisibleAt, NextNode;
    NextNodeIsLeast(cs, oid);
    var next := NextNode(cs, oid);
    if next.Some? {
      var first := next.value.arcs;
      FewerLeft(cs, oid, first);
      WalkVisitsVisible(cs, first);
      var rest := Walk(cs, first);
      forall k | 0 <= k < |rest| ensures Less(first, rest[k].arcs) {
        assert Visits(rest, rest[k].arcs);
      }
      forall o ensures Visits(Walk(cs, oid), o) <==> VisibleAt(cs, o) && Less(oid, o) {
        ConsVisits(next.value, rest, o);
        if Less(first, o) {
          LessTransitive(oid, first, o);
        }
      }
    }
  }

  /** A walk from any OID visits exactly the OIDs of owned rows after it, if and only
      if no owned row after it is shadowed. */
  lemma WalkIsOwnedRows(cs: seq<Corpus>, oid: seq<int>)
    requires ValidAll(cs) && OidKey.Arcs(oid)
    ensures (forall o :: Visits(Walk(cs, oid), o) <==> OwnedAt(cs, o) && Less(oid, o))
            <==> (forall o :: Less(oid, o) ==> !Shadowed(cs, o))
  {
    WalkVisitsVisible(cs, oid);
    forall o ensures VisibleAt(cs, o) ==> OwnedAt(cs, o) {
      VisibleIsOwned(cs, o);
    }
    if forall o :: Visits(Walk(cs, oid), o) <==> OwnedAt(cs, o) && Less(oid, o) {
      forall o | Less(oid, o) ensures !Shadowed(cs, o) {
        assert Visits(Walk(cs, oid), o) <==> OwnedAt(cs, o) && Less(oid, o);
      }
    }
    if forall o :: Less(oid, o) ==> !Shadowed(cs, o) {
      forall o ensures Visits(Walk(cs, oid), o) <==> OwnedAt(cs, o) && Less(oid, o) {
        assert Visits(Walk(cs, oid), o) <==> VisibleAt(cs, o) && Less(oid, o);
      }
    }
  }

  lemma VisibleIsOwned(cs: seq<Corpus>, o: seq<int>)
    ensures VisibleAt(cs, o) ==> OwnedAt(cs, o)
  {
    if VisibleAt(cs, o) {
      var i :| 0 <= i < |cs| && VisibleIn(cs, i, o);
      var r :| IsHead(cs[i], r) && r.arcs == o && Owned(cs, i, r);
    }
  }

  /** One row per OID in each corpus rules shadowing out. */
  lemma OneRowPerOidNeverShadows(cs: seq<Corpus>, o: seq<int>)
    requires forall i :: 0 <= i < |cs| ==> OneRowPerOid(cs[i])
    ensures !Shadowed(cs, o)
  {
    if OwnedAt(cs, o) {
      var i, r :| 0 <= i < |cs| && r in cs[i].nodes && r.arcs == o && Owned(cs, i, r);
      NotBelowItself(Codes(r.mod));
      assert IsHead(cs[i], r);
      assert VisibleIn(cs, i, o);
    }
  }

  const NEWER_A := Corpus([], map[], map["A" := Record(None, Some("2"))])
  const OLDER_A_AND_B :=
    Corpus([Row("A", [1, 3], true, false), Row("B", [1, 3], true, false)], map[],
           map["A" := Record(None, Some("1")), "B" := Record(None, Some("1"))])

  lemma ExampleOwners()
    ensures OwnerOf([NEWER_A, OLDER_A_AND_B], "A") == Some(0)
    ensures OwnerOf([NEWER_A, OLDER_A_AND_B], "B") == Some(1)
  {
    var cs := [NEWER_A, OLDER_A_AND_B];
    var two, one := Copy(0, Some("2")), Copy(1, Some("1"));
    assert "A" in NEWER_A.modules && "A" in OLDER_A_AND_B.modules;
    assert "B" !in NEWER_A.modules && "B" in OLDER_A_AND_B.modules by {
      assert "A"[0] != "B"[0];
    }
    assert Carriers(cs, "A", 1) == Carriers(cs, "A", 0) + [two] == [two];
    assert Carriers(cs, "A", 2) == [two, one];
    assert Carriers(cs, "B", 1) == Carriers(cs, "B", 0) == [];
    assert Carriers(cs, "B", 2) == [one];
    assert Codes("1")[0] < Codes("2")[0];
    assert Newer(two, one) && !Newer(one, two);
    var newer := (a: Copy<nat>, b: Copy<nat>) => Newer(a, b);
    assert [two, one][1..] == [one];
    assert FirstBest([one], newer) == 0;
    assert FirstBest([two, one], newer) == 0;
  }

  /** Shadowing happens: the second corpus shows `A`'s row at 1.3, which the first
      corpus owns, and so never its own `B` there. */
  lemma ShadowingHappens()
    ensures ValidAll([NEWER_A, OLDER_A_AND_B]) && Shadowed([NEWER_A, OLDER_A_AND_B], [1, 3])
  {
    var a, b := Row("A", [1, 3], true, false), Row("B", [1, 3], true, false);
    hide OwnerOf, Carriers;
    var cs := [NEWER_A, OLDER_A_AND_B];
    ExampleOwners();
    assert a in cs[1].nodes && b in cs[1].nodes && Owned(cs, 1, b);
    assert Codes("A")[0] < Codes("B")[0];
    assert Less(Codes("A"), Codes("B"));
    assert !IsHead(cs[1], b) && !Owned(cs, 1, a);
    forall i | 0 <= i < |cs|
      ensures !VisibleIn(cs, i, [1, 3])
    {
      assert cs[i].nodes == [] || cs[i].nodes == [a, b];
    }
  }

  // -------------------------------------------------------------- subtrees

  /** `oid_key >= ? AND oid_key < ?` with the bound `subtree_bound` gives. */
  predicate InRange(root: seq<int>, r: Row)
    requires OidKey.Arcs(root)
  {
    && OidKey.Arcs(r.arcs)
    && (var low, k := OidKey.Key(root), OidKey.Key(r.arcs);
        AtMost(low, k) && Less(k, OidKey.Bound(low)))
  }

  function SubtreeOf(c: Corpus, root: seq<int>): seq<Row>
    requires OidKey.Arcs(root)
  {
    StableSort(Select(c.nodes, (r: Row) => InRange(root, r)), RowOrder())
  }

  /** The owned rows of the first `n` corpora at or below the root, in no particular order. */
  function OwnedBelow(cs: seq<Corpus>, n: nat, root: seq<int>): seq<Row>
    requires n <= |cs| && OidKey.Arcs(root)
  {
    if n == 0 then []
    else OwnedBelow(cs, n - 1, root) + Select(SubtreeOf(cs[n - 1], root), IsOwned(cs, n - 1))
  }

  function Subtree(cs: seq<Corpus>, root: seq<int>): seq<Row>
    requires OidKey.Arcs(root)
  {
    StableSort(OwnedBelow(cs, |cs|, root), RowOrder())
  }

  lemma {:induction false} SelectKeeps<T>(s: seq<T>, p: T -> bool, x: T)
    ensures x in Select(s, p) <==> x in s && p(x)
  {
    if s != [] {
      SelectKeeps(s[1..], p, x);
    }
  }

  lemma SameElements<T>(s: seq<T>, t: seq<T>, x: T)
    requires multiset(s) == multiset(t)
    ensures x in s <==> x in t
  {
    assert x in multiset(s) <==> x in multiset(t);
  }

  lemma SubtreeOfHolds(c: Corpus, root: seq<int>, r: Row)
    requires c.Valid() && root != [] && OidKey.Arcs(root)
    ensures r in SubtreeOf(c, root) <==> r in c.nodes && root <= r.arcs
  {
    hide OidKey.Key, OidKey.Bound, Less, Select, StableSort;
    var inRange := (q: Row) => InRange(root, q);
    SelectKeeps(c.nodes, inRange, r);
    SameElements(SubtreeOf(c, root), Select(c.nodes, inRange), r);
    if r in c.nodes {
      OidKey.SubtreeOfOid(root, r.arcs);
    }
  }

  lemma {:induction false} OwnedBelowHolds(cs: seq<Corpus>, n: nat, root: seq<int>, r: Row)
    requires ValidAll(cs) && n <= |cs| && root != [] && OidKey.Arcs(root)
    ensures r in OwnedBelow(cs, n, root) <==>
            root <= r.arcs && exists i :: 0 <= i < n && r in cs[i].nodes && Owned(cs, i, r)
  {
    hide Owned, SubtreeOf, Select;
    if n > 0 {
      OwnedBelowHolds(cs, n - 1, root, r);
      SelectKeeps(SubtreeOf(cs[n - 1], root), IsOwned(cs, n - 1), r);
      SubtreeOfHolds(cs[n - 1], root, r);
    }
  }

  /** `subtree` returns exactly the owned rows at or below the root, ... */
  lemma SubtreeHolds(cs: seq<Corpus>, root: seq<int>, r: Row)
    requires ValidAll(cs) && root != [] && OidKey.Arcs(root)
    ensures r in Subtree(cs, root) <==>
            root <= r.arcs && exists i :: 0 <= i < |cs| && r in cs[i].nodes && Owned(cs, i, r)
  {
    OwnedBelowHolds(cs, |cs|, root, r);
    SameElements(Subtree(cs, root), OwnedBelow(cs, |cs|, root), r);
  }

  /** How rows come out: by OID, arc for arc, and at one OID by module name. */
  predicate Precedes(a: Row, b: Row) {
    Less(a.arcs, b.arcs) || (a.arcs == b.arcs && Less(Codes(a.mod), Codes(b.mod)))
  }

  lemma PrecedesIsWeakOrder()
    ensures WeakOrder((a: Row, b: Row) => Precedes(a, b))
  {
    forall a: Row, b: Row
      ensures !Precedes(a, a) && (Precedes(a, b) ==> !Precedes(b, a))
    {
      NotBoth(a.arcs, b.arcs);
      NotBoth(Codes(a.mod), Codes(b.mod));
      NotBelowItself(a.arcs);
      NotBelowItself(b.arcs);
    }
    forall a: Row, b: Row, c: Row | !Precedes(b, a) && !Precedes(c, b)
      ensures !Precedes(c, a)
    {
      LessTotal(a.arcs, b.arcs);
      NotLessTransitive(a.arcs, b.arcs, c.arcs);
      if a.arcs == b.arcs == c.arcs {
        NotLessTransitive(Codes(a.mod), Codes(b.mod), Codes(c.mod));
      }
    }
  }

  lemma SortedPrecedes(rows: seq<Row>)
    requires forall r :: r in rows ==> OidKey.Arcs(r.arcs)
    ensures SortedBy(StableSort(rows, RowOrder()), (a: Row, b: Row) => Precedes(a, b))
  {
    forall a, b | a in rows && b in rows
      ensures RowBefore(a, b) == Precedes(a, b)
    {
      RowBeforeMeans(a, b);
    }
    StableSortSame(rows, RowOrder(), (a: Row, b: Row) => Precedes(a, b));
    PrecedesIsWeakOrder();
    StableSortSorts(rows, (a: Row, b: Row) => Precedes(a, b));
  }

  /** The rows come in order of OID and then of module name, whatever corpora they come
      from, ... */
  lemma SubtreeInOrder(cs: seq<Corpus>, root: seq<int>, j: nat, k: nat)
    requires ValidAll(cs) && root != [] && OidKey.Arcs(root) && j < k < |Subtree(cs, root)|
    ensures !Precedes(Subtree(cs, root)[k], Subtree(cs, root)[j])
  {
    forall r | r in OwnedBelow(cs, |cs|, root)
      ensures OidKey.Arcs(r.arcs)
    {
      OwnedBelowHolds(cs, |cs|, root, r);
    }
    SortedPrecedes(OwnedBelow(cs, |cs|, root));
    hide Precedes, OwnedBelow, StableSort;
  }

  lemma SubtreeOfCounts(c: Corpus, root: seq<int>, r: Row)
    requires c.Valid() && root != [] && OidKey.Arcs(root)
    ensures multiset(SubtreeOf(c, root))[r] == if root <= r.arcs then multiset(c.nodes)[r] else 0
  {
    hide OidKey.Key, OidKey.Bound, Less, Select, StableSort;
    SelectCounts(c.nodes, (q: Row) => InRange(root, q), r);
    if r in c.nodes {
      OidKey.SubtreeOfOid(root, r.arcs);
    } else {
      assert multiset(c.nodes)[r] == 0;
    }
  }

  lemma {:induction false} OwnedBelowCounts(cs: seq<Corpus>, n: nat, root: seq<int>, r: Row)
    requires ValidAll(cs) && n <= |cs| && root != [] && OidKey.Arcs(root)
    ensures multiset(OwnedBelow(cs, n, root))[r] ==
            match OwnerOf(cs, r.mod)
            case None => 0
            case Some(i) => if i < n && root <= r.arcs then multiset(cs[i].nodes)[r] else 0
  {
    hide OwnerOf, SubtreeOf, Select;
    if n > 0 {
      OwnedBelowCounts(cs, n - 1, root, r);
      SelectCounts(SubtreeOf(cs[n - 1], root), IsOwned(cs, n - 1), r);
      SubtreeOfCounts(cs[n - 1], root, r);
    }
  }

  /** ... and each as often as the corpus that answers for its module lists it. */
  lemma SubtreeCounts(cs: seq<Corpus>, root: seq<int>, r: Row)
    requires ValidAll(cs) && root != [] && OidKey.Arcs(root)
    ensures multiset(Subtree(cs, root))[r] ==
            match OwnerOf(cs, r.mod)
            case None => 0
            case Some(i) => if root <= r.arcs then multiset(cs[i].nodes)[r] else 0
  {
    OwnedBelowCounts(cs, |cs|, root, r);
    hide OwnerOf, OwnedBelow;
  }

  ghost predicate SomeRowAt(rows: seq<Row>, o: seq<int>) {
    exists r :: r in rows && r.arcs == o
  }

  /** ... so its OIDs are those of owned rows there. */
  lemma SubtreeOids(cs: seq<Corpus>, root: seq<int>, o: seq<int>)
    requires ValidAll(cs) && root != [] && OidKey.Arcs(root)
    ensures SomeRowAt(Subtree(cs, root), o) <==> root <= o && OwnedAt(cs, o)
  {
    if SomeRowAt(Subtree(cs, root), o) {
      var r :| r in Subtree(cs, root) && r.arcs == o;
      SubtreeHolds(cs, root, r);
    }
    if root <= o && OwnedAt(cs, o) {
      var i, r :| 0 <= i < |cs| && r in cs[i].nodes && r.arcs == o && Owned(cs, i, r);
      SubtreeHolds(cs, root, r);
    }
  }

  /** Below any root the walk and `subtree` find the same OIDs, if and only if no owned
      row there is shadowed. */
  lemma WalkMatchesSubtree(cs: seq<Corpus>, root: seq<int>)
    requires ValidAll(cs) && root != [] && OidKey.Arcs(root)
    ensures (forall o :: root < o ==> (Visits(Walk(cs, root), o) <==> SomeRowAt(Subtree(cs, root), o)))
            <==> (forall o :: root < o ==> !Shadowed(cs, o))
  {
    WalkVisitsVisible(cs, root);
    forall o | root < o
      ensures Visits(Walk(cs, root), o) <==> VisibleAt(cs, o)
      ensures SomeRowAt(Subtree(cs, root), o) <==> OwnedAt(cs, o)
      ensures VisibleAt(cs, o) ==> OwnedAt(cs, o)
    {
      PrefixAtMost(root, o);
      SubtreeOids(cs, root, o);
      VisibleIsOwned(cs, o);
    }
    if forall o :: root < o ==> (Visits(Walk(cs, root), o) <==> SomeRowAt(Subtree(cs, root), o)) {
      forall o | root < o ensures !Shadowed(cs, o) {
        assert Visits(Walk(cs, root), o) <==> SomeRowAt(Subtree(cs, root), o);
      }
    }
    if forall o :: root < o ==> !Shadowed(cs, o) {
      forall o | root < o ensures Visits(Walk(cs, root), o) <==> SomeRowAt(Subtree(cs, root), o) {
        assert !Shadowed(cs, o);
      }
    }
  }
}
