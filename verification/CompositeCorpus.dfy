/** `CompositeMibCorpus`: the rank that settles a contested arc, longest-prefix search
    over every corpus at once, and the object whose memo tables back both. */
module CompositeCorpus {
  import opened Wrappers
  import opened Lex
  import OidKey
  import opened Revision
  import opened Corpus

  // --------------------------------------------------------------- the rank

  function TierRank(tier: Option<string>): (t: nat)
    ensures t <= |TIERS|
    ensures t < |TIERS| <==> tier.Some? && tier.value in TIERS
  {
    if tier == Some("standard") then 0
    else if tier == Some("draft") then 1
    else if tier == Some("vendor") then 2
    else 3
  }

  /** Every object a module declares is obsolete, and it declares one. */
  predicate WhollyObsolete(c: Corpus, mod: string) {
    && (exists r :: r in c.nodes && r.mod == mod && r.isObject)
    && (forall r :: r in c.nodes && r.mod == mod && r.isObject ==> r.obsolete)
  }

  /** `(obsolete, tier, revision, name)`, flattened: the first three have one length. */
  function RankOf(cs: seq<Corpus>, mod: string): seq<int> {
    match OwnerOf(cs, mod)
    case None => [0, TierRank(None), RevisionRank(None)] + Codes(mod)
    case Some(i) =>
      var record := if mod in cs[i].modules then cs[i].modules[mod] else Record(None, None);
      [if WhollyObsolete(cs[i], mod) then 1 else 0, TierRank(record.tier), RevisionRank(record.revision)]
      + Codes(mod)
  }

  /** The name is the last term, so no two modules rank the same. */
  lemma RankInjective(cs: seq<Corpus>, a: string, b: string)
    requires RankOf(cs, a) == RankOf(cs, b)
    ensures a == b
  {
    assert Codes(a) == RankOf(cs, a)[3..] && Codes(b) == RankOf(cs, b)[3..];
    CodesInjective(a, b);
  }

  // What the rank means, in terms of the corpus that answers for a module.

  /** The owner's record of a module; nobody's module has an empty one. */
  function RecordOf(cs: seq<Corpus>, mod: string): Record {
    match OwnerOf(cs, mod)
    case None => Record(None, None)
    case Some(i) => if mod in cs[i].modules then cs[i].modules[mod] else Record(None, None)
  }

  ghost predicate Obsolete(cs: seq<Corpus>, mod: string) {
    OwnerOf(cs, mod).Some? && WhollyObsolete(cs[OwnerOf(cs, mod).value], mod)
  }

  /** One tier is listed, and the other neither before it nor there. */
  ghost predicate Sooner(a: Option<string>, b: Option<string>) {
    exists k :: 0 <= k < |TIERS| && a == Some(TIERS[k]) && forall j :: 0 <= j <= k ==> b != Some(TIERS[j])
  }

  /** A live module before a wholly obsolete one; then the one whose tier is listed sooner, a
      tier that is not listed coming last; then the one with the better revision; then by
      name. */
  ghost predicate Outranks(cs: seq<Corpus>, a: string, b: string) {
    var x, y := RecordOf(cs, a), RecordOf(cs, b);
    if Obsolete(cs, a) != Obsolete(cs, b) then Obsolete(cs, b)
    else if Sooner(x.tier, y.tier) || Sooner(y.tier, x.tier) then Sooner(x.tier, y.tier)
    else if RevisionRank(x.revision) != RevisionRank(y.revision) then
      RevisionRank(x.revision) < RevisionRank(y.revision)
    else Less(Codes(a), Codes(b))
  }

  lemma TierRankMeans(a: Option<string>, b: Option<string>)
    ensures TierRank(a) < TierRank(b) <==> Sooner(a, b)
  {
    var standard, draft, vendor := "standard", "draft", "vendor";
    assert standard[0] != draft[0] && standard[0] != vendor[0] && draft[0] != vendor[0];
    assert TIERS[0] == standard && TIERS[1] == draft && TIERS[2] == vendor;
    if TierRank(a) < TierRank(b) {
      var k := TierRank(a);
      assert a == Some(TIERS[k]);
    }
  }

  lemma RankTerms(cs: seq<Corpus>, mod: string)
    ensures RankOf(cs, mod) ==
            [if Obsolete(cs, mod) then 1 else 0, TierRank(RecordOf(cs, mod).tier),
             RevisionRank(RecordOf(cs, mod).revision)] + Codes(mod)
  {
  }

  lemma ThreeThenRest(p: seq<int>, s: seq<int>, q: seq<int>, t: seq<int>)
    requires |p| == |q| == 3
    ensures Less(p + s, q + t) <==>
            p[0] < q[0] || (p[0] == q[0] &&
            (p[1] < q[1] || (p[1] == q[1] &&
            (p[2] < q[2] || (p[2] == q[2] && Less(s, t))))))
  {
    var x, y := p + s, q + t;
    assert x[1..][1..][1..] == s && y[1..][1..][1..] == t;
    assert Less(x[1..][1..], y[1..][1..]) <==>
           p[2] < q[2] || (p[2] == q[2] && Less(x[1..][1..][1..], y[1..][1..][1..]));
    assert Less(x[1..], y[1..]) <==> p[1] < q[1] || (p[1] == q[1] && Less(x[1..][1..], y[1..][1..]));
  }

  /** Of two modules the rank puts the one first that outranks the other. */
  lemma RankSettles(cs: seq<Corpus>, a: string, b: string)
    ensures Less(RankOf(cs, a), RankOf(cs, b)) <==> Outranks(cs, a, b)
  {
    hide RankOf, Obsolete, TierRank, RecordOf, Sooner, RevisionRank, Codes, Less;
    RankTerms(cs, a);
    RankTerms(cs, b);
    var x, y := RankOf(cs, a), RankOf(cs, b);
    ThreeThenRest(x[..3], Codes(a), y[..3], Codes(b));
    assert x == x[..3] + Codes(a) && y == y[..3] + Codes(b);
    TierRankMeans(RecordOf(cs, a).tier, RecordOf(cs, b).tier);
    TierRankMeans(RecordOf(cs, b).tier, RecordOf(cs, a).tier);
  }

  /** So a vendor's module does not take an arc from a live standard one. */
  lemma StandardOutranksVendor(cs: seq<Corpus>, a: string, b: string)
    requires RecordOf(cs, a).tier == Some("standard") && RecordOf(cs, b).tier == Some("vendor")
    requires !Obsolete(cs, a)
    ensures Less(RankOf(cs, a), RankOf(cs, b))
  {
    hide RankOf, Obsolete, TierRank, RecordOf, RevisionRank;
    RankSettles(cs, a, b);
    var standard, draft, vendor := "standard", "draft", "vendor";
    assert standard[0] != draft[0] && standard[0] != vendor[0] && draft[0] != vendor[0];
    assert TIERS[0] == standard && TIERS[2] == vendor;
    assert Sooner(Some(TIERS[0]), Some(TIERS[2]));
  }

  // ---------------------------------------------------------------- anchors

  /** The `find_module` query: the module registering exactly this OID. */
  function Anchor(c: Corpus, oid: seq<int>): Option<string>
    requires OidKey.Arcs(oid)
  {
    var key := OidKey.Key(oid);
    if key in c.index then Some(c.index[key]) else None
  }

  ghost predicate Anchors(cs: seq<Corpus>, oid: seq<int>, mod: string)
    requires OidKey.Arcs(oid)
  {
    exists i :: 0 <= i < |cs| && Anchor(cs[i], oid) == Some(mod)
  }

  /** `r` is the least-ranked module anchoring exactly this OID in any corpus. */
  ghost predicate BestAnchor(cs: seq<Corpus>, oid: seq<int>, r: Option<string>)
    requires OidKey.Arcs(oid)
  {
    match r
    case None => forall m :: !Anchors(cs, oid, m)
    case Some(best) =>
      && Anchors(cs, oid, best)
      && forall m :: Anchors(cs, oid, m) && m != best ==> Less(RankOf(cs, best), RankOf(cs, m))
  }

  /** `r` is the best anchor at the longest prefix any corpus anchors. */
  ghost predicate LongestAnchor(cs: seq<Corpus>, oid: seq<int>, r: Option<string>)
    requires OidKey.Arcs(oid)
  {
    if oid == [] then r == None
    else if exists m :: Anchors(cs, oid, m) then BestAnchor(cs, oid, r)
    else LongestAnchor(cs, oid[..|oid| - 1], r)
  }

  lemma BestAnchorUnique(cs: seq<Corpus>, oid: seq<int>, r: Option<string>, s: Option<string>)
    requires OidKey.Arcs(oid) && BestAnchor(cs, oid, r) && BestAnchor(cs, oid, s)
    ensures r == s
  {
    if r.Some? && s.Some? && r != s {
      NotBoth(RankOf(cs, r.value), RankOf(cs, s.value));
    }
  }

  ghost predicate AnchoredBeyond(cs: seq<Corpus>, oid: seq<int>, n: nat)
    requires OidKey.Arcs(oid)
  {
    exists k, m :: n < k <= |oid| && Anchors(cs, oid[..k], m)
  }

  /** The search, read off directly: a hit is the best anchor of some prefix and no
      corpus, wherever it sits, anchors a longer one; a miss means no prefix is anchored. */
  lemma {:induction false} LongestAnchorMeans(cs: seq<Corpus>, oid: seq<int>, r: Option<string>)
    requires OidKey.Arcs(oid) && LongestAnchor(cs, oid, r)
    ensures match r
            case None => !AnchoredBeyond(cs, oid, 0)
            case Some(_) =>
              exists n :: 0 < n <= |oid| && BestAnchor(cs, oid[..n], r) && !AnchoredBeyond(cs, oid, n)
  {
    hide BestAnchor, Anchors;
    if oid != [] {
      assert oid[..|oid|] == oid;
      if exists m :: Anchors(cs, oid, m) {
        var m :| Anchors(cs, oid, m);
        assert r.Some? by {
          SomeAnchorIsBest(cs, oid, r, m);
        }
        assert BestAnchor(cs, oid[..|oid|], r) && !AnchoredBeyond(cs, oid, |oid|);
      } else {
        var shorter := oid[..|oid| - 1];
        LongestAnchorMeans(cs, shorter, r);
        if r.Some? {
          var n :| 0 < n <= |shorter| && BestAnchor(cs, shorter[..n], r) && !AnchoredBeyond(cs, shorter, n);
          assert shorter[..n] == oid[..n];
          NotBeyondLonger(cs, oid, n);
        } else {
          NotBeyondLonger(cs, oid, 0);
        }
      }
    }
  }

  /** The anchor found is the module that outranks every other anchored there. */
  lemma BestAnchorOutranks(cs: seq<Corpus>, oid: seq<int>, best: string)
    requires OidKey.Arcs(oid)
    ensures BestAnchor(cs, oid, Some(best)) <==>
            Anchors(cs, oid, best) && forall m :: Anchors(cs, oid, m) && m != best ==> Outranks(cs, best, m)
  {
    hide RankOf, Outranks, Anchors;
    forall m
      ensures Less(RankOf(cs, best), RankOf(cs, m)) <==> Outranks(cs, best, m)
    {
      RankSettles(cs, best, m);
    }
  }

  lemma SomeAnchorIsBest(cs: seq<Corpus>, oid: seq<int>, r: Option<string>, m: string)
    requires OidKey.Arcs(oid) && BestAnchor(cs, oid, r) && Anchors(cs, oid, m)
    ensures r.Some?
  {
  }

  lemma NotBeyondLonger(cs: seq<Corpus>, oid: seq<int>, n: nat)
    requires oid != [] && OidKey.Arcs(oid) && !(exists m :: Anchors(cs, oid, m))
    requires !AnchoredBeyond(cs, oid[..|oid| - 1], n)
    ensures !AnchoredBeyond(cs, oid, n)
  {
    var shorter := oid[..|oid| - 1];
    assert oid[..|oid|] == oid;
    forall k, m | n < k <= |oid|
      ensures !Anchors(cs, oid[..k], m)
    {
      assert k < |oid| ==> shorter[..k] == oid[..k];
    }
  }

  lemma {:induction false} LongestAnchorUnique(cs: seq<Corpus>, oid: seq<int>, r: Option<string>, s: Option<string>)
    requires OidKey.Arcs(oid) && LongestAnchor(cs, oid, r) && LongestAnchor(cs, oid, s)
    ensures r == s
  {
    if oid != [] {
      if exists m :: Anchors(cs, oid, m) {
        BestAnchorUnique(cs, oid, r, s);
      } else {
        LongestAnchorUnique(cs, oid[..|oid| - 1], r, s);
      }
    }
  }

  /** The module anchored at the longest prefix one corpus anchors. */
  function FindIn(c: Corpus, oid: seq<int>): Option<string>
    requires OidKey.Arcs(oid)
  {
    if oid == [] then None
    else if Anchor(c, oid).Some? then Anchor(c, oid)
    else FindIn(c, oid[..|oid| - 1])
  }

  /** `MibCorpus.find_module`: one corpus, chopping an arc at a time. */
  method FindInOne(c: Corpus, oid: seq<int>) returns (r: Result<Option<string>, OidKey.CodecError>)
    ensures oid == [] ==> r == Ok(None)
    ensures oid != [] ==> (r.Ok? <==> OidKey.Arcs(oid))
    ensures oid != [] && r.Ok? ==> r.value == FindIn(c, oid)
  {
    var arcs := oid;
    while arcs != []
      invariant arcs <= oid
      invariant arcs != oid ==> OidKey.Arcs(oid)
      invariant OidKey.Arcs(oid) ==> FindIn(c, oid) == FindIn(c, arcs)
      decreases |arcs|
    {
      var key := OidKey.EncodeOid(arcs);
      match key {
        case Err(e) => return Err(e);
        case Ok(k) =>
          if k in c.index {
            return Ok(Some(c.index[k]));
          }
          arcs := arcs[..|arcs| - 1];
      }
    }
    return Ok(None);
  }

  lemma OneCorpusAnchors(c: Corpus, oid: seq<int>)
    requires OidKey.Arcs(oid)
    ensures forall m :: Anchors([c], oid, m) <==> Anchor(c, oid) == Some(m)
    ensures BestAnchor([c], oid, Anchor(c, oid))
  {
    forall m ensures Anchors([c], oid, m) <==> Anchor(c, oid) == Some(m) {
      assert Anchor([c][0], oid) == Anchor(c, oid);
    }
  }

  /** With one corpus the two searches have the same answer to every OID. */
  lemma {:induction false} OneCorpusAgrees(c: Corpus, oid: seq<int>, r: Option<string>)
    requires OidKey.Arcs(oid)
    ensures LongestAnchor([c], oid, r) <==> r == FindIn(c, oid)
  {
    if oid != [] {
      OneCorpusAnchors(c, oid);
      if Anchor(c, oid).Some? {
        assert Anchors([c], oid, Anchor(c, oid).value);
        if LongestAnchor([c], oid, r) {
          BestAnchorUnique([c], oid, r, Anchor(c, oid));
        }
      } else {
        OneCorpusAgrees(c, oid[..|oid| - 1], r);
      }
    }
  }

  // ---------------------------------------------------------- the composite

  /** Several corpora and what has been asked of them so far. */
  class CompositeMibCorpus {
    const corpora: seq<Corpus>
    var owners: map<string, Option<nat>>
    var ranks: map<string, seq<int>>

    ghost predicate Valid()
      reads this
    {
      && corpora != [] && ValidAll(corpora)
      && (forall m :: m in owners ==> owners[m] == OwnerOf(corpora, m))
      && (forall m :: m in ranks ==> ranks[m] == RankOf(corpora, m))
    }

    constructor (corpora: seq<Corpus>)
      requires corpora != [] && ValidAll(corpora)
      ensures Valid() && this.corpora == corpora
    {
      this.corpora := corpora;
      owners, ranks := map[], map[];
    }

    /** A composite of nothing is refused. */
    static method Open(corpora: seq<Corpus>) returns (c: CompositeMibCorpus?)
      requires ValidAll(corpora)
      ensures c == null <==> corpora == []
      ensures c != null ==> fresh(c) && c.Valid() && c.corpora == corpora
    {
      if corpora == [] {
        return null;
      }
      c := new CompositeMibCorpus(corpora);
    }

    method Owner(mod: string) returns (o: Option<nat>)
      requires Valid()
      modifies this`owners
      ensures Valid() && o == OwnerOf(corpora, mod)
    {
      if mod !in owners {
        var candidates: seq<Copy<nat>> := [];
        for i := 0 to |corpora|
          invariant candidates == Carriers(corpora, mod, i)
          invariant Valid() && unchanged(this)
        {
          if mod in corpora[i].modules {
            candidates := candidates + [Copy(i, corpora[i].modules[mod].revision)];
          }
        }
        owners := owners[mod := BestByRevision(candidates)];
      }
      o := owners[mod];
    }

    method Rank(mod: string) returns (rank: seq<int>)
      requires Valid()
      modifies this
      ensures Valid() && rank == RankOf(corpora, mod)
    {
      if mod !in ranks {
        var owner := Owner(mod);
        var record := Record(None, None);
        var obsolete := 0;
        if owner.Some? {
          var c := corpora[owner.value];
          if mod in c.modules {
            record := c.modules[mod];
          }
          var all := Objects(c, mod);
          if all != [] && forall r :: r in all ==> r.obsolete {
            obsolete := 1;
          }
        }
        var key := [obsolete, TierRank(record.tier), RevisionRank(record.revision)] + Codes(mod);
        ranks := ranks[mod := key];
      }
      rank := ranks[mod];
    }

    /** The module's object rows, whose statuses `rank_of` reads. */
    static method Objects(c: Corpus, mod: string) returns (rows: seq<Row>)
      ensures forall r :: r in rows <==> r in c.nodes && r.mod == mod && r.isObject
      ensures (rows != [] && forall r :: r in rows ==> r.obsolete) <==> WhollyObsolete(c, mod)
    {
      rows := [];
      for i := 0 to |c.nodes|
        invariant forall r :: r in rows <==> r in c.nodes[..i] && r.mod == mod && r.isObject
      {
        assert c.nodes[..i + 1] == c.nodes[..i] + [c.nodes[i]];
        if c.nodes[i].mod == mod && c.nodes[i].isObject {
          rows := rows + [c.nodes[i]];
        }
      }
      assert c.nodes[..|c.nodes|] == c.nodes;
      assert rows != [] ==> rows[0] in rows;
    }

    /** `best_by_corpus_rank` over a set, in whatever order the set comes. */
    method BestByCorpusRank(seen: set<string>) returns (best: Option<string>)
      requires Valid()
      modifies this
      ensures Valid()
      ensures best.None? <==> seen == {}
      ensures best.Some? ==> best.value in seen
                             && forall m :: m in seen && m != best.value ==>
                                  Less(RankOf(corpora, best.value), RankOf(corpora, m))
    {
      best := None;
      var bound: seq<int> := [];
      var left := seen;
      while left != {}
        invariant Valid() && left <= seen
        invariant best.None? <==> left == seen
        invariant best.Some? ==> best.value in seen - left && bound == RankOf(corpora, best.value)
        invariant best.Some? ==> forall m :: m in seen - left && m != best.value ==>
                                   Less(RankOf(corpora, best.value), RankOf(corpora, m))
        decreases left
      {
        var m :| m in left;
        var rank := Rank(m);
        if best.None? {
          best, bound := Some(m), rank;
        } else {
          RankTrichotomy(corpora, m, best.value);
          if Less(rank, bound) {
            forall x | x in seen - left && x != best.value
              ensures Less(RankOf(corpora, m), RankOf(corpora, x))
            {
              LessTransitive(RankOf(corpora, m), RankOf(corpora, best.value), RankOf(corpora, x));
            }
            best, bound := Some(m), rank;
          }
        }
        left := left - {m};
      }
    }

    /** `anchor`: every corpus is asked, and the least rank wins. */
    method AnchorAt(oid: seq<int>) returns (r: Result<Option<string>, OidKey.CodecError>)
      requires Valid()
      modifies this
      ensures Valid()
      ensures r.Ok? <==> oid != [] && OidKey.Arcs(oid)
      ensures r.Ok? ==> BestAnchor(corpora, oid, r.value)
    {
      var seen: set<string> := {};
      for i := 0 to |corpora|
        invariant Valid()
        invariant i > 0 ==> oid != [] && OidKey.Arcs(oid)
        invariant i > 0 ==> forall m :: m in seen <==> exists k :: 0 <= k < i && Anchor(corpora[k], oid) == Some(m)
        invariant i == 0 ==> seen == {}
      {
        var key := OidKey.EncodeOid(oid);
        match key {
          case Err(e) => return Err(e);
          case Ok(k) =>
            if k in corpora[i].index {
              seen := seen + {corpora[i].index[k]};
            }
        }
      }
      assert forall m :: m in seen <==> Anchors(corpora, oid, m);
      var best := BestByCorpusRank(seen);
      return Ok(best);
    }

    /** `find_module`: every corpus is asked at each length before an arc is dropped. */
    method FindModule(oid: seq<int>) returns (r: Result<Option<string>, OidKey.CodecError>)
      requires Valid()
      modifies this
      ensures Valid()
      ensures oid == [] ==> r == Ok(None)
      ensures oid != [] ==> (r.Ok? <==> OidKey.Arcs(oid))
      ensures oid != [] && r.Ok? ==> LongestAnchor(corpora, oid, r.value)
    {
      var arcs := oid;
      while arcs != []
        invariant Valid() && arcs <= oid
        invariant arcs != oid ==> OidKey.Arcs(oid)
        invariant OidKey.Arcs(oid) ==> forall s :: LongestAnchor(corpora, oid, s) <==> LongestAnchor(corpora, arcs, s)
        decreases |arcs|
      {
        var found := AnchorAt(arcs);
        match found {
          case Err(e) => return Err(e);
          case Ok(None) => arcs := arcs[..|arcs| - 1];
          case Ok(Some(m)) =>
            assert LongestAnchor(corpora, arcs, Some(m));
            return found;
        }
      }
      return Ok(None);
    }

    /** One corpus's first owned successor, rows it does not answer for stepped over. */
    method StepOver(i: nat, oid: seq<int>) returns (found: Option<Row>)
      requires Valid() && i < |corpora| && OidKey.Arcs(oid)
      modifies this`owners
      ensures Valid() && found == OwnedNext(corpora, i, oid)
    {
      var rows := corpora[i].nodes;
      found := NextRow(rows, oid);
      ghost var left := ArcsAbove(rows, oid);
      if found.Some? {
        AboveIsLess(oid, found.value);
        FewerAbove(rows, oid, found.value);
      }
      while found.Some?
        invariant Valid()
        invariant found.Some? ==> found.value in rows
        invariant found.Some? ==> ArcsAbove(rows, found.value.arcs) < left
        invariant OwnedNext(corpora, i, oid) ==
                  if found.None? || Owned(corpora, i, found.value) then found
                  else OwnedNext(corpora, i, found.value.arcs)
        decreases left
      {
        var owner := Owner(found.value.mod);
        if owner == Some(i) {
          return;
        }
        var at := found.value.arcs;
        left := ArcsAbove(rows, at);
        found := NextRow(rows, at);
        if found.Some? {
          AboveIsLess(at, found.value);
          FewerAbove(rows, at, found.value);
        }
      }
    }

    /** `next_node`, for an OID `oid_key` accepts; it raises for any other. */
    method NextNodeAfter(oid: seq<int>) returns (r: Result<Option<Row>, OidKey.CodecError>)
      requires Valid()
      modifies this
      ensures Valid()
      ensures r.Ok? <==> oid != [] && OidKey.Arcs(oid)
      ensures r.Ok? ==> r.value == NextNode(corpora, oid)
    {
      var encoded := OidKey.EncodeOid(oid);
      if encoded.Err? {
        return Err(encoded.error);
      }
      hide RankOf, OwnerOf, ValidAll, OwnedNext, NextRow, OidKey.Key, Less;
      var best: Option<Row> := None;
      var bound: seq<OidKey.byte> := [];
      for i := 0 to |corpora|
        invariant Valid() && best == NextNodeAmong(corpora, i, oid)
        invariant best.Some? ==> OidKey.Arcs(best.value.arcs) && bound == OidKey.Key(best.value.arcs)
      {
        var found := StepOver(i, oid);
        if found.Some? {
          var key := OidKey.Key(found.value.arcs);
          if best.None? || Less(key, bound) {
            best, bound := found, key;
          }
        }
      }
      return Ok(best);
    }

    /** One corpus's part of a subtree, less the rows it does not answer for. */
    method OwnedRows(i: nat, rows: seq<Row>) returns (kept: seq<Row>)
      requires Valid() && i < |corpora|
      modifies this`owners
      ensures Valid() && kept == Select(rows, IsOwned(corpora, i))
    {
      kept := [];
      ghost var mine := IsOwned(corpora, i);
      for k := 0 to |rows|
        invariant Valid()
        invariant kept + Select(rows[k..], mine) == Select(rows, mine)
      {
        var owner := Owner(rows[k].mod);
        ghost var rest := Select(rows[k + 1..], mine);
        assert rows[k..][1..] == rows[k + 1..];
        if owner == Some(i) {
          assert kept + ([rows[k]] + rest) == kept + [rows[k]] + rest;
          kept := kept + [rows[k]];
        }
      }
    }

    method CollectBelow(root: seq<int>) returns (found: seq<Row>)
      requires Valid() && OidKey.Arcs(root)
      modifies this`owners
      ensures Valid() && found == OwnedBelow(corpora, |corpora|, root)
    {
      hide OwnerOf, OidKey.Arcs, ValidAll, SubtreeOf, Select, RankOf, IsOwned;
      found := [];
      for i := 0 to |corpora|
        invariant Valid() && found == OwnedBelow(corpora, i, root)
      {
        var kept := OwnedRows(i, SubtreeOf(corpora[i], root));
        found := found + kept;
      }
    }

    /** `subtree`: the owned rows of every corpus, merged in `(oid_key, module)` order. */
    method SubtreeAt(root: seq<int>) returns (r: Result<seq<Row>, OidKey.CodecError>)
      requires Valid()
      modifies this
      ensures Valid()
      ensures r.Ok? <==> root != [] && OidKey.Arcs(root)
      ensures r.Ok? ==> r.value == Subtree(corpora, root)
    {
      var encoded := OidKey.EncodeOid(root);
      if encoded.Err? {
        return Err(encoded.error);
      }
      var found := CollectBelow(root);
      return Ok(StableSort(found, RowOrder()));
    }
  }

  lemma RankTrichotomy(cs: seq<Corpus>, a: string, b: string)
    ensures a == b || Less(RankOf(cs, a), RankOf(cs, b)) || Less(RankOf(cs, b), RankOf(cs, a))
  {
    LessTotal(RankOf(cs, a), RankOf(cs, b));
    if RankOf(cs, a) == RankOf(cs, b) {
      RankInjective(cs, a, b);
    }
  }
}
