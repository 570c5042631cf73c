/** Choosing between several copies of one module: the builder's ordered candidates
    (`MibBuilder._candidates`), the corpora's `best_by_revision`, and the number
    `revision_rank` turns a stamp into. */
module Revision {
  import opened Wrappers
  import opened Lex

  /** One copy and the newest revision it states, if it states one. */
  datatype Copy<T> = Copy(payload: T, revision: Option<string>)

  function Codes(s: string): (r: seq<int>)
    ensures |r| == |s|
  {
    seq(|s|, i requires 0 <= i < |s| => s[i] as int)
  }

  /** Python's truth of a revision: neither `None` nor the empty string. */
  predicate Dated<T>(c: Copy<T>) {
    c.revision.Some? && c.revision.value != ""
  }

  function Stamp<T>(c: Copy<T>): string {
    if c.revision.Some? then c.revision.value else ""
  }

  predicate Newer<T>(a: Copy<T>, b: Copy<T>) {
    Less(Codes(Stamp(b)), Codes(Stamp(a)))
  }

  /** Revisions decide only when every copy states one and they are not all the same. */
  predicate RevisionsDecide<T>(copies: seq<Copy<T>>) {
    && (forall i :: 0 <= i < |copies| ==> Dated(copies[i]))
    && exists i, j :: 0 <= i < j < |copies| && copies[i].revision != copies[j].revision
  }

  lemma CodesInjective(a: string, b: string)
    requires Codes(a) == Codes(b)
    ensures a == b
  {
    forall i | 0 <= i < |a| ensures a[i] == b[i] {
      assert Codes(a)[i] == Codes(b)[i];
    }
  }

  lemma NewerIsWeakOrder<T(!new)>()
    ensures WeakOrder((a: Copy<T>, b: Copy<T>) => Newer(a, b))
  {
    forall a: Copy<T>, b: Copy<T> ensures !Newer(a, a) && (Newer(a, b) ==> !Newer(b, a)) {
      NotBelowItself(Codes(Stamp(a)));
      if Newer(a, b) {
        LessAsymmetric(Codes(Stamp(b)), Codes(Stamp(a)));
      }
    }
    forall a: Copy<T>, b: Copy<T>, c: Copy<T> | !Newer(b, a) && !Newer(c, b) ensures !Newer(c, a) {
      NotLessTransitive(Codes(Stamp(c)), Codes(Stamp(b)), Codes(Stamp(a)));
    }
  }

  // ------------------------------------------------------- best_by_revision

  /** `max(...)` keeps the first of the newest. */
  function BestByRevision<T>(copies: seq<Copy<T>>): Option<T> {
    if copies == [] then None
    else if !RevisionsDecide(copies) then Some(copies[0].payload)
    else Some(copies[FirstBest(copies, (a: Copy<T>, b: Copy<T>) => Newer(a, b))].payload)
  }

  /** What the choice means, for every list: configured order unless the revisions
      decide; then nothing is newer, and everything configured earlier is older. */
  lemma BestIsNewestThenFirst<T(!new)>(copies: seq<Copy<T>>) returns (i: nat)
    requires copies != []
    ensures i < |copies| && BestByRevision(copies) == Some(copies[i].payload)
    ensures !RevisionsDecide(copies) ==> i == 0
    ensures RevisionsDecide(copies) ==>
              && (forall j :: 0 <= j < |copies| ==> !Newer(copies[j], copies[i]))
              && (forall j :: 0 <= j < i ==> Newer(copies[i], copies[j]))
  {
    var newer := (a: Copy<T>, b: Copy<T>) => Newer(a, b);
    NewerIsWeakOrder<T>();
    i := 0;
    if RevisionsDecide(copies) {
      FirstBestIsFirstBest(copies, newer);
      i := FirstBest(copies, newer);
      assert forall j :: 0 <= j < |copies| ==> !newer(copies[j], copies[i]);
      assert forall j :: 0 <= j < i ==> newer(copies[i], copies[j]);
    }
  }

  // ----------------------------------------------------------- _candidates

  /** What a source answers: code with its revision, or `OSError`. */
  type Source<T> = Option<Copy<T>>

  function Found<T>(sources: seq<Source<T>>): (r: seq<Copy<T>>)
    ensures |r| <= |sources|
  {
    if sources == [] then []
    else
      var rest := Found(sources[..|sources| - 1]);
      match sources[|sources| - 1]
      case None => rest
      case Some(copy) => rest + [copy]
  }

  /** How many of the first `n` sources answered. */
  function Answering<T>(sources: seq<Source<T>>, n: nat): nat
    requires n <= |sources|
  {
    if n == 0 then 0 else Answering(sources, n - 1) + if sources[n - 1].Some? then 1 else 0
  }

  /** The candidates are the copies of the sources that answered, all of them and no others,
      each behind as many as answered before it. */
  lemma {:induction false} FoundInOrder<T>(sources: seq<Source<T>>)
    ensures |Found(sources)| == Answering(sources, |sources|)
    ensures forall i :: 0 <= i < |sources| && sources[i].Some? ==>
              Answering(sources, i) < |Found(sources)| && Found(sources)[Answering(sources, i)] == sources[i].value
  {
    if sources != [] {
      var n := |sources| - 1;
      FoundInOrder(sources[..n]);
      forall i | 0 <= i <= n
        ensures Answering(sources[..n], i) == Answering(sources, i)
      {
        AnsweringPrefix(sources, n, i);
      }
      forall i | 0 <= i < n && sources[i].Some?
        ensures Answering(sources, i) < |Found(sources)|
        ensures Found(sources)[Answering(sources, i)] == sources[i].value
      {
        assert sources[..n][i] == sources[i];
      }
    }
  }

  lemma {:induction false} AnsweringPrefix<T>(sources: seq<Source<T>>, n: nat, i: nat)
    requires i <= n <= |sources|
    ensures Answering(sources[..n], i) == Answering(sources, i)
  {
    if i > 0 {
      AnsweringPrefix(sources, n, i - 1);
    }
  }

  /** `sorted(..., reverse=True)`, which keeps equal revisions in source order. */
  function Ordered<T>(copies: seq<Copy<T>>): (r: seq<Copy<T>>)
    ensures multiset(r) == multiset(copies)
  {
    if |copies| < 2 || !RevisionsDecide(copies) then copies
    else StableSort(copies, (a: Copy<T>, b: Copy<T>) => Newer(a, b))
  }

  method Candidates<T>(sources: seq<Source<T>>) returns (ordered: seq<Copy<T>>)
    ensures ordered == Ordered(Found(sources))
  {
    var candidates: seq<Copy<T>> := [];
    for i := 0 to |sources|
      invariant candidates == Found(sources[..i])
    {
      assert sources[..i + 1][..i] == sources[..i];
      match sources[i]
      case None =>
      case Some(copy) => candidates := candidates + [copy];
    }
    assert sources[..|sources|] == sources;
    if |candidates| < 2 {
      return candidates;
    }
    if !RevisionsDecide(candidates) {
      return candidates;
    }
    return StableSort(candidates, (a: Copy<T>, b: Copy<T>) => Newer(a, b));
  }

  /** The builder and the corpora pick the same copy from every list of candidates. */
  lemma BuilderAndCorpusAgree<T(!new)>(copies: seq<Copy<T>>)
    ensures BestByRevision(copies) ==
            if copies == [] then None else Some(Ordered(copies)[0].payload)
  {
    if copies != [] && RevisionsDecide(copies) {
      NewerIsWeakOrder<T>();
      StableSortHead(copies, (a: Copy<T>, b: Copy<T>) => Newer(a, b));
    }
  }

  /** ... and the builder tries the rest newest first, copies stating one revision in
      source order. */
  lemma CandidatesNewestFirst<T(!new)>(copies: seq<Copy<T>>, revision: string)
    requires RevisionsDecide(copies)
    ensures SortedBy(Ordered(copies), (a: Copy<T>, b: Copy<T>) => Newer(a, b))
    ensures var stating := (c: Copy<T>) => Stamp(c) == revision;
            Select(Ordered(copies), stating) == Select(copies, stating)
  {
    var newer := (a: Copy<T>, b: Copy<T>) => Newer(a, b);
    NewerIsWeakOrder<T>();
    StableSortSorts(copies, newer);
    forall a: Copy<T>, b: Copy<T> | Stamp(a) == Stamp(b) ensures !newer(a, b) {
      NotBelowItself(Codes(Stamp(a)));
    }
    StableSortKeepsClass(copies, newer, (c: Copy<T>) => Stamp(c) == revision);
  }

  // -------------------------------------------------------- revision_rank

  predicate AllDigits(s: string) {
    s != "" && forall i :: 0 <= i < |s| ==> '0' <= s[i] <= '9'
  }

  function Decimal(s: string): nat
    requires forall i :: 0 <= i < |s| ==> '0' <= s[i] <= '9'
  {
    if s == "" then 0 else 10 * Decimal(s[..|s| - 1]) + Digit(s[|s| - 1])
  }

  function Digit(c: char): nat
    requires '0' <= c <= '9'
  {
    c as int - '0' as int
  }

  function Head(s: string): string {
    if |s| <= 12 then s else s[..12]
  }

  function RevisionRank(revision: Option<string>): int {
    if revision.None? || revision.value == "" || !AllDigits(Head(revision.value)) then 0
    else
      var stamp: int := Decimal(Head(revision.value));
      -stamp
  }

  /** `YYYYMMDDHHMM` and a `Z`. */
  predicate WellFormed(s: string) {
    |s| == 13 && AllDigits(s[..12]) && s[12] == 'Z'
  }

  lemma {:induction false} DecimalOrder(a: string, b: string)
    requires |a| == |b|
    requires forall i :: 0 <= i < |a| ==> '0' <= a[i] <= '9' && '0' <= b[i] <= '9'
    ensures Decimal(a) < Decimal(b) <==> Less(Codes(a), Codes(b))
    ensures Decimal(a) == Decimal(b) <==> a == b
  {
    hide Less, Codes;
    if a == "" {
      NotBelowItself(Codes(a));
    } else {
      var n := |a| - 1;
      var a', b' := a[..n], b[..n];
      DecimalOrder(a', b');
      LastCodeDecides(a, b);
      assert a == a' + [a[n]] && b == b' + [b[n]];
      LastDigitDecides(Decimal(a'), Decimal(b'), a[n], b[n]);
    }
  }

  lemma LastDigitDecides(x: nat, y: nat, c: char, d: char)
    requires '0' <= c <= '9' && '0' <= d <= '9'
    ensures 10 * x + Digit(c) < 10 * y + Digit(d) <==> x < y || (x == y && c < d)
    ensures 10 * x + Digit(c) == 10 * y + Digit(d) <==> x == y && c == d
  {
  }

  lemma LastCodeDecides(a: string, b: string)
    requires |a| == |b| > 0
    ensures var n := |a| - 1;
            Less(Codes(a), Codes(b)) <==>
            if a[..n] == b[..n] then a[n] < b[n] else Less(Codes(a[..n]), Codes(b[..n]))
  {
    var n := |a| - 1;
    var a', b' := a[..n], b[..n];
    assert Codes(a) == Codes(a') + [a[n] as int] && Codes(b) == Codes(b') + [b[n] as int];
    if a' == b' {
      LessAfterPrefix(Codes(a'), [a[n] as int], [b[n] as int]);
    } else {
      if Codes(a') == Codes(b') {
        CodesInjective(a', b');
      }
      LessSameLength(Codes(a'), Codes(b'), [a[n] as int], [b[n] as int]);
    }
  }

  /** Two different strings of one length are ordered before their ends. */
  lemma {:induction false} LessSameLength(a: seq<int>, b: seq<int>, s: seq<int>, t: seq<int>)
    requires |a| == |b|
    ensures a != b ==> (Less(a + s, b + t) <==> Less(a, b))
  {
    if a != [] && a[0] == b[0] {
      LessSameLength(a[1..], b[1..], s, t);
      assert (a + s)[1..] == a[1..] + s && (b + t)[1..] == b[1..] + t;
      assert a == [a[0]] + a[1..] && b == [b[0]] + b[1..];
    }
  }

  /** On well-formed stamps the rank runs exactly opposite to the order both
      selection rules compare revisions by. */
  lemma RankOpposesStringOrder(a: string, b: string)
    requires WellFormed(a) && WellFormed(b)
    ensures RevisionRank(Some(a)) < RevisionRank(Some(b)) <==> Less(Codes(b), Codes(a))
    ensures RevisionRank(Some(a)) == RevisionRank(Some(b)) <==> a == b
  {
    var a', b' := a[..12], b[..12];
    assert a == a' + "Z" && b == b' + "Z";
    assert Codes(a) == Codes(a') + ['Z' as int] && Codes(b) == Codes(b') + ['Z' as int];
    DecimalOrder(b', a');
    if Codes(a') == Codes(b') {
      CodesInjective(a', b');
    }
    if a' != b' {
      LessSameLength(Codes(b'), Codes(a'), ['Z' as int], ['Z' as int]);
    } else {
      NotBelowItself(Codes(a));
    }
  }

  /** An undated module ranks after every module stating a date other than all zeros. */
  lemma UndatedRanksLast(stamp: string)
    requires WellFormed(stamp)
    ensures RevisionRank(Some(stamp)) < RevisionRank(None) <==> stamp[..12] != "000000000000"
  {
    var zero := "000000000000";
    assert Decimal(zero) == 0 by {
      ZerosAreZero(zero);
    }
    DecimalOrder(stamp[..12], zero);
  }

  lemma {:induction false} ZeroIsZeros(s: string)
    requires forall i :: 0 <= i < |s| ==> '0' <= s[i] <= '9'
    ensures Decimal(s) == 0 <==> forall i :: 0 <= i < |s| ==> s[i] == '0'
  {
    if s != "" {
      var n := |s| - 1;
      ZeroIsZeros(s[..n]);
      assert (forall i :: 0 <= i < |s| ==> s[i] == '0')
             <==> (forall i :: 0 <= i < n ==> s[..n][i] == '0') && s[n] == '0';
    }
  }

  /** Which revisions count as none: those whose first twelve characters, or all of them where
      there are fewer, are not digits or are zeros. */
  lemma RanksAsUndatedIff(stamp: string)
    ensures RevisionRank(Some(stamp)) == RevisionRank(None)
            <==> (exists i :: 0 <= i < |stamp| && i < 12 && !('0' <= stamp[i] <= '9'))
                 || (forall i :: 0 <= i < |stamp| && i < 12 ==> stamp[i] == '0')
  {
    if stamp != "" && AllDigits(Head(stamp)) {
      ZeroIsZeros(Head(stamp));
    }
    assert forall i :: 0 <= i < |Head(stamp)| ==> Head(stamp)[i] == stamp[i];
  }

  lemma {:induction false} ZerosAreZero(s: string)
    requires forall i :: 0 <= i < |s| ==> s[i] == '0'
    ensures Decimal(s) == 0
  {
    if s != "" {
      ZerosAreZero(s[..|s| - 1]);
    }
  }
}
