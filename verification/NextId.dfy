/** The handle generator, `nextid.Integer`: a bank of consecutive numbers, refilled
    half a bank at a time, that starts again from zero past its maximum. */
module NextId {

  /** `maximum`, the half-bank `threshold`, the size of the first bank and its first value. */
  datatype Config = Config(maximum: nat, increment: nat, start: nat) {
    predicate Valid() {
      2 <= increment < maximum && start < maximum - increment
    }

    function Threshold(): nat { increment / 2 }
  }

  /** One past the last number of the run that starts at `e` and grows by whole
      half-banks until it passes the maximum. */
  function RunEnd(c: Config, e: nat): (end: nat)
    requires c.Valid()
    ensures e <= end && c.maximum < end
    ensures e <= c.maximum + c.Threshold() ==> end <= c.maximum + c.Threshold()
    decreases if e <= c.maximum then c.maximum + 1 - e else 0
  {
    if e > c.maximum then e else RunEnd(c, e + c.Threshold())
  }

  function FirstEnd(c: Config): nat
    requires c.Valid()
  {
    RunEnd(c, c.start + c.increment)
  }

  function Period(c: Config): (p: nat)
    requires c.Valid()
    ensures c.maximum < p <= c.maximum + c.Threshold()
  {
    RunEnd(c, 0)
  }

  /** Where step `a` of a cycle of `p` numbers lands, going round and round from zero. */
  function Lap(a: nat, p: nat): (r: nat)
    requires 0 < p
    ensures r < p
  {
    if a < p then a else Lap(a - p, p)
  }

  /** The number issued by call `i`, counting from zero: the rest of the first run,
      then lap after lap from zero. */
  function Issued(c: Config, i: nat): (v: nat)
    requires c.Valid()
    ensures v < c.maximum + c.Threshold()
  {
    var first := FirstEnd(c) - c.start;
    if i < first then c.start + i else Lap(i - first, Period(c))
  }

  /** The values count up from the start and go back to zero only past the maximum. */
  lemma IssuedCounts(c: Config, i: nat)
    requires c.Valid()
    ensures Issued(c, 0) == c.start
    ensures Issued(c, i + 1) == Issued(c, i) + 1 || (c.maximum <= Issued(c, i) && Issued(c, i + 1) == 0)
  {
    var first := FirstEnd(c) - c.start;
    if first <= i {
      LapStep(i - first, 1, Period(c));
      assert i - first + 1 == i + 1 - first;
    }
  }

  /** Any `maximum + 1` consecutive values are pairwise distinct, wraps included. */
  lemma ConsecutiveValuesDistinct(c: Config, i: nat, j: nat)
    requires c.Valid()
    requires i < j <= i + c.maximum
    ensures Issued(c, i) != Issued(c, j)
  {
    var first := FirstEnd(c) - c.start;
    if first <= i {
      LapsDiffer(i - first, j - first, Period(c));
    }
  }

  lemma {:induction false} LapsDiffer(a: nat, b: nat, p: nat)
    requires a < b < a + p
    ensures Lap(a, p) != Lap(b, p)
  {
    if a >= p {
      LapsDiffer(a - p, b - p, p);
    }
  }

  lemma {:induction false} LapStep(a: nat, j: nat, p: nat)
    requires 0 < p && Lap(a, p) + j <= p
    ensures Lap(a + j, p) == if Lap(a, p) + j == p then 0 else Lap(a, p) + j
  {
    if a >= p {
      LapStep(a - p, j, p);
    }
  }

  /** Call `p` is where a half-bank begins. */
  ghost predicate Boundary(c: Config, p: nat)
    requires c.Valid()
  {
    var first := FirstEnd(c) - c.start;
    if p < first then RunEnd(c, c.start + p) == FirstEnd(c)
    else RunEnd(c, Lap(p - first, Period(c))) == Period(c)
  }

  /** A half-bank begun at `q` of a lap stays in that lap. */
  lemma AfterWrap(c: Config, p: nat, q: nat)
    requires c.Valid() && FirstEnd(c) - c.start <= p && Boundary(c, p)
    requires q == Lap(p - (FirstEnd(c) - c.start), Period(c)) && q <= c.maximum
    ensures forall x :: p <= x < p + c.Threshold() ==> Issued(c, x) == q + (x - p)
    ensures Boundary(c, p + c.Threshold())
  {
    var first, period, t := FirstEnd(c) - c.start, Period(c), c.Threshold();
    assert q + t <= period;
    forall x | p <= x < p + t ensures Issued(c, x) == q + (x - p) {
      LapStep(p - first, x - p, period);
      assert x - first == (p - first) + (x - p);
    }
    LapStep(p - first, t, period);
    assert p + t - first == (p - first) + t;
  }

  /** The half-bank a refill appends is the next `threshold` values of the cycle,
      and it ends where the next half-bank begins. */
  lemma RefillContinues(c: Config, p: nat)
    requires c.Valid() && 0 < p && Boundary(c, p)
    ensures var last := Issued(c, p - 1);
            var e := if last + 1 > c.maximum then 0 else last + 1;
            forall x :: p <= x < p + c.Threshold() ==> Issued(c, x) == e + (x - p)
    ensures Boundary(c, p + c.Threshold())
  {
    var first := FirstEnd(c) - c.start;
    if p >= first {
      var q := Lap(p - first, Period(c));
      if p > first {
        LapStep(p - 1 - first, 1, Period(c));
      }
      AfterWrap(c, p, q);
    } else {
      assert c.start + p + c.Threshold() <= FirstEnd(c);
    }
  }

  /** The bank is the next stretch of the cycle, up to a half-bank boundary, and
      when the next refill comes due something is still behind it. */
  ghost predicate BankOk(c: Config, issued: nat, bank: seq<nat>)
    requires c.Valid()
  {
    && (forall k :: 0 <= k < |bank| ==> bank[k] == Issued(c, issued + k))
    && Boundary(c, issued + |bank|)
    && exists k :: 0 <= k < |bank| - 1 && bank[k] % c.Threshold() == 0
  }

  function Block(e: nat, n: nat): (r: seq<nat>)
    ensures |r| == n && forall i :: 0 <= i < n ==> r[i] == e + i
  {
    seq(n, i requires 0 <= i < n => e + i)
  }

  lemma MultipleAbove(e: nat, t: nat)
    requires 0 < t && e % t != 0
    ensures (e + (t - e % t)) % t == 0
    ensures e % t == 1 ==> (e - 1) % t == 0
  {
    var k := e / t;
    assert e == t * k + e % t && e + (t - e % t) == t * (k + 1);
    ExactMultiple(t, k + 1);
    ExactMultiple(t, k);
  }

  lemma ExactMultiple(t: nat, k: nat)
    requires 0 < t
    ensures (t * k) % t == 0
  {
    var d := k - (t * k) / t;
    assert t * d == (t * k) % t;
    OneMultipleIsWide(t, d);
  }

  lemma OneMultipleIsWide(t: nat, d: int)
    ensures (d >= 1 ==> t * d >= t) && (d <= 0 ==> t * d <= 0)
  {
  }

  /** The next multiple of `t` at or above `e` is less than `t` away. */
  lemma NextMultiple(e: nat, t: nat) returns (d: nat)
    requires 0 < t
    ensures d < t && (e + d) % t == 0 && (d == t - 1 && 0 < e ==> (e - 1) % t == 0)
  {
    if e % t == 0 {
      d := 0;
    } else {
      d := t - e % t;
      MultipleAbove(e, t);
    }
  }

  lemma FirstBankOk(c: Config)
    requires c.Valid()
    ensures BankOk(c, 0, Block(c.start, c.increment))
  {
    var bank := Block(c.start, c.increment);
    var d := NextMultiple(c.start, c.Threshold());
    assert bank[d] % c.Threshold() == 0 && d < |bank| - 1;
  }

  lemma PopKeepsBankOk(c: Config, issued: nat, bank: seq<nat>)
    requires c.Valid() && BankOk(c, issued, bank) && bank[0] % c.Threshold() != 0
    ensures BankOk(c, issued + 1, bank[1..])
  {
    var k :| 0 <= k < |bank| - 1 && bank[k] % c.Threshold() == 0;
    assert bank[1..][k - 1] % c.Threshold() == 0;
    forall x | 0 <= x < |bank[1..]| ensures bank[1..][x] == Issued(c, issued + 1 + x) {
      assert bank[1..][x] == bank[x + 1];
    }
  }

  lemma RefillIssues(c: Config, issued: nat, bank: seq<nat>, e: nat)
    requires c.Valid() && BankOk(c, issued, bank)
    requires e == if bank[|bank| - 1] + 1 > c.maximum then 0 else bank[|bank| - 1] + 1
    ensures var next := bank[1..] + Block(e, c.Threshold());
            && (forall k :: 0 <= k < |next| ==> next[k] == Issued(c, issued + 1 + k))
            && Boundary(c, issued + 1 + |next|)
  {
    var p, t := issued + |bank|, c.Threshold();
    var next := bank[1..] + Block(e, t);
    RefillContinues(c, p);
    forall x | 0 <= x < |next| ensures next[x] == Issued(c, issued + 1 + x) {
      if x < |bank| - 1 {
        assert next[x] == bank[x + 1];
      } else {
        assert next[x] == e + (x - (|bank| - 1));
        assert issued + 1 + x == p + (x - (|bank| - 1));
      }
    }
  }

  lemma RefillLeavesMore(rest: seq<nat>, e: nat, t: nat) returns (k: nat)
    requires rest != [] && 0 < t
    requires e == 0 || e == rest[|rest| - 1] + 1
    ensures var next := rest + Block(e, t); k < |next| - 1 && next[k] % t == 0
  {
    var next := rest + Block(e, t);
    var d := NextMultiple(e, t);
    if d < t - 1 {
      k := |rest| + d;
      assert next[k] == e + d;
    } else if e > 0 {
      k := |rest| - 1;
      assert next[k] == e - 1;
    } else {
      k := |rest| - 1;
      assert t == 1 by {
        assert d % t == d;
      }
    }
  }

  lemma RefillKeepsBankOk(c: Config, issued: nat, bank: seq<nat>, e: nat)
    requires c.Valid() && BankOk(c, issued, bank)
    requires e == if bank[|bank| - 1] + 1 > c.maximum then 0 else bank[|bank| - 1] + 1
    ensures BankOk(c, issued + 1, bank[1..] + Block(e, c.Threshold()))
  {
    RefillIssues(c, issued, bank, e);
    var k := RefillLeavesMore(bank[1..], e, c.Threshold());
  }

  /** A Python object whose bank is popped and extended on each call. */
  class Integer {
    const maximum: nat
    const threshold: nat
    var bank: seq<nat>
    ghost const config: Config
    ghost var issued: nat  // calls answered so far

    ghost predicate Valid()
      reads this
    {
      && config.Valid() && maximum == config.maximum && threshold == config.Threshold()
      && BankOk(config, issued, bank)
    }

    /** `start` is what `secrets.randbelow` drew. */
    constructor (maximum: nat, increment: nat, start: nat)
      requires Config(maximum, increment, start).Valid()
      ensures Valid() && issued == 0 && config == Config(maximum, increment, start)
    {
      this.maximum, this.threshold := maximum, increment / 2;
      bank := Block(start, increment);
      config, issued := Config(maximum, increment, start), 0;
      FirstBankOk(Config(maximum, increment, start));
    }

    /** `__call__`: pop the head, and when it is a multiple of the threshold extend
        the tail. Indexing the bank here is the proof that it is never empty. */
    method Next() returns (v: nat)
      requires Valid()
      modifies this
      ensures Valid() && issued == old(issued) + 1
      ensures v == Issued(config, old(issued)) && v < maximum + threshold
    {
      hide Issued, Boundary, FirstEnd, Period;
      v := bank[0];
      if v % threshold != 0 {
        PopKeepsBankOk(config, issued, bank);
        bank, issued := bank[1..], issued + 1;
      } else {
        var rest := bank[1..];
        var e := rest[|rest| - 1] + 1;
        if e > maximum {
          e := 0;
        }
        RefillKeepsBankOk(config, issued, bank, e);
        bank, issued := rest + Block(e, threshold), issued + 1;
      }
    }
  }
}
