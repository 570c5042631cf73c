/** `oid_key`, `oid_from_key` and `subtree_bound`: the byte codec a corpus is indexed by. */
module OidKey {
  import opened Wrappers
  import opened Lex

  const MAX_ARC := 0xFFFF_FFFF

  type byte = b: int | 0 <= b < 256

  datatype CodecError = EmptyOid | ArcOutOfRange(arc: int) | Truncated(at: nat) | EmptyKey

  predicate Arcs(oid: seq<int>) {
    forall i :: 0 <= i < |oid| ==> 0 <= oid[i] <= MAX_ARC
  }

  // ------------------------------------------------------------- one arc

  /** `int.bit_length` of a natural number. */
  function BitLength(n: nat): nat {
    if n == 0 then 0 else 1 + BitLength(n / 2)
  }

  /** `max(1, (arc.bit_length() + 7) // 8)`, counted a byte at a time. */
  function Width(n: nat): (w: nat)
    ensures w >= 1
  {
    if n < 256 then 1 else 1 + Width(n / 256)
  }

  function Pow256(w: nat): (p: nat)
    ensures p > 0
  {
    if w == 0 then 1 else 256 * Pow256(w - 1)
  }

  /** `int.to_bytes(w, "big")`. */
  function BigEndian(n: nat, w: nat): (s: seq<byte>)
    ensures |s| == w
  {
    if w == 0 then [] else BigEndian(n / 256, w - 1) + [n % 256]
  }

  /** `int.from_bytes(s, "big")`. */
  function FromBigEndian(s: seq<byte>): nat {
    if s == [] then 0 else FromBigEndian(s[..|s| - 1]) * 256 + s[|s| - 1]
  }

  function ArcKey(n: nat): seq<byte>
    requires n <= MAX_ARC
  {
    WidthAtMost(n, 4);
    [Width(n)] + BigEndian(n, Width(n))
  }

  lemma {:induction false} WidthFromBits(n: nat)
    ensures Width(n) == if n == 0 then 1 else (BitLength(n) + 7) / 8
    decreases n
  {
    EightBits(n);
    if n >= 256 {
      WidthFromBits(n / 256);
    }
  }

  lemma EightBits(n: nat)
    ensures n >= 256 ==> BitLength(n) == 8 + BitLength(n / 256) && BitLength(n / 256) >= 1
    ensures 0 < n < 256 ==> 1 <= BitLength(n) <= 8
  {
    FourBits(n);
    FourBits(n / 16);
    assert n / 16 / 16 == n / 256;
  }

  lemma FourBits(n: nat)
    ensures n >= 16 ==> BitLength(n) == 4 + BitLength(n / 16)
    ensures n < 16 ==> BitLength(n) <= 4
  {
    assert n / 2 / 2 / 2 / 2 == n / 16;
    assert BitLength(n / 2 / 2) == if n / 2 / 2 == 0 then 0 else 1 + BitLength(n / 2 / 2 / 2);
    assert BitLength(n / 2 / 2 / 2) ==
           if n / 2 / 2 / 2 == 0 then 0 else 1 + BitLength(n / 2 / 2 / 2 / 2);
  }

  /** The width byte is the least width that holds the arc. */
  lemma {:induction false} WidthIsLeast(n: nat)
    ensures n < Pow256(Width(n))
    ensures Width(n) > 1 ==> Pow256(Width(n) - 1) <= n
    decreases n
  {
    if n >= 256 {
      WidthIsLeast(n / 256);
    } else {
      assert Pow256(1) == 256 * Pow256(0);
    }
  }

  lemma {:induction false} Pow256Grows(a: nat, b: nat)
    requires a <= b
    ensures Pow256(a) <= Pow256(b)
    decreases b
  {
    if a < b {
      Pow256Grows(a, b - 1);
    }
  }

  lemma WidthAtMost(n: nat, w: nat)
    requires n < Pow256(w) || (w == 4 && n <= MAX_ARC)
    requires w >= 1
    ensures Width(n) <= w
  {
    if w == 4 {
      assert Pow256(4) == 256 * (256 * (256 * (256 * 1)));
    }
    WidthIsLeast(n);
    if Width(n) > w {
      Pow256Grows(w, Width(n) - 1);
    }
  }

  lemma {:induction false} BigEndianRoundTrip(n: nat, w: nat)
    requires n < Pow256(w)
    ensures FromBigEndian(BigEndian(n, w)) == n
  {
    if w > 0 {
      BigEndianRoundTrip(n / 256, w - 1);
      assert BigEndian(n, w)[..w - 1] == BigEndian(n / 256, w - 1);
    }
  }

  lemma {:induction false} FromBigEndianRoundTrip(s: seq<byte>)
    ensures BigEndian(FromBigEndian(s), |s|) == s
  {
    if s != [] {
      var init, last := s[..|s| - 1], s[|s| - 1];
      FromBigEndianRoundTrip(init);
      ByteSplit(FromBigEndian(init), last);
      assert s == init + [last];
    }
  }

  lemma ByteSplit(n: nat, b: byte)
    ensures (n * 256 + b) / 256 == n && (n * 256 + b) % 256 == b
  {
  }

  /** A number read from `|s|` bytes needs all of them exactly when the first is not zero. */
  lemma {:induction false} FromBigEndianRange(s: seq<byte>)
    ensures FromBigEndian(s) < Pow256(|s|)
    ensures s != [] ==> (s[0] != 0 <==> Pow256(|s| - 1) <= FromBigEndian(s))
  {
    if s != [] {
      FromBigEndianRange(s[..|s| - 1]);
    }
  }

  lemma LessExtends(a: seq<int>, b: seq<int>, s: seq<int>, t: seq<int>)
    requires |a| == |b| && Less(a, b)
    ensures Less(a + s, b + t)
  {
    assert (a + s)[1..] == a[1..] + s && (b + t)[1..] == b[1..] + t;
    if a[0] == b[0] {
      LessExtends(a[1..], b[1..], s, t);
    }
  }

  lemma {:induction false} BigEndianOrder(x: nat, y: nat, w: nat)
    requires x < y < Pow256(w)
    ensures Less(BigEndian(x, w), BigEndian(y, w))
  {
    if x / 256 < y / 256 {
      BigEndianOrder(x / 256, y / 256, w - 1);
      LessExtends(BigEndian(x / 256, w - 1), BigEndian(y / 256, w - 1), [x % 256], [y % 256]);
    } else {
      LessAfterPrefix(BigEndian(x / 256, w - 1), [x % 256], [y % 256]);
    }
  }

  /** A smaller arc sorts first, whatever follows either of them. */
  lemma ArcKeyOrder(x: nat, y: nat, s: seq<int>, t: seq<int>)
    requires x < y <= MAX_ARC
    ensures Less(ArcKey(x) + s, ArcKey(y) + t)
  {
    WidthIsLeast(x);
    WidthIsLeast(y);
    var a, b := ArcKey(x), ArcKey(y);
    if Width(x) > Width(y) {
      Pow256Grows(Width(y), Width(x) - 1);
    } else if Width(x) == Width(y) {
      BigEndianOrder(x, y, Width(y));
      LessAfterPrefix([Width(x)], BigEndian(x, Width(x)), BigEndian(y, Width(y)));
      LessExtends(a, b, s, t);
    }
  }

  // ----------------------------------------------------------- whole OIDs

  function Key(oid: seq<int>): seq<byte>
    requires Arcs(oid)
  {
    if oid == [] then [] else ArcKey(oid[0]) + Key(oid[1..])
  }

  lemma {:induction false} KeyAppend(oid: seq<int>, more: seq<int>)
    requires Arcs(oid) && Arcs(more)
    ensures Arcs(oid + more) && Key(oid + more) == Key(oid) + Key(more)
  {
    hide ArcKey;
    if oid == [] {
      assert oid + more == more;
    } else {
      KeyAppend(oid[1..], more);
      var both, head := oid + more, ArcKey(oid[0]);
      assert both[0] == oid[0] && both[1..] == oid[1..] + more;
      assert forall i :: 0 <= i < |both| ==> both[i] == if i < |oid| then oid[i] else more[i - |oid|];
      assert head + (Key(oid[1..]) + Key(more)) == head + Key(oid[1..]) + Key(more);
    }
  }

  /** Byte order of the keys is numeric order of the OIDs. */
  lemma {:induction false} KeyEmbedsOrder(a: seq<int>, b: seq<int>)
    requires Arcs(a) && Arcs(b)
    ensures Less(Key(a), Key(b)) <==> Less(a, b)
  {
    if a != [] && b != [] {
      if a[0] == b[0] {
        KeyEmbedsOrder(a[1..], b[1..]);
        LessAfterPrefix(ArcKey(a[0]), Key(a[1..]), Key(b[1..]));
      } else if a[0] < b[0] {
        ArcKeyOrder(a[0], b[0], Key(a[1..]), Key(b[1..]));
      } else {
        ArcKeyOrder(b[0], a[0], Key(b[1..]), Key(a[1..]));
        NotBoth(Key(a), Key(b));
      }
    }
  }

  lemma KeyInjective(a: seq<int>, b: seq<int>)
    requires Arcs(a) && Arcs(b) && Key(a) == Key(b)
    ensures a == b
  {
    LessTotal(a, b);
    KeyEmbedsOrder(a, b);
    KeyEmbedsOrder(b, a);
    NotBoth(Key(a), Key(b));
  }

  /** One key is a byte prefix of another exactly when the OID is a prefix. */
  lemma {:induction false} KeyEmbedsPrefix(a: seq<int>, b: seq<int>)
    requires Arcs(a) && Arcs(b)
    ensures Key(a) <= Key(b) <==> a <= b
  {
    if a <= b {
      assert b == a + b[|a|..];
      KeyAppend(a, b[|a|..]);
    } else if Key(a) <= Key(b) {
      PrefixOfKey(a, b);
    }
  }

  lemma {:induction false} PrefixOfKey(a: seq<int>, b: seq<int>)
    requires Arcs(a) && Arcs(b) && Key(a) <= Key(b)
    ensures a <= b
  {
    if a != [] {
      ArcKeyPrefixFree(a[0], b[0], Key(a[1..]), Key(b[1..]));
      PrefixOfKey(a[1..], b[1..]);
      assert a == [a[0]] + a[1..] && b == [b[0]] + b[1..];
    }
  }

  lemma ArcKeyPrefixFree(x: nat, y: nat, s: seq<byte>, t: seq<byte>)
    requires x <= MAX_ARC && y <= MAX_ARC && ArcKey(x) + s <= ArcKey(y) + t
    ensures x == y && s <= t
  {
    hide Width, BigEndian, FromBigEndian, Pow256;
    var u, v, w := ArcKey(x) + s, ArcKey(y) + t, Width(x);
    assert w == u[0] == v[0] == Width(y);
    assert u[1..1 + w] == BigEndian(x, w) && v[1..1 + w] == BigEndian(y, w);
    assert u[1..1 + w] == v[1..1 + w];
    WidthIsLeast(x);
    WidthIsLeast(y);
    BigEndianRoundTrip(x, w);
    BigEndianRoundTrip(y, w);
    assert s == u[1 + w..] && t == v[1 + w..];
  }

  /** What `oid_from_key` reads off a key from byte `at` on. */
  function Decode(key: seq<byte>, at: nat): Result<seq<nat>, CodecError>
    requires at <= |key|
    decreases |key| - at
  {
    if at == |key| then Ok([])
    else
      var width := key[at];
      if width < 1 || at + 1 + width > |key| then Err(Truncated(at + 1))
      else
        After([FromBigEndian(key[at + 1..at + 1 + width])], Decode(key, at + 1 + width))
  }

  function After(arcs: seq<nat>, rest: Result<seq<nat>, CodecError>): Result<seq<nat>, CodecError> {
    match rest
    case Err(e) => Err(e)
    case Ok(more) => Ok(arcs + more)
  }

  lemma AfterTwice(a: seq<nat>, b: seq<nat>, r: Result<seq<nat>, CodecError>)
    ensures After(a, After(b, r)) == After(a + b, r) && After([], r) == r
  {
    if r.Ok? {
      assert a + (b + r.value) == a + b + r.value && [] + r.value == r.value;
    }
  }

  lemma {:induction false} DecodeShift(p: seq<byte>, key: seq<byte>, at: nat)
    requires at <= |key| && Decode(key, at).Ok?
    ensures Decode(p + key, |p| + at) == Decode(key, at)
    decreases |key| - at
  {
    if at < |key| {
      var width := key[at];
      DecodeShift(p, key, at + 1 + width);
      assert (p + key)[|p| + at + 1..|p| + at + 1 + width] == key[at + 1..at + 1 + width];
    }
  }

  lemma DecodeGroup(x: nat, rest: seq<byte>)
    requires x <= MAX_ARC && Decode(rest, 0).Ok?
    ensures Decode(ArcKey(x) + rest, 0) == After([x], Decode(rest, 0))
  {
    hide Width, BigEndian, FromBigEndian, Pow256;
    var key, w := ArcKey(x) + rest, Width(x);
    DecodeShift(ArcKey(x), rest, 0);
    assert key[0] == w && key[1..1 + w] == BigEndian(x, w);
    WidthIsLeast(x);
    BigEndianRoundTrip(x, w);
  }

  /** `oid_from_key` recovers the OID. */
  lemma {:induction false} DecodeRecovers(oid: seq<int>)
    requires Arcs(oid)
    ensures Decode(Key(oid), 0) == Ok(oid)
  {
    hide Width, BigEndian, FromBigEndian, ArcKey;
    if oid != [] {
      DecodeRecovers(oid[1..]);
      DecodeGroup(oid[0], Key(oid[1..]));
      assert oid == [oid[0]] + oid[1..];
    }
  }

  /** Every group from `at` on is one `oid_key` writes: at most four bytes, none wasted. */
  predicate Canonical(key: seq<byte>, at: nat)
    requires at <= |key|
    decreases |key| - at
  {
    at == |key| ||
    (var width := key[at];
     && 1 <= width <= 4 && at + 1 + width <= |key|
     && (width > 1 ==> key[at + 1] != 0)
     && Canonical(key, at + 1 + width))
  }

  lemma KeyCons(n: nat, rest: seq<nat>)
    requires n <= MAX_ARC && Arcs(rest)
    ensures Arcs([n] + rest) && Key([n] + rest) == ArcKey(n) + Key(rest)
  {
    assert ([n] + rest)[1..] == rest;
  }

  lemma {:induction false} CanonicalReencodes(key: seq<byte>, at: nat)
    requires at <= |key| && Canonical(key, at)
    ensures Decode(key, at).Ok? && Arcs(Decode(key, at).value)
    ensures Key(Decode(key, at).value) == key[at..]
    decreases |key| - at
  {
    hide Width, BigEndian, FromBigEndian, Pow256;
    if at < |key| {
      var width := key[at];
      var next := at + 1 + width;
      CanonicalReencodes(key, next);
      var bytes := key[at + 1..next];
      GroupReencodes(bytes, FromBigEndian(bytes));
      var rest := Decode(key, next).value;
      KeyCons(FromBigEndian(bytes), rest);
      assert key[at..] == [key[at]] + bytes + key[next..];
    }
  }

  lemma GroupReencodes(bytes: seq<byte>, n: nat)
    requires 1 <= |bytes| <= 4 && (|bytes| > 1 ==> bytes[0] != 0)
    requires n == FromBigEndian(bytes)
    ensures n <= MAX_ARC && Width(n) == |bytes| && BigEndian(n, |bytes|) == bytes
  {
    hide Width, BigEndian, FromBigEndian, Pow256;
    FromBigEndianRoundTrip(bytes);
    FromBigEndianRange(bytes);
    GroupWidth(n, |bytes|);
  }

  lemma GroupWidth(n: nat, w: nat)
    requires 1 <= w <= 4 && n < Pow256(w) && (w > 1 ==> Pow256(w - 1) <= n)
    ensures n <= MAX_ARC && Width(n) == w
  {
    hide Width, Pow256;
    FourBytes();
    Pow256Grows(w, 4);
    WidthIs(n, w);
  }

  lemma FourBytes()
    ensures Pow256(4) == MAX_ARC + 1
  {
    assert Pow256(4) == 256 * (256 * (256 * (256 * 1)));
  }

  lemma WidthIs(n: nat, w: nat)
    requires 1 <= w && n < Pow256(w) && (w > 1 ==> Pow256(w - 1) <= n)
    ensures Width(n) == w
  {
    WidthIsLeast(n);
    WidthAtMost(n, w);
    if Width(n) < w {
      Pow256Grows(Width(n), w - 1);
    }
  }

  lemma {:induction false} KeyCanonicalAt(p: seq<byte>, oid: seq<int>)
    requires Arcs(oid)
    ensures Canonical(p + Key(oid), |p|)
    decreases |oid|
  {
    hide Width, BigEndian, FromBigEndian, Pow256;
    if oid != [] {
      var head := ArcKey(oid[0]);
      KeyCanonicalAt(p + head, oid[1..]);
      assert p + Key(oid) == p + head + Key(oid[1..]);
      WidthIsLeast(oid[0]);
      WidthAtMost(oid[0], 4);
      var w := Width(oid[0]);
      BigEndianRoundTrip(oid[0], w);
      FromBigEndianRange(BigEndian(oid[0], w));
      assert w > 1 ==> (p + Key(oid))[|p| + 1] == BigEndian(oid[0], w)[0];
    } else {
      assert p + Key(oid) == p;
    }
  }

  /** The keys are exactly the canonical byte strings: decoding one and encoding it
      again gives it back, and nothing else does. */
  lemma ReencodingIsExact(key: seq<byte>)
    ensures Canonical(key, 0) <==>
            Decode(key, 0).Ok? && Arcs(Decode(key, 0).value) && Key(Decode(key, 0).value) == key
  {
    if Canonical(key, 0) {
      CanonicalReencodes(key, 0);
    } else if Decode(key, 0).Ok? && Arcs(Decode(key, 0).value) {
      var again := Key(Decode(key, 0).value);
      KeyCanonicalAt([], Decode(key, 0).value);
      assert [] + again == again;
    }
  }

  // -------------------------------------------------------- the loops

  lemma KeySnoc(oid: seq<int>, arc: nat)
    requires Arcs(oid) && arc <= MAX_ARC
    ensures Arcs(oid + [arc])
    ensures Width(arc) <= 4
    ensures Key(oid + [arc]) == Key(oid) + [Width(arc)] + BigEndian(arc, Width(arc))
  {
    hide Width, BigEndian;
    WidthAtMost(arc, 4);
    KeyAppend(oid, [arc]);
    assert Key([arc]) == ArcKey(arc) + [];
    assert Key(oid) + ArcKey(arc) == Key(oid) + [Width(arc)] + BigEndian(arc, Width(arc));
  }

  /** `oid_key` on a tuple of integers. */
  method EncodeOid(oid: seq<int>) returns (r: Result<seq<byte>, CodecError>)
    ensures r.Ok? <==> oid != [] && Arcs(oid)
    ensures r.Ok? ==> r.value == Key(oid)
    ensures oid == [] ==> r == Err(EmptyOid)
    ensures oid != [] && r.Err? ==>
              exists i :: 0 <= i < |oid| && !(0 <= oid[i] <= MAX_ARC) && Arcs(oid[..i])
                          && r == Err(ArcOutOfRange(oid[i]))
  {
    if oid == [] {
      return Err(EmptyOid);
    }
    var out: seq<byte> := [];
    for i := 0 to |oid|
      invariant Arcs(oid[..i]) && out == Key(oid[..i])
    {
      var arc := oid[i];
      if arc < 0 || arc > MAX_ARC {
        return Err(ArcOutOfRange(arc));
      }
      KeySnoc(oid[..i], arc);
      assert oid[..i + 1] == oid[..i] + [arc];
      WidthAtMost(arc, 4);
      WidthFromBits(arc);
      var width := (BitLength(arc) + 7) / 8;
      if width < 1 {
        width := 1;
      }
      out := out + [width];
      out := out + BigEndian(arc, width);
    }
    assert oid[..|oid|] == oid;
    return Ok(out);
  }

  /** `oid_from_key`, its arcs as numbers rather than as dotted text. */
  method DecodeKey(key: seq<byte>) returns (r: Result<seq<nat>, CodecError>)
    ensures key == [] ==> r == Err(EmptyKey)
    ensures key != [] ==> r == Decode(key, 0)
    ensures forall oid :: oid != [] && Arcs(oid) && key == Key(oid) ==> r == Ok(oid)
  {
    hide FromBigEndian;
    var arcs: seq<nat> := [];
    var at := 0;
    AfterTwice([], [], Decode(key, 0));
    while at < |key|
      invariant at <= |key|
      invariant (arcs == []) == (at == 0)
      invariant Decode(key, 0) == After(arcs, Decode(key, at))
    {
      var width := key[at];
      at := at + 1;
      if width < 1 || at + width > |key| {
        forall oid | Arcs(oid) && key == Key(oid) ensures Decode(key, 0) == Ok(oid) {
          DecodeRecovers(oid);
        }
        return Err(Truncated(at));
      }
      AfterTwice(arcs, [FromBigEndian(key[at..at + width])], Decode(key, at + width));
      arcs := arcs + [FromBigEndian(key[at..at + width])];
      at := at + width;
    }
    forall oid | Arcs(oid) && key == Key(oid) ensures Decode(key, 0) == Ok(oid) {
      DecodeRecovers(oid);
    }
    if arcs == [] {
      return Err(EmptyKey);
    }
    assert arcs + [] == arcs;
    return Ok(arcs);
  }

  // ------------------------------------------------------- subtree ranges

  predicate AllFF(key: seq<byte>) {
    forall i :: 0 <= i < |key| ==> key[i] == 0xFF
  }

  /** What `subtree_bound` returns. */
  function Bound(key: seq<byte>): seq<byte> {
    if AllFF(key) then key + [0xFF] else Successor(key)
  }

  /** Drop trailing 0xFF bytes and add one to the byte before them. */
  function Successor(key: seq<byte>): seq<byte>
    requires !AllFF(key)
  {
    var n := |key| - 1;
    if key[n] == 0xFF then
      assert AllFF(key[..n]) ==> AllFF(key);
      Successor(key[..n])
    else key[..n] + [key[n] + 1]
  }

  lemma DropFF(out: seq<byte>)
    requires out != [] && out[|out| - 1] == 0xFF
    ensures AllFF(out) <==> AllFF(out[..|out| - 1])
    ensures !AllFF(out) ==> Successor(out) == Successor(out[..|out| - 1])
  {
    assert out == out[..|out| - 1] + [0xFF];
  }

  method SubtreeBound(key: seq<byte>) returns (bound: seq<byte>)
    ensures bound == Bound(key)
  {
    var out := key;
    while out != [] && out[|out| - 1] == 0xFF
      invariant out <= key
      invariant AllFF(key) <==> AllFF(out)
      invariant !AllFF(out) ==> Successor(key) == Successor(out)
      decreases |out|
    {
      DropFF(out);
      out := out[..|out| - 1];
    }
    if out == [] {
      return key + [0xFF];
    }
    assert !AllFF(out);
    bound := out[|out| - 1 := out[|out| - 1] + 1];
    assert bound == out[..|out| - 1] + [out[|out| - 1] + 1];
  }

  lemma {:induction false} SuccessorBounds(key: seq<byte>, s: seq<byte>)
    requires !AllFF(key)
    ensures key <= s ==> Less(s, Successor(key))
    ensures AtMost(key, s) && Less(s, Successor(key)) ==> key <= s
    decreases |key|
  {
    var n := |key| - 1;
    var head, last := key[..n], key[n];
    assert key == head + [last];
    if last == 0xFF {
      assert AllFF(head) ==> AllFF(key);
      SuccessorBounds(head, s);
      if AtMost(key, s) && Less(s, Successor(key)) {
        PrefixAtMost(head, key);
        if Less(head, key) && Less(key, s) {
          LessTransitive(head, key, s);
        }
        assert head <= s;
        TailAbove(head, last, s);
      }
    } else {
      var top := head + [last + 1];
      if key <= s {
        assert s[..n] == top[..n];
        LessAtDifference(s, top, n);
      }
      if AtMost(key, s) && Less(s, top) {
        PrefixAtMost(head, key);
        if Less(head, key) && Less(key, s) {
          LessTransitive(head, key, s);
        }
        BetweenExtends(head, s, top);
        TailAbove(head, last, s);
        LessAfterPrefix(head, s[n..], [last + 1]);
        assert s == head + s[n..];
        assert s[..n + 1] == key;
      }
    }
  }

  lemma TailAbove(head: seq<int>, last: int, s: seq<int>)
    requires head <= s && AtMost(head + [last], s)
    ensures |s| > |head| && s[|head|] >= last
  {
    var rest := s[|head|..];
    assert s == head + rest;
    if s != head + [last] {
      LessAfterPrefix(head, [last], rest);
    }
  }

  /** `[key, bound)` is exactly the byte strings that begin with the key, unless the
      key is all 0xFF: then the fallback bound leaves descendants out. */
  lemma SubtreeRangeExact(key: seq<byte>)
    ensures (forall s: seq<byte> :: AtMost(key, s) && Less(s, Bound(key)) <==> key <= s)
            <==> !AllFF(key)
  {
    if AllFF(key) {
      var s: seq<byte> := key + [0xFF];
      NotBoth(s, s);
      assert key <= s && !Less(s, Bound(key));
      assert !(AtMost(key, s) && Less(s, Bound(key)) <==> key <= s);
    } else {
      forall s: seq<byte> ensures AtMost(key, s) && Less(s, Bound(key)) <==> key <= s {
        SuccessorBounds(key, s);
        if key <= s {
          PrefixAtMost(key, s);
        }
      }
    }
  }

  /** For an encoded OID the fallback is never taken and the range is exactly the
      subtree: the OIDs in it are the ones the root is a prefix of. */
  lemma SubtreeOfOid(root: seq<int>, oid: seq<int>)
    requires root != [] && Arcs(root) && Arcs(oid)
    ensures !AllFF(Key(root))
    ensures AtMost(Key(root), Key(oid)) && Less(Key(oid), Bound(Key(root))) <==> root <= oid
  {
    WidthAtMost(root[0], 4);
    assert Key(root)[0] <= 4;
    SubtreeRangeExact(Key(root));
    KeyEmbedsPrefix(root, oid);
  }
}
