/** `orderNotificationVarBinds`: sysUpTime.0 first, snmpTrapOID.0 second, the caller's
    order behind them (section 4.2.6 of RFC 3416). */
module NotifyOrder {
  import opened Wrappers
  import opened Lex

  datatype VarBind<V> = VarBind(name: seq<int>, val: V)

  /** The first index from `i` on bearing a name, or the length. */
  function FirstNamed<V>(s: seq<VarBind<V>>, name: seq<int>, i: nat): (k: nat)
    requires i <= |s|
    ensures i <= k <= |s| && (k < |s| ==> s[k].name == name)
    ensures forall j :: i <= j < k ==> s[j].name != name
    decreases |s| - i
  {
    if i == |s| || s[i].name == name then i else FirstNamed(s, name, i + 1)
  }

  /** An uptime in front whatever the caller passed. */
  function WithUptime<V>(varBinds: seq<VarBind<V>>, sysUpTime: VarBind<V>): (r: seq<VarBind<V>>)
    ensures r != [] && r[0].name == sysUpTime.name
  {
    if varBinds == [] || varBinds[0].name != sysUpTime.name then [sysUpTime] + varBinds else varBinds
  }

  /** The next uptime after the first replaces it, and is deleted where it stood. */
  function PromoteUptime<V>(s: seq<VarBind<V>>, name: seq<int>): (r: seq<VarBind<V>>)
    requires s != [] && s[0].name == name
    ensures r != [] && r[0].name == name
  {
    var k := FirstNamed(s, name, 1);
    if k == |s| then s else [s[k]] + s[1..k] + s[k + 1..]
  }

  /** The first loop: the caller's uptime replaces the one in front. */
  method ReplaceUptime<V>(front: seq<VarBind<V>>, name: seq<int>) returns (ordered: seq<VarBind<V>>)
    requires front != [] && front[0].name == name
    ensures ordered == PromoteUptime(front, name)
  {
    ordered := front;
    for idx := 1 to |front|
      invariant ordered == front
      invariant FirstNamed(front, name, 1) == FirstNamed(front, name, idx)
    {
      if front[idx].name == name {
        DeleteMoved(front, idx);
        ordered := ordered[0 := front[idx]];
        ordered := ordered[..idx] + ordered[idx + 1..];
        return;
      }
    }
  }

  lemma DeleteMoved<T>(s: seq<T>, k: nat)
    requires 0 < k < |s|
    ensures var t := s[0 := s[k]]; t[..k] + t[k + 1..] == [s[k]] + s[1..k] + s[k + 1..]
  {
  }

  /** The second loop: the trap name's binding goes second, or there is none. */
  method PlaceTrapOid<V>(front: seq<VarBind<V>>, name: seq<int>) returns (r: Option<seq<VarBind<V>>>)
    requires front != []
    ensures r == TrapSecond(front, name)
  {
    for idx := 1 to |front|
      invariant FirstNamed(front, name, 1) == FirstNamed(front, name, idx)
    {
      if front[idx].name == name {
        var ordered := front;
        PopAndInsert(front, idx);
        if idx != 1 {
          ordered := front[..idx] + front[idx + 1..];
          ordered := ordered[..1] + [front[idx]] + ordered[1..];
        }
        return Some(ordered);
      }
    }
    return None;
  }

  lemma PopAndInsert<T>(s: seq<T>, k: nat)
    requires 0 < k < |s|
    ensures var t := s[..k] + s[k + 1..]; t[..1] + [s[k]] + t[1..] == [s[0], s[k]] + s[1..k] + s[k + 1..]
    ensures k == 1 ==> s == [s[0], s[k]] + s[1..k] + s[k + 1..]
  {
  }

  method OrderNotificationVarBinds<V>(varBinds: seq<VarBind<V>>, sysUpTime: VarBind<V>, snmpTrapOID: seq<int>)
    returns (r: Option<seq<VarBind<V>>>)
    ensures r == Ordered(varBinds, sysUpTime, snmpTrapOID)
  {
    var ordered := varBinds;
    if ordered == [] || ordered[0].name != sysUpTime.name {
      ordered := [sysUpTime] + ordered;
    }
    ordered := ReplaceUptime(ordered, sysUpTime.name);
    r := PlaceTrapOid(ordered, snmpTrapOID);
  }

  function TrapSecond<V>(p: seq<VarBind<V>>, name: seq<int>): Option<seq<VarBind<V>>>
    requires p != []
  {
    var k := FirstNamed(p, name, 1);
    if k == |p| then None else Some([p[0], p[k]] + p[1..k] + p[k + 1..])
  }

  /** `None` is the `PySnmpError` for a missing snmpTrapOID.0. */
  function Ordered<V>(varBinds: seq<VarBind<V>>, sysUpTime: VarBind<V>,
                      snmpTrapOID: seq<int>): Option<seq<VarBind<V>>> {
    TrapSecond(PromoteUptime(WithUptime(varBinds, sysUpTime), sysUpTime.name), snmpTrapOID)
  }

  // ------------------------------------------------------ what the order is

  function Named<V>(name: seq<int>): VarBind<V> -> bool {
    (b: VarBind<V>) => b.name == name
  }

  function Other<V>(a: seq<int>, b: seq<int>): VarBind<V> -> bool {
    (x: VarBind<V>) => x.name != a && x.name != b
  }

  lemma {:induction false} SelectConcat<T>(s: seq<T>, t: seq<T>, p: T -> bool)
    ensures Select(s + t, p) == Select(s, p) + Select(t, p)
  {
    if s == [] {
      assert s + t == t;
    } else {
      assert (s + t)[1..] == s[1..] + t;
      SelectConcat(s[1..], t, p);
    }
  }

  /** A stretch without the name selects none of it; the first that has it comes first. */
  lemma SelectAround<V>(s: seq<VarBind<V>>, k: nat, p: VarBind<V> -> bool)
    requires 0 < k < |s|
    ensures Select(s, p) == Select([s[0]], p) + Select(s[1..k], p) + Select([s[k]], p) + Select(s[k + 1..], p)
  {
    hide Select;
    SplitAround(s, k);
    SelectConcat(s[..k], s[k..], p);
    SelectConcat([s[0]], s[1..k], p);
    SelectConcat([s[k]], s[k + 1..], p);
    Regroup(Select([s[0]], p), Select(s[1..k], p), Select([s[k]], p), Select(s[k + 1..], p));
  }

  lemma SplitAround<T>(s: seq<T>, k: nat)
    requires 0 < k < |s|
    ensures s[..k] + s[k..] == s && s[..k] == [s[0]] + s[1..k] && s[k..] == [s[k]] + s[k + 1..]
  {
  }

  lemma Regroup<T>(a: seq<T>, b: seq<T>, c: seq<T>, d: seq<T>)
    ensures (a + b) + (c + d) == a + b + c + d
    ensures [] + a == a && a + [] == a
  {
  }

  lemma {:induction false} AllSelected<T>(s: seq<T>, p: T -> bool)
    requires forall j :: 0 <= j < |s| ==> p(s[j])
    ensures Select(s, p) == s
  {
    if s != [] {
      AllSelected(s[1..], p);
    }
  }

  lemma {:induction false} SomeSelected<T>(s: seq<T>, p: T -> bool)
    ensures Select(s, p) == [] <==> forall j :: 0 <= j < |s| ==> !p(s[j])
    ensures forall j :: 0 <= j < |Select(s, p)| ==> p(Select(s, p)[j])
  {
    if s != [] {
      SomeSelected(s[1..], p);
      assert forall j :: 0 < j < |s| ==> s[j] == s[1..][j - 1];
    }
  }

  /** The caller's uptimes as they end up: the second of two replaces a first that led. */
  function Uptimes<V>(varBinds: seq<VarBind<V>>, sysUpTime: VarBind<V>): seq<VarBind<V>> {
    var ups := Select(varBinds, Named(sysUpTime.name));
    if ups == [] then [sysUpTime]
    else if varBinds[0].name == sysUpTime.name && |ups| > 1 then ups[1..]
    else ups
  }

  lemma PromotedOthers<V(!new)>(varBinds: seq<VarBind<V>>, sysUpTime: VarBind<V>, p: VarBind<V> -> bool)
    requires forall b: VarBind<V> :: b.name == sysUpTime.name ==> !p(b)
    ensures Select(PromoteUptime(WithUptime(varBinds, sysUpTime), sysUpTime.name), p) == Select(varBinds, p)
  {
    hide Select;
    var s := WithUptime(varBinds, sysUpTime);
    var k := FirstNamed(s, sysUpTime.name, 1);
    NoneSelected([s[0]], p);
    FrontOf(s, p);
    assert s == varBinds || s[1..] == varBinds;
    Regroup(Select(s[1..], p), [], [], []);
    assert Select(s, p) == Select(varBinds, p);
    if k < |s| {
      NoneSelected([s[k]], p);
      MovedSelects(s, k, p);
      var x, y := Select(s[1..k], p), Select(s[k + 1..], p);
      assert [] + x + y == [] + x + [] + y;
    }
  }

  lemma PromotedUptimes<V>(varBinds: seq<VarBind<V>>, sysUpTime: VarBind<V>)
    ensures Select(PromoteUptime(WithUptime(varBinds, sysUpTime), sysUpTime.name), Named(sysUpTime.name))
         == Uptimes(varBinds, sysUpTime)
  {
    hide Select;
    var up := Named<V>(sysUpTime.name);
    var s := WithUptime(varBinds, sysUpTime);
    var k := FirstNamed(s, sysUpTime.name, 1);
    AllSelected([s[0]], up);
    FrontOf(s, up);
    if k < |s| {
      NoneSelected(s[1..k], up);
      AllSelected([s[k]], up);
      MovedSelects(s, k, up);
      var p := PromoteUptime(s, sysUpTime.name);
      var later := Select(s[k + 1..], up);
      assert Select(p, up) == [s[k]] + later;
      assert Select(s, up) == [s[0]] + ([s[k]] + later);
      UptimesAre(varBinds, sysUpTime, s, [s[k]] + later);
    } else {
      NoneSelected(s[1..], up);
      UptimesAre(varBinds, sysUpTime, s, []);
    }
  }

  /** What follows the leading uptime is what is left of them, or that one if none. */
  lemma UptimesAre<V>(varBinds: seq<VarBind<V>>, sysUpTime: VarBind<V>, s: seq<VarBind<V>>, rest: seq<VarBind<V>>)
    requires s == WithUptime(varBinds, sysUpTime)
    requires Select(s, Named(sysUpTime.name)) == [s[0]] + rest
    ensures Uptimes(varBinds, sysUpTime) == if rest == [] then [s[0]] else rest
  {
    var ups := Select(varBinds, Named(sysUpTime.name));
    if s == varBinds && varBinds != [] && varBinds[0].name == sysUpTime.name {
      assert ups == [s[0]] + rest && ups[1..] == rest;
    } else {
      assert s == [sysUpTime] + varBinds && s[1..] == varBinds;
      assert ([s[0]] + rest)[1..] == rest == ups;
      assert varBinds == [] || varBinds[0].name != sysUpTime.name;
    }
  }

  lemma FrontOf<V>(s: seq<VarBind<V>>, p: VarBind<V> -> bool)
    requires s != []
    ensures Select(s, p) == Select([s[0]], p) + Select(s[1..], p)
  {
    hide Select;
    assert s == [s[0]] + s[1..];
    SelectConcat([s[0]], s[1..], p);
  }

  /** Deleting the head and moving element `k` into its place. */
  lemma MovedSelects<V>(s: seq<VarBind<V>>, k: nat, p: VarBind<V> -> bool)
    requires 0 < k < |s|
    ensures Select([s[k]] + s[1..k] + s[k + 1..], p) == Select([s[k]], p) + Select(s[1..k], p) + Select(s[k + 1..], p)
    ensures Select(s, p) == Select([s[0]], p) + Select(s[1..k], p) + Select([s[k]], p) + Select(s[k + 1..], p)
  {
    hide Select;
    SelectConcat([s[k]] + s[1..k], s[k + 1..], p);
    SelectConcat([s[k]], s[1..k], p);
    SelectAround(s, k, p);
  }

  /** Moving the first binding selected to second place keeps what is selected. */
  lemma TrapSecondSelects<V(!new)>(p: seq<VarBind<V>>, name: seq<int>, q: VarBind<V> -> bool)
    requires p != [] && TrapSecond(p, name).Some?
    requires (forall b: VarBind<V> :: b.name == name ==> !q(b)) || (forall b: VarBind<V> :: q(b) <==> b.name == name)
    ensures Select(TrapSecond(p, name).value, q) == Select(p, q)
  {
    hide Select;
    var k := FirstNamed(p, name, 1);
    var moved := [p[0], p[k]] + p[1..k] + p[k + 1..];
    assert moved == [p[0]] + ([p[k]] + p[1..k] + p[k + 1..]);
    SelectConcat([p[0]], [p[k]] + p[1..k] + p[k + 1..], q);
    MovedSelects(p, k, q);
    if forall b: VarBind<V> :: q(b) <==> b.name == name {
      NoneSelected(p[1..k], q);
    } else {
      NoneSelected([p[k]], q);
    }
  }

  /** The order: refused exactly when snmpTrapOID.0 is missing; otherwise an uptime,
      then the caller's first trap name, and nothing of the caller's lost, added or put
      out of order but the uptimes, which come to `Uptimes`. */
  lemma OrderIsRfc<V(!new)>(varBinds: seq<VarBind<V>>, sysUpTime: VarBind<V>, snmpTrapOID: seq<int>)
    requires sysUpTime.name != snmpTrapOID
    ensures var r := Ordered(varBinds, sysUpTime, snmpTrapOID);
            var traps := Select(varBinds, Named(snmpTrapOID));
            && (r.None? <==> forall j :: 0 <= j < |varBinds| ==> varBinds[j].name != snmpTrapOID)
            && (r.Some? ==>
                  && |r.value| >= 2 && r.value[0].name == sysUpTime.name
                  && traps != [] && r.value[1] == traps[0]
                  && Select(r.value, Named(snmpTrapOID)) == traps
                  && Select(r.value, Named(sysUpTime.name)) == Uptimes(varBinds, sysUpTime)
                  && Select(r.value, Other(sysUpTime.name, snmpTrapOID))
                     == Select(varBinds, Other(sysUpTime.name, snmpTrapOID)))
  {
    hide Select, Uptimes;
    var trap, up, other := Named<V>(snmpTrapOID), Named<V>(sysUpTime.name), Other<V>(sysUpTime.name, snmpTrapOID);
    var p := PromoteUptime(WithUptime(varBinds, sysUpTime), sysUpTime.name);
    PromotedOthers(varBinds, sysUpTime, trap);
    PromotedOthers(varBinds, sysUpTime, other);
    PromotedUptimes(varBinds, sysUpTime);
    SomeSelected(varBinds, trap);
    SomeSelected(p, trap);
    var k := FirstNamed(p, snmpTrapOID, 1);
    if k < |p| {
      assert trap(p[k]);
      TrapSecondSelects(p, snmpTrapOID, trap);
      TrapSecondSelects(p, snmpTrapOID, up);
      TrapSecondSelects(p, snmpTrapOID, other);
      MovedSelects(p, k, trap);
      NoneSelected([p[0]], trap);
      NoneSelected(p[1..k], trap);
      AllSelected([p[k]], trap);
      assert Select(p, trap)[0] == p[k];
    } else {
      assert forall j :: 0 <= j < |p| ==> !trap(p[j]);
    }
  }

  /** A notification goes out with a single sysUpTime.0 exactly when the caller listed
      at most one, or two with one of them leading. */
  lemma SingleUptimeIff<V(!new)>(varBinds: seq<VarBind<V>>, sysUpTime: VarBind<V>, snmpTrapOID: seq<int>)
    requires sysUpTime.name != snmpTrapOID && Ordered(varBinds, sysUpTime, snmpTrapOID).Some?
    ensures var listed := |Select(varBinds, Named(sysUpTime.name))|;
            |Select(Ordered(varBinds, sysUpTime, snmpTrapOID).value, Named(sysUpTime.name))| == 1
            <==> listed <= 1 || (listed == 2 && varBinds[0].name == sysUpTime.name)
  {
    hide Select;
    OrderIsRfc(varBinds, sysUpTime, snmpTrapOID);
    SomeSelected(varBinds, Named(sysUpTime.name));
  }

  /** With one trap name and at most one uptime, what follows the two is exactly the
      caller's other bindings in the caller's order. */
  lemma RestKeepsOrder<V(!new)>(varBinds: seq<VarBind<V>>, sysUpTime: VarBind<V>, snmpTrapOID: seq<int>)
    requires sysUpTime.name != snmpTrapOID
    requires |Select(varBinds, Named(snmpTrapOID))| == 1 && |Select(varBinds, Named(sysUpTime.name))| <= 1
    ensures var r := Ordered(varBinds, sysUpTime, snmpTrapOID);
            r.Some? && |r.value| >= 2 && r.value[2..] == Select(varBinds, Other(sysUpTime.name, snmpTrapOID))
  {
    hide Select;
    var trap, up, other := Named<V>(snmpTrapOID), Named<V>(sysUpTime.name), Other<V>(sysUpTime.name, snmpTrapOID);
    OrderIsRfc(varBinds, sysUpTime, snmpTrapOID);
    SomeSelected(varBinds, trap);
    SomeSelected(varBinds, up);
    var r := Ordered(varBinds, sysUpTime, snmpTrapOID).value;
    SelectTwo(r, up);
    SelectTwo(r, trap);
    SelectTwo(r, other);
    AllSelected([r[0]], up);
    AllSelected([r[1]], trap);
    NoneSelected([r[0]], trap);
    NoneSelected([r[1]], up);
    NoneSelected([r[0]], other);
    NoneSelected([r[1]], other);
    SomeSelected(r[2..], up);
    SomeSelected(r[2..], trap);
    AllSelected(r[2..], other);
  }

  lemma SelectTwo<V>(r: seq<VarBind<V>>, q: VarBind<V> -> bool)
    requires |r| >= 2
    ensures Select(r, q) == Select([r[0]], q) + Select([r[1]], q) + Select(r[2..], q)
  {
    hide Select;
    var t := r[1..];
    FrontOf(r, q);
    FrontOf(t, q);
    assert t[1..] == r[2..];
    Regroup(Select([r[0]], q), [], Select([r[1]], q), Select(r[2..], q));
  }

  // ----------------------------------------------- the whole of the order

  /** What is left without the first binding of a name. */
  function WithoutFirst<V>(s: seq<VarBind<V>>, name: seq<int>): seq<VarBind<V>> {
    if s == [] then []
    else if s[0].name == name then s[1..]
    else [s[0]] + WithoutFirst(s[1..], name)
  }

  function FirstOf<V>(s: seq<VarBind<V>>, name: seq<int>): Option<VarBind<V>> {
    if s == [] then None
    else if s[0].name == name then Some(s[0])
    else FirstOf(s[1..], name)
  }

  /** The first of a name in what follows the head, counted from there. */
  lemma FirstInTail<V>(s: seq<VarBind<V>>, name: seq<int>)
    requires s != []
    ensures FirstNamed(s, name, 1) == 1 + FirstNamed(s[1..], name, 0)
  {
    var k, j := FirstNamed(s, name, 1), FirstNamed(s[1..], name, 0);
    assert k < |s| ==> s[1..][k - 1].name == name;
    assert j < |s| - 1 ==> s[j + 1].name == name;
    assert forall i :: 0 <= i < j ==> s[1..][i].name != name && s[i + 1] == s[1..][i];
  }

  lemma {:induction false} FirstNamedIs<V>(s: seq<VarBind<V>>, name: seq<int>)
    ensures var k := FirstNamed(s, name, 0);
            && WithoutFirst(s, name) == (if k == |s| then s else s[..k] + s[k + 1..])
            && FirstOf(s, name) == if k == |s| then None else Some(s[k])
  {
    if s != [] && s[0].name != name {
      var t := s[1..];
      FirstNamedIs(t, name);
      FirstInTail(s, name);
      LeavingOut(s, FirstNamed(t, name, 0));
    }
    hide *;
  }

  /** Leaving one out of what follows the head. */
  lemma LeavingOut<T>(s: seq<T>, k: nat)
    requires s != []
    ensures var t := s[1..];
            && [s[0]] + t == s
            && (k < |t| ==>
                  && t[..k] + t[k + 1..] == s[1..k + 1] + s[k + 2..] && t[k] == s[k + 1]
                  && [s[0]] + (t[..k] + t[k + 1..]) == s[..k + 1] + s[k + 2..])
  {
  }

  lemma PromotedIs<V>(s: seq<VarBind<V>>, name: seq<int>)
    requires s != [] && s[0].name == name
    ensures var p := PromoteUptime(s, name);
            && p[1..] == WithoutFirst(s[1..], name)
            && p[0] == match FirstOf(s[1..], name) case Some(b) => b case None => s[0]
  {
    FirstNamedIs(s[1..], name);
    FirstInTail(s, name);
    hide WithoutFirst, FirstOf, FirstNamed;
    LeavingOut(s, FirstNamed(s[1..], name, 0));
    var k := FirstNamed(s, name, 1);
    if k < |s| {
      PutTogether([s[k]], s[1..k], s[k + 1..]);
    }
  }

  lemma PutTogether<T>(front: seq<T>, a: seq<T>, b: seq<T>)
    ensures front + a + b == front + (a + b) && (front + a + b)[|front|..] == a + b
  {
  }

  lemma TrapSecondIs<V>(p: seq<VarBind<V>>, name: seq<int>)
    requires p != []
    ensures TrapSecond(p, name) ==
            match FirstOf(p[1..], name)
            case None => None
            case Some(trap) => Some([p[0], trap] + WithoutFirst(p[1..], name))
  {
    FirstNamedIs(p[1..], name);
    FirstInTail(p, name);
    hide WithoutFirst, FirstOf, FirstNamed;
    LeavingOut(p, FirstNamed(p[1..], name, 0));
    var k := FirstNamed(p, name, 1);
    if k < |p| {
      PutTogether([p[0], p[k]], p[1..k], p[k + 1..]);
    }
  }

  /** The order in full. Past an uptime that leads, the caller's first uptime goes in front, or
      the leading one, or the agent's own; the first trap name is second; and the rest are
      the caller's bindings without these, in the caller's order. */
  lemma OrderInFull<V>(varBinds: seq<VarBind<V>>, sysUpTime: VarBind<V>, snmpTrapOID: seq<int>)
    ensures var leads := varBinds != [] && varBinds[0].name == sysUpTime.name;
            var rest := if leads then varBinds[1..] else varBinds;
            var others := WithoutFirst(rest, sysUpTime.name);
            var up := match FirstOf(rest, sysUpTime.name)
                      case Some(b) => b
                      case None => if leads then varBinds[0] else sysUpTime;
            Ordered(varBinds, sysUpTime, snmpTrapOID) ==
            match FirstOf(others, snmpTrapOID)
            case None => None
            case Some(trap) => Some([up, trap] + WithoutFirst(others, snmpTrapOID))
  {
    hide WithoutFirst, FirstOf, FirstNamed, PromoteUptime, TrapSecond;
    var s := WithUptime(varBinds, sysUpTime);
    PromotedIs(s, sysUpTime.name);
    TrapSecondIs(PromoteUptime(s, sysUpTime.name), snmpTrapOID);
  }
}
