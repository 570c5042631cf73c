/** Building a module's types: `declare` inside `load_module` (`smi/synthesis.py`). */
module TypeDecl {
  import opened Wrappers

  type Name = string

  /** The module's types by name, each with the type name it is defined on, if that is one. */
  type Declared = map<Name, Option<Name>>

  /** The in-module base of a type. A type may be defined on a type of its own name, which
      is then another module's. */
  function BaseOf(types: Declared, n: Name): (d: Option<Name>)
    requires n in types
    ensures d.Some? ==> d.value in types && d.value != n
  {
    match types[n]
    case None => None
    case Some(d) => if d != n && d in types then Some(d) else None
  }

  /** Following in-module bases `k` times from `n`. */
  function Follow(types: Declared, n: Name, k: nat): (r: Option<Name>)
    requires n in types
    ensures r.Some? ==> r.value in types
    decreases k
  {
    if k == 0 then Some(n)
    else
      match BaseOf(types, n)
      case None => None
      case Some(d) => Follow(types, d, k - 1)
  }

  ghost predicate Reaches(types: Declared, n: Name, m: Name)
    requires n in types
  {
    exists k: nat :: 0 < k && Follow(types, n, k) == Some(m)
  }

  /** Defined in terms of itself, through two types or more. */
  ghost predicate Circular(types: Declared, n: Name)
    requires n in types
  {
    exists k: nat :: 2 <= k && Follow(types, n, k) == Some(n)
  }

  lemma {:induction false} FollowOn(types: Declared, n: Name, j: nat, k: nat)
    requires n in types
    ensures Follow(types, n, j + k) ==
              match Follow(types, n, j)
              case None => None
              case Some(m) => Follow(types, m, k)
    decreases j
  {
    if j > 0 && BaseOf(types, n).Some? {
      FollowOn(types, BaseOf(types, n).value, j - 1, k);
    }
  }

  /** A circular type's chain of bases has no end. */
  lemma {:induction false} CircularNeverEnds(types: Declared, n: Name, j: nat, k: nat)
    requires n in types && 0 < j && Follow(types, n, j) == Some(n)
    ensures Follow(types, n, k).Some?
  {
    if k < j {
      FollowOn(types, n, k, j - k);
    } else {
      FollowOn(types, n, j, k - j);
      CircularNeverEnds(types, n, j, k - j);
    }
  }

  lemma ReachesItself(types: Declared, n: Name)
    requires n in types && Reaches(types, n, n)
    ensures Circular(types, n)
  {
    var k: nat :| 0 < k && Follow(types, n, k) == Some(n);
    if k == 1 {
      assert Follow(types, n, 1) == BaseOf(types, n);
    }
  }

  lemma ReachesBase(types: Declared, b: Name, n: Name)
    requires b in types && n in types && (b == n || Reaches(types, b, n)) && BaseOf(types, n).Some?
    ensures Reaches(types, b, BaseOf(types, n).value)
  {
    var k: nat := 0;
    if b != n {
      k :| 0 < k && Follow(types, b, k) == Some(n);
    }
    FollowOn(types, b, k, 1);
    assert Follow(types, n, 1) == BaseOf(types, n);
    assert Follow(types, b, k + 1) == BaseOf(types, n);
  }

  lemma ReachesOn(types: Declared, n: Name, m: Name)
    requires n in types && BaseOf(types, n).Some? && Reaches(types, BaseOf(types, n).value, m)
    ensures Reaches(types, n, m)
  {
    var k: nat :| 0 < k && Follow(types, BaseOf(types, n).value, k) == Some(m);
    assert Follow(types, n, k + 1) == Some(m);
  }

  /** Classes as built: each is on its in-module base's class. A class is told by its
      lineage, its own name first. */
  type Built = map<Name, seq<Name>>

  ghost predicate OnBase(types: Declared, local: Built, n: Name)
    requires n in types && n in local
  {
    match BaseOf(types, n)
    case None => local[n] == [n]
    case Some(d) => d in local && local[n] == [n] + local[d]
  }

  ghost predicate WellBuilt(types: Declared, local: Built) {
    local.Keys <= types.Keys && forall n :: n in local ==> OnBase(types, local, n)
  }

  /** What could be built is not circular. */
  lemma {:induction false} BuiltChainEnds(types: Declared, local: Built, n: Name)
    requires WellBuilt(types, local) && n in local
    ensures Follow(types, n, |local[n]|) == None
    decreases |local[n]|
  {
    assert OnBase(types, local, n);
    if BaseOf(types, n).Some? {
      BuiltChainEnds(types, local, BaseOf(types, n).value);
    } else {
      assert Follow(types, n, 1) == None;
    }
  }

  lemma BuiltIsNotCircular(types: Declared, local: Built, n: Name)
    requires WellBuilt(types, local) && n in local
    ensures !Circular(types, n)
  {
    BuiltChainEnds(types, local, n);
    if j: nat :| 2 <= j && Follow(types, n, j) == Some(n) {
      CircularNeverEnds(types, n, j, |local[n]|);
    }
  }

  /** Each type once, and after its in-module base. */
  ghost predicate InOrder(types: Declared, order: seq<Name>) {
    && (forall i, j :: 0 <= i < j < |order| ==> order[i] != order[j])
    && (forall i :: 0 <= i < |order| ==> order[i] in types && BaseBefore(types, order, i))
  }

  ghost predicate BaseBefore(types: Declared, order: seq<Name>, i: nat)
    requires i < |order| && order[i] in types
  {
    BaseOf(types, order[i]).Some? ==> BaseOf(types, order[i]).value in order[..i]
  }

  ghost predicate Recorded(local: Built, order: seq<Name>) {
    forall n :: n in local <==> n in order
  }

  lemma Declares(types: Declared, local: Built, order: seq<Name>, n: Name)
    requires WellBuilt(types, local) && InOrder(types, order) && Recorded(local, order)
    requires n in types && n !in local && (BaseOf(types, n).Some? ==> BaseOf(types, n).value in local)
    ensures var lineage := [n] + if BaseOf(types, n).Some? then local[BaseOf(types, n).value] else [];
            && WellBuilt(types, local[n := lineage]) && Recorded(local[n := lineage], order + [n])
    ensures InOrder(types, order + [n])
  {
    var lineage := [n] + if BaseOf(types, n).Some? then local[BaseOf(types, n).value] else [];
    var next := local[n := lineage];
    forall m | m in next
      ensures OnBase(types, next, m)
    {
      assert m in local ==> OnBase(types, local, m);
    }
    var longer := order + [n];
    forall i: nat | i < |longer|
      ensures longer[i] in types && BaseBefore(types, longer, i)
    {
      assert i < |order| ==> longer[i] == order[i] && longer[..i] == order[..i] && BaseBefore(types, order, i);
      assert longer[..|order|] == order;
    }
  }

  /** `_Resolver` and the closure of `load_module`. */
  class ModuleLoader {
    const types: Declared
    var building: set<Name>
    var local: Built
    /** History: the types in the order they were built. */
    var order: seq<Name>

    ghost predicate Valid()
      reads this
    {
      && WellBuilt(types, local) && InOrder(types, order)
      && Recorded(local, order)
      && building <= types.Keys && building !! local.Keys
    }

    constructor (types: Declared)
      ensures Valid() && this.types == types && building == {} && local == map[] && order == []
    {
      this.types := types;
      building, local, order := {}, map[], [];
    }

    /** `declare`, given that building one type succeeds; a name is the type reported as
        "defined in terms of itself". */
    method Declare(name: Name) returns (reported: Option<Name>)
      requires Valid() && name in types
      requires forall b :: b in building ==> Reaches(types, b, name)
      modifies this
      ensures Valid() && building == old(building)
      ensures reported == None ==> name in local
      ensures old(order) <= order && forall n :: n in old(local) ==> n in local && local[n] == old(local[n])
      ensures reported.Some? ==> local == old(local) && order == old(order)
      ensures reported.Some? ==> reported.value in types && Circular(types, reported.value)
      ensures reported.Some? ==> reported.value == name || Reaches(types, name, reported.value)
      decreases types.Keys - building
    {
      hide InOrder, WellBuilt, Recorded, Reaches, Circular, BaseOf;
      if name in local {
        return None;
      }
      if name in building {
        ReachesItself(types, name);
        return Some(name);
      }
      building := building + {name};
      var dependency := BaseOf(types, name);
      reported := None;
      if dependency.Some? {
        forall b | b in building
          ensures Reaches(types, b, dependency.value)
        {
          ReachesBase(types, b, name);
        }
        reported := Declare(dependency.value);
      }
      building := building - {name};
      if reported.Some? {
        ReachesBase(types, name, name);
        if reported.value != dependency.value {
          ReachesOn(types, name, reported.value);
        }
        return;
      }
      Declares(types, local, order, name);
      local := local[name := [name] + if dependency.Some? then local[dependency.value] else []];
      order := order + [name];
    }

    /** The loop over `declared`, in any order of its names. The module's types are built,
        every one, if and only if none is circular. */
    method DeclareAll(names: seq<Name>) returns (reported: Option<Name>)
      requires Valid() && building == {} && forall n :: n in names <==> n in types
      modifies this
      ensures Valid() && building == {}
      ensures reported == None <==> forall n :: n in types ==> !Circular(types, n)
      ensures reported == None ==> local.Keys == types.Keys && |order| == |types|
      ensures reported.Some? ==> reported.value in types && Circular(types, reported.value)
    {
      hide WellBuilt, Circular, Reaches;
      for i := 0 to |names|
        invariant Valid() && building == {}
        invariant forall k :: 0 <= k < i ==> names[k] in local
      {
        assert names[i] in names;
        reported := Declare(names[i]);
        if reported.Some? {
          return;
        }
      }
      forall n | n in types
        ensures n in local && !Circular(types, n)
      {
        var k :| 0 <= k < |names| && names[k] == n;
        BuiltIsNotCircular(types, local, n);
      }
      InOrderIsOnce(types, order);
      LocalIsTypes();
      assert (set n | n in order) == types.Keys;
      return None;
    }

    lemma LocalIsTypes()
      requires WellBuilt(types, local) && forall n :: n in types ==> n in local
      ensures local.Keys == types.Keys
    {
    }
  }

  lemma InOrderIsOnce(types: Declared, order: seq<Name>)
    requires InOrder(types, order)
    ensures |order| == |set n | n in order|
  {
    DistinctSize(order);
  }

  lemma {:induction false} DistinctSize(s: seq<Name>)
    requires forall i, j :: 0 <= i < j < |s| ==> s[i] != s[j]
    ensures |s| == |set n | n in s|
  {
    if s != [] {
      var rest := s[1..];
      forall i, j | 0 <= i < j < |rest|
        ensures rest[i] != rest[j]
      {
        assert s[i + 1] != s[j + 1];
      }
      DistinctSize(rest);
      assert (set n | n in s) == (set n | n in rest) + {s[0]};
      assert s[0] !in rest;
    }
  }
}
