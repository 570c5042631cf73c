/** What requests to a tree of scalar instances are answered: a GET, a SET that goes through,
    and one that a test refuses. */
module ScalarReads {
  import opened Wrappers
  import opened SetMachine
  import opened SetAtomicity
  import opened ScalarSet
  import R = ReadRuns

  /** Every name may be read, and what is there has a value. */
  ghost predicate AllReadable(rules: Rules, binds: seq<VarBind>, tree: Tree) {
    forall i :: 0 <= i < |binds| ==>
      rules.readable(binds[i].name) && (binds[i].name in tree ==> tree[binds[i].name].syntax.Holds?)
  }

  /** What a name that can be read is answered with. */
  function ValueOf(rules: Rules, tree: Tree, n: Name): Value {
    if n in tree && tree[n].syntax.Holds? then tree[n].syntax.value else rules.missing(n)
  }

  lemma ScalarRead(rules: Rules, binds: seq<VarBind>, tree: Tree, i: nat)
    requires i < |binds|
    ensures var h, n := Scalars(rules), binds[i].name;
            var there := n in tree ==> tree[n].syntax.Holds?;
            && (R.Returning(h, ReadTest, binds, tree, i) <==> rules.readable(n) && there)
            && (R.Returning(h, ReadGet, binds, tree, i) <==> there)
            && R.ValueRead(h, ReadTest, binds, tree, i) == None
            && (there ==> R.ValueRead(h, ReadGet, binds, tree, i) == Some(VarBind(n, ValueOf(rules, tree, n))))
  {
    var n := binds[i].name;
    if n in tree {
      var x := tree[n];
      assert Read(x, n, i, false).Done? <==> x.syntax.Holds?;
      assert Read(x, n, i, true).Done? <==> x.syntax.Holds?;
    }
  }

  lemma ScalarsRead(rules: Rules, binds: seq<VarBind>, tree: Tree)
    ensures var h := Scalars(rules);
            && R.LeavesAlone(h, ReadTest, tree) && R.LeavesAlone(h, ReadGet, tree)
            && (AllReadable(rules, binds, tree) <==>
                  forall i :: 0 <= i < |binds| ==>
                    R.Returning(h, ReadTest, binds, tree, i) && R.Returning(h, ReadGet, binds, tree, i))
            && (forall i :: 0 <= i < |binds| ==> R.ValueRead(h, ReadTest, binds, tree, i) == None)
            && (forall i :: 0 <= i < |binds| && R.Returning(h, ReadGet, binds, tree, i) ==>
                  R.ValueRead(h, ReadGet, binds, tree, i)
                  == Some(VarBind(binds[i].name, ValueOf(rules, tree, binds[i].name))))
  {
    var h := Scalars(rules);
    assert R.LeavesAlone(h, ReadTest, tree) && R.LeavesAlone(h, ReadGet, tree);
    hide Scalars, R.Returning, R.ValueRead, R.LeavesAlone, ValueOf;
    forall i: nat | i < |binds|
      ensures var n := binds[i].name;
              var there := n in tree ==> tree[n].syntax.Holds?;
              && (R.Returning(h, ReadTest, binds, tree, i) <==> rules.readable(n) && there)
              && (R.Returning(h, ReadGet, binds, tree, i) <==> there)
              && R.ValueRead(h, ReadTest, binds, tree, i) == None
              && (there ==> R.ValueRead(h, ReadGet, binds, tree, i) == Some(VarBind(n, ValueOf(rules, tree, n))))
    {
      ScalarRead(rules, binds, tree, i);
    }
  }

  /** A GET leaves the tree alone; it is answered if and only if every name asked for may be
      read and every instance there has a value, and then with those values, or for a name
      without an instance the exception value, in the order asked. */
  lemma GetReturnsValues(rules: Rules, binds: seq<VarBind>, tree: Tree)
    ensures var r := ReadRun(Scalars(rules), binds, tree);
            && r.0.store == tree && (OutcomeOf(r).Bindings? <==> AllReadable(rules, binds, tree))
            && (OutcomeOf(r).Bindings? ==>
                  |OutcomeOf(r).out| == |binds|
                  && forall i :: 0 <= i < |binds| ==>
                       OutcomeOf(r).out[i] == VarBind(binds[i].name, ValueOf(rules, tree, binds[i].name)))
  {
    ScalarsRead(rules, binds, tree);
    R.GetAnswers(Scalars(rules), binds, tree);
    hide Scalars, ReadRun, OutcomeOf, R.Returning, R.ValueRead, R.LeavesAlone, ValueOf, AllReadable;
  }

  lemma ScalarsSpeak(rules: Rules)
    ensures R.OnlyGetsSpeak(Scalars(rules))
  {
    var h := Scalars(rules);
    forall s, b, i: nat, tree |
      s in {WriteTest, WriteCommit, WriteCleanup, WriteUndo, ReadTest} && h(s, b, i, tree).1.Done?
      ensures h(s, b, i, tree).1.binding == None
    {
      assert forall smi :: !Fails(smi, i).Done?;
      if b.name in tree {
        assert Read(tree[b.name], b.name, i, false).Done? ==> Read(tree[b.name], b.name, i, false).binding == None;
      }
    }
  }

  /** A SET that passes its tests and commits, of scalars that may all be read, is answered
      with exactly the bindings it asked for. */
  lemma SetReturnsWritten(rules: Rules, binds: seq<VarBind>, tree: Tree)
    requires Ready(tree, binds) && AllPass(rules, binds) && forall k :: 0 <= k < |binds| ==> rules.faults(k) == Never
    requires forall k :: 0 <= k < |binds| ==> rules.readable(binds[k].name)
    ensures OutcomeOf(WriteRun(Scalars(rules), binds, tree)) == Bindings(binds)
  {
    var h := Scalars(rules);
    UnreadableWritesError(rules, binds, tree);
    ScalarsSpeak(rules);
    R.SetAnswers(h, binds, tree);
    var m := Settled(h, binds, tree);
    WriteRunIs(h, binds, tree);
    ReadBackKeepsTree(rules, binds, m);
    hide Scalars, WriteRun, ReadBack, Settled, Tested, Committed, Ready;
    assert InForce(m.store, binds);
    InForceReads(rules, binds, m.store);
  }

  lemma InForceReads(rules: Rules, binds: seq<VarBind>, tree: Tree)
    requires InForce(tree, binds)
    ensures R.StoreBefore(Scalars(rules), ReadTest, binds, tree, |binds|) == tree
    ensures R.Given(Scalars(rules), ReadGet, binds, tree, |binds|) == binds
  {
    var h := Scalars(rules);
    InForceHolds(tree, binds);
    ScalarsRead(rules, binds, tree);
    forall i | 0 <= i < |binds|
      ensures R.ValueRead(h, ReadGet, binds, tree, i) == Some(binds[i])
    {
      ScalarRead(rules, binds, tree, i);
    }
    hide *;
    R.AllReturning(h, ReadTest, binds, tree);
    R.GivenEach(h, ReadGet, binds, tree, |binds|);
    SameBindings(h, binds, tree, R.Given(h, ReadGet, binds, tree, |binds|));
  }

  lemma InForceHolds(tree: Tree, binds: seq<VarBind>)
    requires InForce(tree, binds)
    ensures AllIn(tree, binds)
    ensures forall i :: 0 <= i < |binds| ==>
              tree[binds[i].name].syntax.Holds? && VarBind(binds[i].name, tree[binds[i].name].syntax.value) == binds[i]
  {
  }

  lemma SameBindings(h: Handlers<Tree>, binds: seq<VarBind>, tree: Tree, out: seq<VarBind>)
    requires |out| == |binds| && forall i :: 0 <= i < |binds| ==>
               Some(out[i]) == R.ValueRead(h, ReadGet, binds, tree, i) == Some(binds[i])
    ensures out == binds
  {
  }

  // ------------------------------------------------- refused by a test

  /** Instances that are there have a syntax and no write outstanding. */
  ghost predicate Clean(tree: Tree, binds: seq<VarBind>) {
    && DistinctNames(binds)
    && forall k :: 0 <= k < |binds| && binds[k].name in tree ==>
         tree[binds[k].name] == Inst(tree[binds[k].name].syntax, Nothing, Nothing)
         && tree[binds[k].name].syntax != Nothing
  }

  predicate Passes(rules: Rules, tree: Tree, b: VarBind) {
    b.name in tree && rules.writable(b.name) && rules.accepts(b)
  }

  /** Binding `j` is the first that has no instance, that the requester may not write, or
      whose value does not fit. */
  ghost predicate FirstRefusal(rules: Rules, tree: Tree, binds: seq<VarBind>, j: nat) {
    && j < |binds| && !Passes(rules, tree, binds[j])
    && forall k :: 0 <= k < j ==> Passes(rules, tree, binds[k])
  }

  function RefusalOf(rules: Rules, tree: Tree, b: VarBind, j: nat): Exc {
    Exc(if !rules.writable(b.name) then NOT_WRITABLE
        else if b.name in tree then WRONG_VALUE
        else NO_SUCH_OBJECT, j)
  }

  lemma {:induction false} TestsToRefusal(rules: Rules, tree: Tree, binds: seq<VarBind>, i: nat, j: nat,
                                          m: Machine<Tree>)
    requires i <= j && DistinctNames(binds) && FirstRefusal(rules, tree, binds, j) && m.store.Keys == tree.Keys
    requires forall k :: i <= k < |binds| && binds[k].name in tree ==> m.store[binds[k].name].syntax != Nothing
    requires m.state == WriteTest && m.status == Fine && m.first == None
    ensures var r := Phase(Scalars(rules), binds, i, m);
            && r.status == Failed && r.first == Some(RefusalOf(rules, tree, binds[j], j))
            && Pointwise(m.store, r.store, binds, i, j, (x, v) => TestInst(x, v))
    decreases j - i
  {
    var next := Perform(Scalars(rules), binds, i, m);
    TestOne(rules, binds, i, m);
    assert Passes(rules, m.store, binds[i]) <==> i < j;
    assert i < j ==> binds[i].name in m.store;
    hide Scalars, Perform, Passes, FirstRefusal, Pointwise, TestInst;
    if i < j {
      TestKeepsSyntax(m.store, binds[i]);
      TestsToRefusal(rules, tree, binds, i + 1, j, next);
      PointwiseStep(m.store, next.store, Phase(Scalars(rules), binds, i + 1, next).store,
                    binds, i, j, (x, v) => TestInst(x, v));
    } else {
      PointwiseNone(m.store, binds, j, (x, v) => TestInst(x, v));
    }
  }

  lemma TestKeepsSyntax(tree: Tree, b: VarBind)
    requires b.name in tree
    ensures var tested := tree[b.name := TestInst(tree[b.name], b.val)];
            tested.Keys == tree.Keys && forall n :: n in tree ==> tested[n].syntax == tree[n].syntax
  {
  }

  lemma PointwiseNone(tree: Tree, binds: seq<VarBind>, j: nat, f: (Inst, Value) -> Inst)
    requires j <= |binds|
    ensures Pointwise(tree, tree, binds, j, j, f)
  {
  }

  lemma TestOne(rules: Rules, binds: seq<VarBind>, i: nat, m: Machine<Tree>)
    requires i < |binds| && m.state == WriteTest && m.status == Fine && m.first == None
    requires binds[i].name in m.store ==> m.store[binds[i].name].syntax != Nothing
    ensures var next, b := Perform(Scalars(rules), binds, i, m), binds[i];
            && next.state == WriteTest
            && if Passes(rules, m.store, b) then
                 next.status == Fine && next.first == None
                 && next.store == m.store[b.name := TestInst(m.store[b.name], b.val)]
               else
                 next.status == Failed && next.first == Some(RefusalOf(rules, m.store, b, i))
                 && next.store == m.store
  {
  }

  /** Cleaning up goes as far as the first binding without an instance. */
  lemma {:induction false} CleanupTo(rules: Rules, binds: seq<VarBind>, i: nat, hi: nat, m: Machine<Tree>)
    requires i <= hi <= |binds| && DistinctNames(binds)
    requires (forall k :: i <= k < hi ==> binds[k].name in m.store) && (hi < |binds| ==> binds[hi].name !in m.store)
    requires m.state == WriteCleanup && m.status == Fine && m.first.Some?
    ensures var r := Phase(Scalars(rules), binds, i, m);
            && r.status == (if hi == |binds| then Fine else Failed) && r.first == m.first
            && Pointwise(m.store, r.store, binds, i, hi, (x, v) => CleanupInst(x))
    decreases hi - i
  {
    if i < hi {
      var next := Perform(Scalars(rules), binds, i, m);
      CleanupTo(rules, binds, i + 1, hi, next);
      PointwiseStep(m.store, next.store, Phase(Scalars(rules), binds, i + 1, next).store,
                    binds, i, hi, (x, v) => CleanupInst(x));
    }
  }

  lemma {:induction false} FirstMissing(tree: Tree, binds: seq<VarBind>, i: nat) returns (hi: nat)
    requires i <= |binds| && forall k :: 0 <= k < i ==> binds[k].name in tree
    ensures i <= hi <= |binds| && (forall k :: 0 <= k < hi ==> binds[k].name in tree)
    ensures hi < |binds| ==> binds[hi].name !in tree
    decreases |binds| - i
  {
    hi := i;
    if i < |binds| && binds[i].name in tree {
      hi := FirstMissing(tree, binds, i + 1);
    }
  }

  /** Testing some and cleaning up those and more is as if nothing had been tested. */
  lemma CleanedUp(tree: Tree, tested: Tree, cleaned: Tree, binds: seq<VarBind>, j: nat, hi: nat)
    requires Clean(tree, binds) && j <= hi <= |binds|
    requires Pointwise(tree, tested, binds, 0, j, (x, v) => TestInst(x, v))
    requires Pointwise(tested, cleaned, binds, 0, hi, (x, v) => CleanupInst(x))
    ensures cleaned == tree
  {
    forall n | n in tree
      ensures cleaned[n] == tree[n]
    {
      if k :| 0 <= k < hi && binds[k].name == n {
        if k < j {
          assert tested[binds[k].name] == TestInst(tree[binds[k].name], binds[k].val);
        } else {
          assert forall q :: 0 <= q < j ==> binds[q].name != n;
        }
        assert cleaned[binds[k].name] == CleanupInst(tested[binds[k].name]);
      } else {
        assert forall q :: 0 <= q < j ==> binds[q].name != n;
      }
    }
  }

  /** A SET that a test refuses, be it that a name has no instance, leaves the tree exactly
      as it was, with no write outstanding on any instance, and its outcome is the first
      test's error, whatever the cleaning up and the reading back meet. */
  lemma RefusedSetLeavesTree(rules: Rules, binds: seq<VarBind>, tree: Tree, j: nat)
    requires Clean(tree, binds) && FirstRefusal(rules, tree, binds, j)
    ensures var r := WriteRun(Scalars(rules), binds, tree);
            r.0.store == tree && OutcomeOf(r) == Error(RefusalOf(rules, tree, binds[j], j))
  {
    hide Run, Phase, Scalars, Pointwise, ReadBack;
    var h := Scalars(rules);
    WriteRunIs(h, binds, tree);
    TestsToRefusal(rules, tree, binds, 0, j, Enter(Initial(tree), WriteTest));
    var tested := Tested(h, binds, tree);
    PointwiseKeys(tree, tested.store, binds, j, (x, v) => TestInst(x, v));
    var hi := FirstMissing(tree, binds, j);
    CleanupTo(rules, binds, 0, hi, Enter(tested, WriteCleanup));
    var m := Settled(h, binds, tree);
    CleanedUp(tree, tested.store, m.store, binds, j, hi);
    ReadBackKeepsTree(rules, binds, m);
    CleanReadsBack(rules, binds, m);
  }

  lemma PointwiseKeys(before: Tree, after: Tree, binds: seq<VarBind>, hi: nat, f: (Inst, Value) -> Inst)
    requires hi <= |binds| && Pointwise(before, after, binds, 0, hi, f)
    ensures after.Keys == before.Keys
  {
  }

  /** Reading back instances none of which is empty breaks out of nothing. */
  lemma CleanReadsBack(rules: Rules, binds: seq<VarBind>, m: Machine<Tree>)
    requires Clean(m.store, binds) && m.first.Some? && !m.status.Out?
    requires m.status == Fine ==> AllIn(m.store, binds)
    ensures var r := ReadBack(Scalars(rules), binds, m);
            !r.status.Out? && r.first == m.first
  {
    hide Phase, Scalars;
    if m.status == Fine {
      ReadTestEnds(rules, binds, 0, Enter(m, ReadTest));
      NothingBreaks(rules, m.store, binds, 0);
      ReadsKeepTree(rules, binds, 0, Enter(m, ReadTest));
      var test := Do(Scalars(rules), binds, m, ReadTest);
      if test.status == Fine {
        ReadGetHolds(rules, binds, 0, Enter(test, ReadGet));
      }
    }
  }

  lemma {:induction false} NothingBreaks(rules: Rules, tree: Tree, binds: seq<VarBind>, i: nat)
    requires Clean(tree, binds) && i <= |binds| && AllIn(tree, binds)
    ensures !BreaksOut(rules, tree, binds, i)
    decreases |binds| - i
  {
    if i < |binds| {
      NothingBreaks(rules, tree, binds, i + 1);
    }
  }
}
