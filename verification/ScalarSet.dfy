/** A SET over real `MibScalarInstance` objects, whose undo puts the backup in place
    whether or not a commit ever took one, and whose reads then break on the result. */
module ScalarSet {
  import opened Wrappers
  import opened SetMachine
  import opened SetAtomicity

  /** A `syntax`: Python's `None`, a schema object without a value, or one with. */
  datatype Syntax = Nothing | NoValue | Holds(value: Value)

  /** `syntax`, `__oldSyntax` and `__newSyntax`. */
  datatype Inst = Inst(syntax: Syntax, old_: Syntax, new_: Syntax)

  type Tree = map<Name, Inst>

  /** Where an application's own `writeCommit` raises, if it does: before or after it
      hands over to the instance's; an `SmiError` or anything else. */
  datatype Fault = Never | Before(smi: bool) | After(smi: bool)

  const NO_SUCH_OBJECT := 0
  const WRONG_VALUE := 1
  const COMMIT_FAILED := 2
  const NO_SUCH_INSTANCE := 3
  const NO_ACCESS := 4
  const NOT_WRITABLE := 5

  /** What breaks out: an attribute of `None`, and an application's own exception. */
  const ATTRIBUTE_ERROR := 0
  const APPLICATION_ERROR := 1

  function TestInst(x: Inst, val: Value): Inst {
    x.(new_ := Holds(val))
  }

  function CommitInst(x: Inst): Inst {
    Inst(x.new_, if x.old_.Nothing? then x.syntax else x.old_, x.new_)
  }

  function CleanupInst(x: Inst): Inst {
    x.(old_ := Nothing, new_ := Nothing)
  }

  function UndoInst(x: Inst): Inst {
    Inst(x.old_, Nothing, Nothing)
  }

  /** What the requester's view lets it write and read, which need not be the same; what a
      value must satisfy; where commits raise; and which exception value a name without an
      instance is answered with, `noSuchObject` or `noSuchInstance`. */
  datatype Rules = Rules(writable: Name -> bool, readable: Name -> bool, accepts: VarBind -> bool,
                         faults: nat -> Fault, missing: Name -> Value)

  function Fails(smi: bool, i: nat): Reply {
    if smi then Raised(Exc(COMMIT_FAILED, i)) else Breaks(APPLICATION_ERROR)
  }

  /** What reading an instance comes to. */
  function Read(x: Inst, n: Name, i: nat, get: bool): Reply {
    match x.syntax
    case Nothing => Breaks(ATTRIBUTE_ERROR)
    case NoValue => Raised(Exc(NO_SUCH_INSTANCE, i))
    case Holds(value) => Done(if get then Some(VarBind(n, value)) else None)
  }

  /** The handlers of a tree of scalar instances, access control included. */
  function Scalars(rules: Rules): Handlers<Tree> {
    (s: State, b: VarBind, i: nat, tree: Tree) =>
      if b.name !in tree then
        (tree,
         match s
         case ReadTest => if rules.readable(b.name) then Done(None) else Raised(Exc(NO_ACCESS, i))
         case ReadGet => Done(Some(VarBind(b.name, rules.missing(b.name))))
         case WriteTest => Raised(Exc(if rules.writable(b.name) then NO_SUCH_OBJECT else NOT_WRITABLE, i))
         case _ => Raised(Exc(NO_SUCH_OBJECT, i)))
      else
        var x := tree[b.name];
        match s
        case WriteTest =>
          if !rules.writable(b.name) then (tree, Raised(Exc(NOT_WRITABLE, i)))
          else if x.syntax == Nothing then (tree, Breaks(ATTRIBUTE_ERROR))
          else if rules.accepts(b) then (tree[b.name := TestInst(x, b.val)], Done(None))
          else (tree, Raised(Exc(WRONG_VALUE, i)))
        case WriteCommit =>
          (match rules.faults(i)
           case Never => (tree[b.name := CommitInst(x)], Done(None))
           case Before(smi) => (tree, Fails(smi, i))
           case After(smi) => (tree[b.name := CommitInst(x)], Fails(smi, i)))
        case WriteCleanup => (tree[b.name := CleanupInst(x)], Done(None))
        case WriteUndo => (tree[b.name := UndoInst(x)], Done(None))
        case ReadTest =>
          (tree, if !rules.readable(b.name) then Raised(Exc(NO_ACCESS, i)) else Read(x, b.name, i, false))
        case ReadGet => (tree, Read(x, b.name, i, true))
        case _ => (tree, Done(None))
  }

  /** Every name is an instance, with a syntax and no write outstanding. */
  ghost predicate Ready(tree: Tree, binds: seq<VarBind>) {
    && DistinctNames(binds)
    && (forall k :: 0 <= k < |binds| ==>
          binds[k].name in tree && tree[binds[k].name] == Inst(tree[binds[k].name].syntax, Nothing, Nothing)
          && tree[binds[k].name].syntax != Nothing)
  }

  /** Every binding may be written, with a value its instance accepts. */
  ghost predicate AllPass(rules: Rules, binds: seq<VarBind>) {
    forall k :: 0 <= k < |binds| ==> rules.writable(binds[k].name) && rules.accepts(binds[k])
  }

  /** Binding `j` is the first whose commit raises, and what it raises is an `SmiError`. */
  ghost predicate FirstFault(rules: Rules, binds: seq<VarBind>, j: nat, smi: bool) {
    && j < |binds| && (rules.faults(j) == Before(smi) || rules.faults(j) == After(smi))
    && forall k :: 0 <= k < j ==> rules.faults(k) == Never
  }

  /** How many bindings are committed when the commit of `j` raises. */
  function CommittedAt(rules: Rules, j: nat): nat {
    if rules.faults(j).After? then j + 1 else j
  }

  /** `after` differs from `before` only at the bindings from `i` to `hi`, by `f`. */
  ghost predicate Pointwise(before: Tree, after: Tree, binds: seq<VarBind>, i: nat, hi: nat, f: (Inst, Value) -> Inst)
    requires i <= hi <= |binds|
  {
    && after.Keys == before.Keys
    && (forall k :: i <= k < hi && binds[k].name in before ==>
          after[binds[k].name] == f(before[binds[k].name], binds[k].val))
    && (forall n :: n in before && (forall k :: i <= k < hi ==> binds[k].name != n) ==> after[n] == before[n])
  }

  ghost predicate AllIn(tree: Tree, binds: seq<VarBind>) {
    forall k :: 0 <= k < |binds| ==> binds[k].name in tree
  }

  lemma PointwiseStep(before: Tree, mid: Tree, after: Tree, binds: seq<VarBind>, i: nat, hi: nat,
                      f: (Inst, Value) -> Inst)
    requires DistinctNames(binds) && i < hi <= |binds| && binds[i].name in before
    requires mid == before[binds[i].name := f(before[binds[i].name], binds[i].val)]
    requires Pointwise(mid, after, binds, i + 1, hi, f)
    ensures Pointwise(before, after, binds, i, hi, f)
  {
    var n := binds[i].name;
    assert mid.Keys == before.Keys;
    assert forall k :: i < k < hi ==> binds[k].name != n;
    assert after[n] == mid[n];
  }

  lemma {:induction false} TestPhase(rules: Rules, binds: seq<VarBind>, i: nat, m: Machine<Tree>)
    requires i <= |binds| && DistinctNames(binds) && AllIn(m.store, binds) && AllPass(rules, binds)
    requires forall k :: i <= k < |binds| ==> m.store[binds[k].name].syntax != Nothing
    requires m.state == WriteTest && m.status == Fine
    ensures var r := Phase(Scalars(rules), binds, i, m);
            && r.status == Fine && r.first == m.first
            && Pointwise(m.store, r.store, binds, i, |binds|, (x, v) => TestInst(x, v))
    decreases |binds| - i
  {
    if i < |binds| {
      var next := Perform(Scalars(rules), binds, i, m);
      TestPhase(rules, binds, i + 1, next);
      PointwiseStep(m.store, next.store, Phase(Scalars(rules), binds, i + 1, next).store,
                    binds, i, |binds|, (x, v) => TestInst(x, v));
    }
  }

  /** One commit, by where it raises. */
  lemma CommitOne(rules: Rules, binds: seq<VarBind>, i: nat, m: Machine<Tree>)
    requires i < |binds| && binds[i].name in m.store && m.state == WriteCommit && m.status == Fine
    ensures var next, fault, n := Perform(Scalars(rules), binds, i, m), rules.faults(i), binds[i].name;
            && next.state == WriteCommit
            && next.store == (if fault.Before? then m.store else m.store[n := CommitInst(m.store[n])])
            && next.status == (if fault == Never then Fine else if fault.smi then Failed else Out(APPLICATION_ERROR))
            && next.first == if fault == Never || !fault.smi || m.first != None then m.first
                             else Some(Exc(COMMIT_FAILED, i))
  {
    if rules.faults(i) != Never {
      assert Fails(rules.faults(i).smi, i)
          == if rules.faults(i).smi then Raised(Exc(COMMIT_FAILED, i)) else Breaks(APPLICATION_ERROR);
    }
  }

  /** Commits reach the faulty binding, which counts as committed if it raised late. */
  lemma {:induction false} CommitToFault(rules: Rules, binds: seq<VarBind>, i: nat, j: nat, smi: bool, m: Machine<Tree>)
    requires i <= j && DistinctNames(binds) && AllIn(m.store, binds) && FirstFault(rules, binds, j, smi)
    requires m.state == WriteCommit && m.status == Fine
    ensures var r := Phase(Scalars(rules), binds, i, m);
            && r.status == (if smi then Failed else Out(APPLICATION_ERROR))
            && r.first == (if smi && m.first == None then Some(Exc(COMMIT_FAILED, j)) else m.first)
            && Pointwise(m.store, r.store, binds, i, CommittedAt(rules, j), (x, v) => CommitInst(x))
    decreases j - i
  {
    var h, f, hi := Scalars(rules), (x: Inst, v: Value) => CommitInst(x), CommittedAt(rules, j);
    var next := Perform(h, binds, i, m);
    CommitOne(rules, binds, i, m);
    hide Scalars, Perform;
    if i < j {
      CommitToFault(rules, binds, i + 1, j, smi, next);
      PointwiseStep(m.store, next.store, Phase(h, binds, i + 1, next).store, binds, i, hi, f);
    } else if rules.faults(j).After? {
      assert Pointwise(next.store, next.store, binds, i + 1, j + 1, f);
      PointwiseStep(m.store, next.store, next.store, binds, i, j + 1, f);
    } else {
      assert Pointwise(next.store, next.store, binds, j, j, f);
    }
  }

  lemma {:induction false} UndoAll(rules: Rules, binds: seq<VarBind>, i: nat, m: Machine<Tree>)
    requires i <= |binds| && DistinctNames(binds) && AllIn(m.store, binds)
    requires m.state == WriteUndo && m.status == Fine
    ensures var r := Phase(Scalars(rules), binds, i, m);
            && r.status == Fine && r.first == m.first
            && Pointwise(m.store, r.store, binds, i, |binds|, (x, v) => UndoInst(x))
    decreases |binds| - i
  {
    if i < |binds| {
      var next := Perform(Scalars(rules), binds, i, m);
      UndoAll(rules, binds, i + 1, next);
      PointwiseStep(m.store, next.store, Phase(Scalars(rules), binds, i + 1, next).store,
                    binds, i, |binds|, (x, v) => UndoInst(x));
    }
  }

  lemma {:induction false} ReadsKeepTree(rules: Rules, binds: seq<VarBind>, i: nat, m: Machine<Tree>)
    requires i <= |binds| && m.state in {ReadTest, ReadGet}
    ensures Phase(Scalars(rules), binds, i, m).store == m.store
    decreases |binds| - i
  {
    if i < |binds| {
      ReadsKeepTree(rules, binds, i + 1, Perform(Scalars(rules), binds, i, m));
    }
  }

  lemma ReadBackKeepsTree(rules: Rules, binds: seq<VarBind>, m: Machine<Tree>)
    ensures ReadBack(Scalars(rules), binds, m).store == m.store
  {
    hide Phase;
    var h := Scalars(rules);
    ReadsKeepTree(rules, binds, 0, Enter(m, ReadTest));
    ReadsKeepTree(rules, binds, 0, Enter(Do(h, binds, m, ReadTest), ReadGet));
  }

  /** After a commit that raised an `SmiError` and an undo that did not, every binding
      committed before the raise has its syntax back, and every other has `None`. */
  lemma UndoLosesUncommitted(rules: Rules, binds: seq<VarBind>, tree: Tree, j: nat)
    requires Ready(tree, binds) && AllPass(rules, binds) && FirstFault(rules, binds, j, true)
    ensures var final := WriteRun(Scalars(rules), binds, tree).0.store;
            && final.Keys == tree.Keys
            && (forall k :: 0 <= k < |binds| ==>
                  final[binds[k].name].syntax ==
                  if k < CommittedAt(rules, j) then tree[binds[k].name].syntax else Nothing)
            && (forall n :: n in tree && n !in NamesFrom(binds, 0) ==> final[n] == tree[n])
  {
    hide Run, Phase, ReadBack, Scalars;
    var h := Scalars(rules);
    WriteRunIs(h, binds, tree);
    ReadBackKeepsTree(rules, binds, Settled(h, binds, tree));
    SettledUndone(rules, binds, tree, j);
  }

  /** The state in which such a SET is read back. */
  lemma SettledUndone(rules: Rules, binds: seq<VarBind>, tree: Tree, j: nat)
    requires Ready(tree, binds) && AllPass(rules, binds) && FirstFault(rules, binds, j, true)
    ensures var m := Settled(Scalars(rules), binds, tree);
            && m.status == Fine && m.first == Some(Exc(COMMIT_FAILED, j)) && m.store.Keys == tree.Keys
            && (forall k :: 0 <= k < |binds| ==>
                  m.store[binds[k].name].syntax ==
                  if k < CommittedAt(rules, j) then tree[binds[k].name].syntax else Nothing)
            && (forall n :: n in tree && n !in NamesFrom(binds, 0) ==> m.store[n] == tree[n])
  {
    hide Run, Phase, ReadBack, Scalars, Pointwise;
    var h := Scalars(rules);
    TestPhase(rules, binds, 0, Enter(Initial(tree), WriteTest));
    var tested := Tested(h, binds, tree);
    PointwiseAllIn(tree, tested.store, binds, |binds|, (x, v) => TestInst(x, v));
    CommitToFault(rules, binds, 0, j, true, Enter(tested, WriteCommit));
    var committed := Committed(h, binds, tree);
    PointwiseAllIn(tested.store, committed.store, binds, CommittedAt(rules, j), (x, v) => CommitInst(x));
    UndoAll(rules, binds, 0, Enter(committed, WriteUndo));
    ThreePhases(tree, tested.store, committed.store, Settled(h, binds, tree).store, binds, CommittedAt(rules, j));
  }

  /** The test, the commits up to `hi` and the undo, one after the other. */
  lemma ThreePhases(tree: Tree, tested: Tree, committed: Tree, undone: Tree, binds: seq<VarBind>, hi: nat)
    requires Ready(tree, binds) && hi <= |binds|
    requires Pointwise(tree, tested, binds, 0, |binds|, (x, v) => TestInst(x, v))
    requires Pointwise(tested, committed, binds, 0, hi, (x, v) => CommitInst(x))
    requires Pointwise(committed, undone, binds, 0, |binds|, (x, v) => UndoInst(x))
    ensures undone.Keys == tree.Keys
    ensures forall k :: 0 <= k < |binds| ==>
              undone[binds[k].name].syntax == if k < hi then tree[binds[k].name].syntax else Nothing
    ensures forall n :: n in tree && n !in NamesFrom(binds, 0) ==> undone[n] == tree[n]
  {
    forall k | 0 <= k < |binds|
      ensures undone[binds[k].name].syntax == if k < hi then tree[binds[k].name].syntax else Nothing
    {
      var n := binds[k].name;
      assert tested[n] == TestInst(tree[n], binds[k].val);
      if k < hi {
        assert committed[n] == CommitInst(tested[n]);
      } else {
        assert forall q :: 0 <= q < hi ==> binds[q].name != n;
        assert committed[n] == tested[n];
      }
      assert undone[n] == UndoInst(committed[n]);
    }
    forall n | n in tree && n !in NamesFrom(binds, 0) ensures undone[n] == tree[n] {
      assert forall k :: 0 <= k < |binds| ==> binds[k].name in NamesFrom(binds, 0);
    }
  }

  ghost predicate SameValues(a: Tree, b: Tree) {
    a.Keys == b.Keys && forall n :: n in a ==> a[n].syntax == b[n].syntax
  }

  /** So a failed commit is rolled back exactly when it was the last binding's and had
      already taken its backup. */
  lemma RollbackIsExactIff(rules: Rules, binds: seq<VarBind>, tree: Tree, j: nat)
    requires Ready(tree, binds) && AllPass(rules, binds) && FirstFault(rules, binds, j, true)
    ensures SameValues(WriteRun(Scalars(rules), binds, tree).0.store, tree) <==> CommittedAt(rules, j) == |binds|
  {
    hide WriteRun, Scalars;
    UndoLosesUncommitted(rules, binds, tree, j);
    var final := WriteRun(Scalars(rules), binds, tree).0.store;
    if CommittedAt(rules, j) == |binds| {
      forall n | n in tree ensures final[n].syntax == tree[n].syntax {
        if n in NamesFrom(binds, 0) {
          var k :| 0 <= k < |binds| && binds[k].name == n;
        }
      }
    } else {
      assert final[binds[CommittedAt(rules, j)].name].syntax == Nothing;
    }
  }

  // ---------------------------------------------- a failed commit, hidden

  /** Reading binding `k` back raises an `SmiError`. */
  predicate Refused(rules: Rules, tree: Tree, b: VarBind)
    requires b.name in tree
  {
    !rules.readable(b.name) || tree[b.name].syntax == NoValue
  }

  /** One read, by what it finds. */
  lemma ReadOne(rules: Rules, binds: seq<VarBind>, i: nat, m: Machine<Tree>)
    requires i < |binds| && binds[i].name in m.store && m.state in {ReadTest, ReadGet} && m.status == Fine
    ensures var next, x := Perform(Scalars(rules), binds, i, m), m.store[binds[i].name];
            var refused := m.state == ReadTest && !rules.readable(binds[i].name);
            && next.state == m.state && next.store == m.store
            && next.status == (if refused then Failed
                               else if x.syntax == Nothing then Out(ATTRIBUTE_ERROR)
                               else if x.syntax == NoValue then Failed
                               else Fine)
            && (next.status != Failed || m.first.Some? ==> next.first == m.first)
  {
    var read := Read(m.store[binds[i].name], binds[i].name, i, m.state == ReadGet);
    assert read.Done? <==> m.store[binds[i].name].syntax.Holds?;
    assert read.Breaks? <==> m.store[binds[i].name].syntax == Nothing;
    assert read.Breaks? ==> read.error == ATTRIBUTE_ERROR;
  }

  /** A phase that tests reads ends at the first binding that is refused or has lost its
      syntax, and only the second breaks out. */
  lemma {:induction false} ReadTestEnds(rules: Rules, binds: seq<VarBind>, i: nat, m: Machine<Tree>)
    requires i <= |binds| && AllIn(m.store, binds) && m.state == ReadTest && m.status == Fine
    ensures var r := Phase(Scalars(rules), binds, i, m);
            && (r.status.Out? <==> BreaksOut(rules, m.store, binds, i))
            && (r.status.Out? ==> r.status.error == ATTRIBUTE_ERROR)
            && (r.status == Fine ==> forall k :: i <= k < |binds| ==> m.store[binds[k].name].syntax.Holds?)
            && (m.first.Some? ==> r.first == m.first)
    decreases |binds| - i
  {
    if i < |binds| {
      var next := Perform(Scalars(rules), binds, i, m);
      ReadOne(rules, binds, i, m);
      hide Scalars, Perform;
      if next.status == Fine {
        ReadTestEnds(rules, binds, i + 1, next);
      }
    }
  }

  /** Reading the bindings back, from `i`, reaches one that may be read and has no syntax. */
  predicate BreaksOut(rules: Rules, tree: Tree, binds: seq<VarBind>, i: nat)
    requires i <= |binds| && AllIn(tree, binds)
    decreases |binds| - i
  {
    && i < |binds| && rules.readable(binds[i].name)
    && (tree[binds[i].name].syntax == Nothing
        || (tree[binds[i].name].syntax.Holds? && BreaksOut(rules, tree, binds, i + 1)))
  }

  lemma {:induction false} ReadGetHolds(rules: Rules, binds: seq<VarBind>, i: nat, m: Machine<Tree>)
    requires i <= |binds| && AllIn(m.store, binds) && m.state == ReadGet && m.status == Fine
    requires forall k :: i <= k < |binds| ==> m.store[binds[k].name].syntax.Holds?
    ensures var r := Phase(Scalars(rules), binds, i, m);
            r.status == Fine && r.first == m.first
    decreases |binds| - i
  {
    if i < |binds| {
      ReadOne(rules, binds, i, m);
      hide Scalars, Perform;
      ReadGetHolds(rules, binds, i + 1, Perform(Scalars(rules), binds, i, m));
    }
  }

  /** Whether a SET whose commit of `j` raised an `SmiError` says so: yes, if every binding
      had been committed, or if reading one of those back, or the first that was not, is
      refused before the reading reaches an instance the undo has emptied. */
  ghost predicate CommitErrorShows(rules: Rules, binds: seq<VarBind>, tree: Tree, j: nat)
    requires AllIn(tree, binds) && j < |binds|
  {
    var hi := CommittedAt(rules, j);
    || hi == |binds|
    || (exists k :: 0 <= k < hi && Refused(rules, tree, binds[k]))
    || !rules.readable(binds[hi].name)
  }

  /** A failed commit is reported if and only if that is so; otherwise what comes out is an
      attribute error of `None`, and the request is not answered. */
  lemma CommitErrorReportedIff(rules: Rules, binds: seq<VarBind>, tree: Tree, j: nat)
    requires Ready(tree, binds) && AllPass(rules, binds) && FirstFault(rules, binds, j, true)
    ensures OutcomeOf(WriteRun(Scalars(rules), binds, tree)) ==
            if CommitErrorShows(rules, binds, tree, j) then Error(Exc(COMMIT_FAILED, j)) else Escaped(ATTRIBUTE_ERROR)
  {
    hide Run, Phase, Scalars, Settled;
    var h, hi := Scalars(rules), CommittedAt(rules, j);
    WriteRunIs(h, binds, tree);
    SettledUndone(rules, binds, tree, j);
    var m := Settled(h, binds, tree);
    ReadTestEnds(rules, binds, 0, Enter(m, ReadTest));
    var test := Do(h, binds, m, ReadTest);
    ReadsKeepTree(rules, binds, 0, Enter(m, ReadTest));
    EmptiedReads(rules, binds, tree, m.store, j, 0);
    if test.status == Fine {
      ReadGetHolds(rules, binds, 0, Enter(test, ReadGet));
    }
  }

  /** After the undo the reading reaches an emptied instance exactly when it is not stopped
      before. */
  lemma {:induction false} EmptiedReads(rules: Rules, binds: seq<VarBind>, tree: Tree, undone: Tree, j: nat, i: nat)
    requires Ready(tree, binds) && j < |binds| && undone.Keys == tree.Keys && i <= CommittedAt(rules, j)
    requires forall k :: 0 <= k < |binds| ==>
               undone[binds[k].name].syntax == if k < CommittedAt(rules, j) then tree[binds[k].name].syntax else Nothing
    requires forall k :: 0 <= k < i ==> !Refused(rules, tree, binds[k])
    ensures BreaksOut(rules, undone, binds, i) <==> !CommitErrorShows(rules, binds, tree, j)
    decreases |binds| - i
  {
    if i < CommittedAt(rules, j) && !Refused(rules, tree, binds[i]) {
      EmptiedReads(rules, binds, tree, undone, j, i + 1);
    }
  }

  const TWO_SCALARS: Tree := map[[1, 3, 0] := Inst(Holds([5]), Nothing, Nothing),
                                 [1, 4, 0] := Inst(Holds([6]), Nothing, Nothing)]
  const BOTH := [VarBind([1, 3, 0], [7]), VarBind([1, 4, 0], [8])]
  const FIRST_FAILS: Rules :=
    Rules((n: Name) => true, (n: Name) => true, (b: VarBind) => true,
          (i: nat) => if i == 0 then Before(true) else Never, (n: Name) => [])

  /** Two scalars, readable and writable, the first of which fails to commit: both are
      emptied, and the commit's error is hidden. */
  lemma FirstCommitErrorHidden()
    ensures var r := WriteRun(Scalars(FIRST_FAILS), BOTH, TWO_SCALARS);
            && OutcomeOf(r) == Escaped(ATTRIBUTE_ERROR)
            && [1, 3, 0] in r.0.store && r.0.store[[1, 3, 0]].syntax == Nothing
            && [1, 4, 0] in r.0.store && r.0.store[[1, 4, 0]].syntax == Nothing
  {
    hide WriteRun, Scalars, OutcomeOf;
    assert BOTH[0].name != BOTH[1].name by { assert BOTH[0].name[1] != BOTH[1].name[1]; }
    CommitErrorReportedIff(FIRST_FAILS, BOTH, TWO_SCALARS, 0);
    UndoLosesUncommitted(FIRST_FAILS, BOTH, TWO_SCALARS, 0);
  }

  /** Nor can an emptied instance be written again: any SET that reaches it breaks out of
      its test, with nothing cleaned up. */
  lemma EmptiedStaysEmptied(rules: Rules, binds: seq<VarBind>, tree: Tree)
    requires binds != [] && binds[0].name in tree && rules.writable(binds[0].name)
    requires tree[binds[0].name].syntax == Nothing
    ensures var r := WriteRun(Scalars(rules), binds, tree);
            OutcomeOf(r) == Escaped(ATTRIBUTE_ERROR) && r.0.store == tree
  {
    WriteRunIs(Scalars(rules), binds, tree);
    hide Run;
  }

  /** A commit that raises anything but an `SmiError` is not undone: the bindings committed
      by then hold the new values, the others the old ones. */
  lemma BrokenCommitHalfDone(rules: Rules, binds: seq<VarBind>, tree: Tree, j: nat)
    requires Ready(tree, binds) && AllPass(rules, binds) && FirstFault(rules, binds, j, false)
    ensures var r := WriteRun(Scalars(rules), binds, tree);
            && OutcomeOf(r) == Escaped(APPLICATION_ERROR) && r.0.store.Keys == tree.Keys
            && (forall k :: 0 <= k < |binds| ==>
                  r.0.store[binds[k].name].syntax ==
                  if k < CommittedAt(rules, j) then Holds(binds[k].val) else tree[binds[k].name].syntax)
            && (forall n :: n in tree && n !in NamesFrom(binds, 0) ==> r.0.store[n] == tree[n])
  {
    hide Run, Phase, Scalars, Pointwise;
    var h := Scalars(rules);
    WriteRunIs(h, binds, tree);
    TestPhase(rules, binds, 0, Enter(Initial(tree), WriteTest));
    var tested := Tested(h, binds, tree);
    PointwiseAllIn(tree, tested.store, binds, |binds|, (x, v) => TestInst(x, v));
    CommitToFault(rules, binds, 0, j, false, Enter(tested, WriteCommit));
    TwoPhases(tree, tested.store, Committed(h, binds, tree).store, binds, CommittedAt(rules, j));
  }

  lemma TwoPhases(tree: Tree, tested: Tree, committed: Tree, binds: seq<VarBind>, hi: nat)
    requires Ready(tree, binds) && hi <= |binds|
    requires Pointwise(tree, tested, binds, 0, |binds|, (x, v) => TestInst(x, v))
    requires Pointwise(tested, committed, binds, 0, hi, (x, v) => CommitInst(x))
    ensures committed.Keys == tree.Keys
    ensures forall k :: 0 <= k < |binds| ==>
              committed[binds[k].name].syntax == if k < hi then Holds(binds[k].val) else tree[binds[k].name].syntax
    ensures forall n :: n in tree && n !in NamesFrom(binds, 0) ==> committed[n] == tree[n]
  {
    forall k | 0 <= k < |binds|
      ensures committed[binds[k].name].syntax == if k < hi then Holds(binds[k].val) else tree[binds[k].name].syntax
    {
      var n := binds[k].name;
      assert tested[n] == TestInst(tree[n], binds[k].val);
      if k < hi {
        assert committed[n] == CommitInst(tested[n]);
      } else {
        assert forall q :: 0 <= q < hi ==> binds[q].name != n;
        assert committed[n] == tested[n];
      }
    }
    forall n | n in tree && n !in NamesFrom(binds, 0) ensures committed[n] == tree[n] {
      assert forall k :: 0 <= k < |binds| ==> binds[k].name in NamesFrom(binds, 0);
    }
  }

  // ------------------------------------------ writes in force, and an error

  lemma {:induction false} CommitAll(rules: Rules, binds: seq<VarBind>, i: nat, m: Machine<Tree>)
    requires i <= |binds| && DistinctNames(binds) && AllIn(m.store, binds)
    requires forall k :: 0 <= k < |binds| ==> rules.faults(k) == Never
    requires m.state == WriteCommit && m.status == Fine
    ensures var r := Phase(Scalars(rules), binds, i, m);
            r.status == Fine && Pointwise(m.store, r.store, binds, i, |binds|, (x, v) => CommitInst(x))
    decreases |binds| - i
  {
    if i < |binds| {
      var next := Perform(Scalars(rules), binds, i, m);
      CommitAll(rules, binds, i + 1, next);
      PointwiseStep(m.store, next.store, Phase(Scalars(rules), binds, i + 1, next).store,
                    binds, i, |binds|, (x, v) => CommitInst(x));
    }
  }

  lemma {:induction false} CleanupAll(rules: Rules, binds: seq<VarBind>, i: nat, m: Machine<Tree>)
    requires i <= |binds| && DistinctNames(binds) && AllIn(m.store, binds)
    requires m.state == WriteCleanup && m.status == Fine
    ensures var r := Phase(Scalars(rules), binds, i, m);
            && r.status == Fine && r.first == m.first
            && Pointwise(m.store, r.store, binds, i, |binds|, (x, v) => CleanupInst(x))
    decreases |binds| - i
  {
    if i < |binds| {
      var next := Perform(Scalars(rules), binds, i, m);
      CleanupAll(rules, binds, i + 1, next);
      PointwiseStep(m.store, next.store, Phase(Scalars(rules), binds, i + 1, next).store,
                    binds, i, |binds|, (x, v) => CleanupInst(x));
    }
  }

  /** Every binding's instance holds what was asked, with no write outstanding. */
  ghost predicate InForce(tree: Tree, binds: seq<VarBind>) {
    forall k :: 0 <= k < |binds| ==>
      binds[k].name in tree && tree[binds[k].name] == Inst(Holds(binds[k].val), Nothing, Nothing)
  }

  lemma {:induction false} ReadPhaseFails(rules: Rules, binds: seq<VarBind>, i: nat, m: Machine<Tree>)
    requires i <= |binds| && InForce(m.store, binds) && m.status == Fine && m.state in {ReadTest, ReadGet}
    ensures Phase(Scalars(rules), binds, i, m).status ==
            if m.state == ReadTest && exists k :: i <= k < |binds| && !rules.readable(binds[k].name) then Failed
            else Fine
    decreases |binds| - i
  {
    if i < |binds| {
      var next := Perform(Scalars(rules), binds, i, m);
      ReadOne(rules, binds, i, m);
      hide Scalars, Perform;
      if next.status == Fine {
        ReadPhaseFails(rules, binds, i + 1, next);
      }
    }
  }

  lemma ThreeWritePhases(tree: Tree, tested: Tree, committed: Tree, cleaned: Tree, binds: seq<VarBind>)
    requires Ready(tree, binds)
    requires Pointwise(tree, tested, binds, 0, |binds|, (x, v) => TestInst(x, v))
    requires Pointwise(tested, committed, binds, 0, |binds|, (x, v) => CommitInst(x))
    requires Pointwise(committed, cleaned, binds, 0, |binds|, (x, v) => CleanupInst(x))
    ensures InForce(cleaned, binds) && cleaned.Keys == tree.Keys
    ensures forall n :: n in tree && n !in NamesFrom(binds, 0) ==> cleaned[n] == tree[n]
  {
    forall k | 0 <= k < |binds|
      ensures cleaned[binds[k].name] == Inst(Holds(binds[k].val), Nothing, Nothing)
    {
      var n := binds[k].name;
      assert tested[n] == TestInst(tree[n], binds[k].val);
      assert committed[n] == CommitInst(tested[n]);
      assert cleaned[n] == CleanupInst(committed[n]);
    }
    forall n | n in tree && n !in NamesFrom(binds, 0)
      ensures cleaned[n] == tree[n]
    {
      assert forall k :: 0 <= k < |binds| ==> binds[k].name in NamesFrom(binds, 0);
    }
  }

  lemma SettledInForce(rules: Rules, binds: seq<VarBind>, tree: Tree)
    requires Ready(tree, binds) && AllPass(rules, binds) && forall k :: 0 <= k < |binds| ==> rules.faults(k) == Never
    ensures var h := Scalars(rules);
            var m := Settled(h, binds, tree);
            && Tested(h, binds, tree).status == Fine && Committed(h, binds, tree).status == Fine && m.status == Fine
            && InForce(m.store, binds) && m.store.Keys == tree.Keys
            && (forall n :: n in tree && n !in NamesFrom(binds, 0) ==> m.store[n] == tree[n])
  {
    hide Phase, Scalars, Pointwise;
    var h := Scalars(rules);
    TestPhase(rules, binds, 0, Enter(Initial(tree), WriteTest));
    var tested := Tested(h, binds, tree);
    PointwiseAllIn(tree, tested.store, binds, |binds|, (x, v) => TestInst(x, v));
    CommitAll(rules, binds, 0, Enter(tested, WriteCommit));
    var committed := Committed(h, binds, tree);
    PointwiseAllIn(tested.store, committed.store, binds, |binds|, (x, v) => CommitInst(x));
    CleanupAll(rules, binds, 0, Enter(committed, WriteCleanup));
    ThreeWritePhases(tree, tested.store, committed.store, Settled(h, binds, tree).store, binds);
  }

  /** A SET that passes its tests and commits puts every value in force, and reports an
      error if and only if the view does not let the requester read back one it wrote. */
  lemma UnreadableWritesError(rules: Rules, binds: seq<VarBind>, tree: Tree)
    requires Ready(tree, binds) && AllPass(rules, binds) && forall k :: 0 <= k < |binds| ==> rules.faults(k) == Never
    ensures var r := WriteRun(Scalars(rules), binds, tree);
            && InForce(r.0.store, binds) && r.0.store.Keys == tree.Keys
            && (forall n :: n in tree && n !in NamesFrom(binds, 0) ==> r.0.store[n] == tree[n])
            && (if Unreadable(rules, binds) then OutcomeOf(r).Error? else OutcomeOf(r).Bindings?)
  {
    SettledInForce(rules, binds, tree);
    hide Run, Phase, Scalars, Settled, Tested, Committed, InForce, Ready, Unreadable;
    var h := Scalars(rules);
    WriteRunIs(h, binds, tree);
    var settled := Settled(h, binds, tree);
    ReadBackKeepsTree(rules, binds, settled);
    ErrorIffEndFails(h, binds, tree);
    ReadBackInForce(rules, binds, settled);
    hide ReadBack;
  }

  lemma ReadBackInForce(rules: Rules, binds: seq<VarBind>, m: Machine<Tree>)
    requires InForce(m.store, binds) && m.status == Fine
    ensures ReadBack(Scalars(rules), binds, m).status == if Unreadable(rules, binds) then Failed else Fine
  {
    hide Phase, Scalars, InForce, Unreadable;
    ReadPhaseFails(rules, binds, 0, Enter(m, ReadTest));
    ReadsKeepTree(rules, binds, 0, Enter(m, ReadTest));
    ReadPhaseFails(rules, binds, 0, Enter(Do(Scalars(rules), binds, m, ReadTest), ReadGet));
    UnreadableIs(rules, binds);
  }

  ghost predicate Unreadable(rules: Rules, binds: seq<VarBind>) {
    exists k :: 0 <= k < |binds| && !rules.readable(binds[k].name)
  }

  lemma UnreadableIs(rules: Rules, binds: seq<VarBind>)
    ensures Unreadable(rules, binds) <==> exists k :: 0 <= k < |binds| && !rules.readable(binds[k].name)
  {
  }

  lemma PointwiseAllIn(before: Tree, after: Tree, binds: seq<VarBind>, hi: nat, f: (Inst, Value) -> Inst)
    requires hi <= |binds| && AllIn(before, binds) && Pointwise(before, after, binds, 0, hi, f)
    ensures AllIn(after, binds)
  {
  }

  const WRITE_ONLY: Rules :=
    Rules((n: Name) => true, (n: Name) => false, (b: VarBind) => true, (i: nat) => Never, (n: Name) => [])
  const ONE_SCALAR: Tree := map[[1, 3, 0] := Inst(Holds([5]), Nothing, Nothing)]

  /** One scalar at 1.3.0, which the view allows to be written and not read: the SET is
      answered with an error and the new value is in place. */
  lemma WriteOnlyScalarErrors()
    ensures var r := WriteRun(Scalars(WRITE_ONLY), [VarBind([1, 3, 0], [7])], ONE_SCALAR);
            OutcomeOf(r).Error? && InForce(r.0.store, [VarBind([1, 3, 0], [7])])
  {
    hide WriteRun, Scalars, OutcomeOf, InForce;
    var binds := [VarBind([1, 3, 0], [7])];
    UnreadableWritesError(WRITE_ONLY, binds, ONE_SCALAR);
    assert Unreadable(WRITE_ONLY, binds) by { assert !WRITE_ONLY.readable(binds[0].name); }
  }
}
