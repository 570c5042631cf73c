/** What a SET promises: tested before committed, all or nothing, the first error
    reported, a bounded number of handler calls; and exactly where the code falls short. */
module SetAtomicity {
  import opened Wrappers
  import opened SetMachine

  // ----------------------------------------------------- the phases of a SET

  function Do<S>(h: Handlers<S>, binds: seq<VarBind>, m: Machine<S>, s: State): Machine<S> {
    Phase(h, binds, 0, Enter(m, s))
  }

  /** The closing read-back. */
  function ReadBack<S>(h: Handlers<S>, binds: seq<VarBind>, m: Machine<S>): Machine<S> {
    if m.status != Fine then m
    else
      var test := Do(h, binds, m, ReadTest);
      if test.status != Fine then test else Do(h, binds, test, ReadGet)
  }

  function Tested<S>(h: Handlers<S>, binds: seq<VarBind>, store: S): Machine<S> {
    Do(h, binds, Initial(store), WriteTest)
  }

  function Committed<S>(h: Handlers<S>, binds: seq<VarBind>, store: S): Machine<S> {
    Do(h, binds, Tested(h, binds, store), WriteCommit)
  }

  /** The store settles here: cleanup after a failed test or a full commit, undo after a
      failed commit, and nothing after an exception that is not an `SmiError`. */
  function Settled<S>(h: Handlers<S>, binds: seq<VarBind>, store: S): Machine<S> {
    var tested, committed := Tested(h, binds, store), Committed(h, binds, store);
    if tested.status.Out? then tested
    else if tested.status == Failed then Do(h, binds, tested, WriteCleanup)
    else if committed.status.Out? then committed
    else Do(h, binds, committed, if committed.status == Failed then WriteUndo else WriteCleanup)
  }

  function Halted<S>(m: Machine<S>): Machine<S> {
    if m.status.Out? then m else Enter(m, Stop)
  }

  lemma NextStep<S>(h: Handlers<S>, binds: seq<VarBind>, m: Machine<S>)
    requires Descends(WRITE)
    ensures Run(h, WRITE, binds, m) ==
            if m.status.Out? then (m, true)
            else
              match NextInWrite(m.state, m.status)
              case None => (m, false)
              case Some(s) => if s == Stop then (Enter(m, Stop), true) else Run(h, WRITE, binds, Do(h, binds, m, s))
  {
    WriteTable(m.state, m.status);
  }

  lemma ReadBackRuns<S>(h: Handlers<S>, binds: seq<VarBind>, m: Machine<S>)
    requires Descends(WRITE) && (m.status.Out? || m.state == WriteCleanup || m.state == WriteUndo)
    ensures Run(h, WRITE, binds, m) == (Halted(ReadBack(h, binds, m)), true)
  {
    hide Run, Phase;
    NextStep(h, binds, m);
    if m.status == Fine {
      var test := Do(h, binds, m, ReadTest);
      NextStep(h, binds, test);
      if test.status == Fine {
        NextStep(h, binds, Do(h, binds, test, ReadGet));
      }
    }
  }

  /** The table, followed: a SET is test, then commit, then cleanup or undo, then read back,
      as far as no exception but an `SmiError` comes out of a handler. */
  lemma WriteRunIs<S>(h: Handlers<S>, binds: seq<VarBind>, store: S)
    ensures WriteRun(h, binds, store) == (Halted(ReadBack(h, binds, Settled(h, binds, store))), true)
  {
    hide Run, Phase, ReadBack;
    WriteDescends();
    NextStep(h, binds, Initial(store));
    NextStep(h, binds, Tested(h, binds, store));
    if Tested(h, binds, store).status == Fine {
      NextStep(h, binds, Committed(h, binds, store));
    }
    ReadBackRuns(h, binds, Settled(h, binds, store));
  }

  // ---------------------------------------- what holds of any handlers at all

  /** The first `SmiError` raised. */
  function Raises(calls: seq<Call>): Option<Exc> {
    if calls == [] then None
    else if calls[0].ended.Threw? then Some(calls[0].ended.exc)
    else Raises(calls[1..])
  }

  lemma {:induction false} RaisesAppend(a: seq<Call>, b: seq<Call>)
    ensures Raises(a + b) == if Raises(a).Some? then Raises(a) else Raises(b)
  {
    if a == [] {
      assert a + b == b;
    } else {
      assert (a + b)[1..] == a[1..] + b;
      RaisesAppend(a[1..], b);
    }
  }

  ghost predicate NoneBroke(calls: seq<Call>) {
    forall k :: 0 <= k < |calls| ==> !calls[k].ended.Broke?
  }

  /** Only the last call may have broken out, and then that is how the machine stands. */
  ghost predicate BrokeLast(calls: seq<Call>, status: Status) {
    if status.Out? then
      calls != [] && calls[|calls| - 1].ended == Broke(status.error) && NoneBroke(calls[..|calls| - 1])
    else NoneBroke(calls)
  }

  /** The machine's account of its calls: the first error, and what broke out. */
  ghost predicate Accounts<S>(m: Machine<S>) {
    m.first == Raises(m.calls) && BrokeLast(m.calls, m.status)
  }

  lemma BrokeAppend(a: seq<Call>, b: seq<Call>, status: Status)
    requires NoneBroke(a) && BrokeLast(b, status)
    ensures BrokeLast(a + b, status)
  {
    if status.Out? {
      assert (a + b)[..|a + b| - 1] == a + b[..|b| - 1];
    }
  }

  /** The calls of one phase: its bindings in order, from `i`, ending where one raises. */
  ghost predicate PhaseCalls(s: State, i: nat, n: nat, status: Status, calls: seq<Call>)
    requires i <= n
  {
    && |calls| <= n - i
    && (forall k :: 0 <= k < |calls| ==> calls[k].phase == s && calls[k].idx == i + k)
    && (forall k :: 0 <= k < |calls| - 1 ==> calls[k].ended == Returned)
    && match status
       case Fine => |calls| == n - i && (calls != [] ==> calls[|calls| - 1].ended == Returned)
       case Failed => calls != [] && calls[|calls| - 1].ended.Threw?
       case Out(e) => calls != [] && calls[|calls| - 1].ended == Broke(e)
  }

  lemma {:induction false} PhaseTrace<S>(h: Handlers<S>, binds: seq<VarBind>, i: nat, m: Machine<S>)
    returns (calls: seq<Call>)
    requires i <= |binds| && m.status == Fine
    ensures var r := Phase(h, binds, i, m);
            && r.calls == m.calls + calls
            && PhaseCalls(m.state, i, |binds|, r.status, calls)
            && r.first == (if m.first.Some? then m.first else Raises(calls))
            && (r.status == Failed <==> Raises(calls).Some?)
    decreases |binds| - i
  {
    if i == |binds| {
      calls := [];
      assert m.calls + [] == m.calls;
    } else {
      var next := Perform(h, binds, i, m);
      var call := next.calls[|m.calls|];
      assert next.calls == m.calls + [call];
      if next.status != Fine {
        calls := [call];
        assert [call][1..] == [];
      } else {
        var rest := PhaseTrace(h, binds, i + 1, next);
        calls := [call] + rest;
        assert m.calls + [call] + rest == m.calls + calls;
        assert calls[1..] == rest;
      }
    }
  }

  lemma PhaseBrokeLast(s: State, n: nat, status: Status, calls: seq<Call>)
    requires PhaseCalls(s, 0, n, status, calls)
    ensures BrokeLast(calls, status)
  {
  }

  /** How one phase extends the trace. */
  lemma DoTrace<S>(h: Handlers<S>, binds: seq<VarBind>, m: Machine<S>, s: State) returns (calls: seq<Call>)
    requires Accounts(m) && !m.status.Out?
    ensures var r := Do(h, binds, m, s);
            && r.calls == m.calls + calls && r.state == s
            && PhaseCalls(s, 0, |binds|, r.status, calls)
            && Accounts(r)
            && (r.status == Failed <==> Raises(calls).Some?)
  {
    hide Phase, PhaseCalls, Raises, BrokeLast;
    calls := PhaseTrace(h, binds, 0, Enter(m, s));
    RaisesAppend(m.calls, calls);
    var r := Do(h, binds, m, s);
    PhaseBrokeLast(s, |binds|, r.status, calls);
    NotOutNoneBroke(m);
    BrokeAppend(m.calls, calls, r.status);
  }

  lemma NotOutNoneBroke<S>(m: Machine<S>)
    requires Accounts(m) && !m.status.Out?
    ensures NoneBroke(m.calls)
  {
  }

  ghost predicate CommitsFollowTests(calls: seq<Call>, n: nat) {
    forall p, i :: 0 <= p < |calls| && calls[p].phase == WriteCommit && 0 <= i < n ==>
      exists q :: 0 <= q < p && calls[q] == Call(WriteTest, i, Returned)
  }

  /** What a trace has the requester told: what broke out, if anything did; else the first
      `SmiError` raised; else the bindings. */
  function Report(calls: seq<Call>, out: seq<VarBind>): Outcome {
    if calls != [] && calls[|calls| - 1].ended.Broke? then Escaped(calls[|calls| - 1].ended.error)
    else if Raises(calls).Some? then Error(Raises(calls).value)
    else Bindings(out)
  }

  /** The trace of a SET, whatever the handlers do: no binding is committed unless every
      one has passed its test; no handler is called more than five times per binding over
      the whole run; and nothing is called after a handler that raised anything but an
      `SmiError`, which is then what comes out, the first `SmiError` or none otherwise. */
  lemma SetTrace<S>(h: Handlers<S>, binds: seq<VarBind>, store: S)
    ensures var r := WriteRun(h, binds, store);
            var calls := r.0.calls;
            && CommitsFollowTests(calls, |binds|)
            && |calls| <= 5 * |binds|
            && (forall k :: 0 <= k < |calls| && calls[k].ended.Broke? ==> k == |calls| - 1)
            && OutcomeOf(r) == Report(calls, r.0.out)
  {
    hide Phase, Do, Raises, CommitsFollowTests, PhaseCalls, Settled;
    WriteRunIs(h, binds, store);
    var t, c, x := SettledTrace(h, binds, store);
    var settled := Settled(h, binds, store);
    var r := ReadBackTrace(h, binds, settled);
    assert t + c + x + r == t + c + (x + r);
    CommitsAfter(t, c, x + r, |binds|, Tested(h, binds, store).status);
    ReportsAccount(ReadBack(h, binds, settled));
  }

  lemma ReportsAccount<S>(m: Machine<S>)
    requires Accounts(m)
    ensures forall k :: 0 <= k < |m.calls| && m.calls[k].ended.Broke? ==> k == |m.calls| - 1
    ensures OutcomeOf((Halted(m), true)) == Report(m.calls, m.out)
  {
    hide Raises;
    if m.status.Out? {
      forall k | 0 <= k < |m.calls| - 1
        ensures !m.calls[k].ended.Broke?
      {
        assert m.calls[..|m.calls| - 1][k] == m.calls[k];
      }
    }
  }

  /** The calls up to where the bindings are read back: tests, commits if the tests
      passed, and undoing or cleaning up if nothing has broken out. */
  lemma {:induction false} SettledTrace<S>(h: Handlers<S>, binds: seq<VarBind>, store: S)
    returns (t: seq<Call>, c: seq<Call>, x: seq<Call>)
    ensures var m, tested := Settled(h, binds, store), Tested(h, binds, store);
            && m.calls == t + c + x && Accounts(m)
            && PhaseCalls(WriteTest, 0, |binds|, tested.status, t)
            && (if tested.status != Fine then c == [] else forall k :: 0 <= k < |c| ==> c[k].phase == WriteCommit)
            && |t| <= |binds| && |c| <= |binds| && |x| <= |binds|
            && forall k :: 0 <= k < |x| ==> x[k].phase != WriteCommit
  {
    hide Phase, Do, Raises, BrokeLast;
    var begin := Initial(store);
    NothingAccounts(store);
    t := DoTrace(h, binds, begin, WriteTest);
    assert begin.calls + t == t;
    var tested := Tested(h, binds, store);
    c, x := [], [];
    assert t + [] == t;
    if tested.status == Failed {
      x := DoTrace(h, binds, tested, WriteCleanup);
    } else if tested.status == Fine {
      c := DoTrace(h, binds, tested, WriteCommit);
      var committed := Committed(h, binds, store);
      assert t + c + [] == t + c;
      if !committed.status.Out? {
        x := DoTrace(h, binds, committed, if committed.status == Failed then WriteUndo else WriteCleanup);
      }
    }
  }

  /** How a phase ended, by its calls. */
  function EndStatus(calls: seq<Call>): Status {
    if calls == [] then Fine
    else
      match calls[|calls| - 1].ended
      case Returned => Fine
      case Threw(_) => Failed
      case Broke(e) => Out(e)
  }

  /** All the calls of one phase over `n` bindings. */
  ghost predicate WholePhase(s: State, n: nat, calls: seq<Call>) {
    PhaseCalls(s, 0, n, EndStatus(calls), calls)
  }

  /** What a SET calls: every binding is tested; if all pass, every one is committed; if a
      test failed or all were committed, every one is cleaned up, and if a commit failed,
      undone; if nothing raised in that, every one is test-read and then read. */
  ghost predicate SetPhases(n: nat, t: seq<Call>, c: seq<Call>, x: seq<Call>, a: seq<Call>, g: seq<Call>) {
    && WholePhase(WriteTest, n, t)
    && (if EndStatus(t) == Fine then WholePhase(WriteCommit, n, c) else c == [])
    && (if EndStatus(t).Out? || EndStatus(c).Out? then x == []
        else WholePhase(if EndStatus(c) == Failed then WriteUndo else WriteCleanup, n, x))
    && (if EndStatus(t).Out? || EndStatus(c).Out? || EndStatus(x) != Fine then a == []
        else WholePhase(ReadTest, n, a))
    && (if EndStatus(t).Out? || EndStatus(c).Out? || EndStatus(x) != Fine || EndStatus(a) != Fine then g == []
        else WholePhase(ReadGet, n, g))
  }

  lemma PhaseIsWhole(s: State, n: nat, status: Status, calls: seq<Call>)
    requires PhaseCalls(s, 0, n, status, calls)
    ensures WholePhase(s, n, calls) && EndStatus(calls) == status
  {
  }

  lemma DoWhole<S>(h: Handlers<S>, binds: seq<VarBind>, m: Machine<S>, s: State) returns (calls: seq<Call>)
    requires Accounts(m) && !m.status.Out?
    ensures var r := Do(h, binds, m, s);
            && r.calls == m.calls + calls && Accounts(r)
            && WholePhase(s, |binds|, calls) && EndStatus(calls) == r.status
  {
    hide Do, Accounts, PhaseCalls;
    calls := DoTrace(h, binds, m, s);
    PhaseIsWhole(s, |binds|, Do(h, binds, m, s).status, calls);
  }

  /** The phases of a SET, in order and to their ends. */
  lemma SetRunsPhases<S>(h: Handlers<S>, binds: seq<VarBind>, store: S)
    returns (t: seq<Call>, c: seq<Call>, x: seq<Call>, a: seq<Call>, g: seq<Call>)
    ensures WriteRun(h, binds, store).0.calls == t + c + x + a + g
    ensures SetPhases(|binds|, t, c, x, a, g)
  {
    WriteRunIs(h, binds, store);
    hide WriteRun, Do, Accounts, WholePhase, EndStatus;
    var begin := Initial(store);
    NothingAccounts(store);
    t := DoWhole(h, binds, begin, WriteTest);
    c, x, a, g := [], [], [], [];
    NothingEnds();
    assert begin.calls + t == t;
    var m := Tested(h, binds, store);
    if m.status == Fine {
      c := DoWhole(h, binds, m, WriteCommit);
      m := Committed(h, binds, store);
    }
    assert m.calls == t + c;
    if !m.status.Out? {
      var s := if EndStatus(c) == Failed then WriteUndo else WriteCleanup;
      x := DoWhole(h, binds, m, s);
      m := Do(h, binds, m, s);
      assert m == Settled(h, binds, store);
      if m.status == Fine {
        a := DoWhole(h, binds, m, ReadTest);
        var test := Do(h, binds, m, ReadTest);
        if test.status == Fine {
          g := DoWhole(h, binds, test, ReadGet);
        }
      }
    }
  }

  lemma NothingEnds()
    ensures EndStatus([]) == Fine
  {
  }

  lemma NothingAccounts<S>(store: S)
    ensures Accounts(Initial(store)) && Raises([]) == None
  {
  }

  lemma ReadBackTrace<S>(h: Handlers<S>, binds: seq<VarBind>, m: Machine<S>) returns (calls: seq<Call>)
    requires Accounts(m)
    ensures var r := ReadBack(h, binds, m);
            && r.calls == m.calls + calls && Accounts(r)
            && |calls| <= 2 * |binds|
            && forall k :: 0 <= k < |calls| ==> calls[k].phase == ReadTest || calls[k].phase == ReadGet
  {
    hide Phase, Do, Raises, BrokeLast;
    calls := [];
    assert m.calls + calls == m.calls;
    if m.status == Fine {
      calls := DoTrace(h, binds, m, ReadTest);
      var test := Do(h, binds, m, ReadTest);
      if test.status == Fine {
        var more := DoTrace(h, binds, test, ReadGet);
        assert m.calls + calls + more == m.calls + (calls + more);
        calls := calls + more;
      }
    }
  }

  lemma CommitsAfter(t: seq<Call>, c: seq<Call>, rest: seq<Call>, n: nat, status: Status)
    requires PhaseCalls(WriteTest, 0, n, status, t)
    requires if status != Fine then c == [] else forall k :: 0 <= k < |c| ==> c[k].phase == WriteCommit
    requires forall k :: 0 <= k < |rest| ==> rest[k].phase != WriteCommit
    ensures CommitsFollowTests(t + c + rest, n)
  {
    var calls := t + c + rest;
    assert forall p :: 0 <= p < |t| ==> calls[p] == t[p];
    assert forall p :: |t| + |c| <= p < |calls| ==> calls[p] == rest[p - |t| - |c|];
    forall p, i | 0 <= p < |calls| && calls[p].phase == WriteCommit && 0 <= i < n
      ensures exists q :: 0 <= q < p && calls[q] == Call(WriteTest, i, Returned)
    {
      assert calls[i] == t[i] == Call(WriteTest, i, Returned);
    }
  }

  // ---------------------------------------------------- the phase contract

  /** The managed values, and the backup a commit takes of what it replaces. */
  datatype Store = Store(values: map<Name, Value>, held: map<Name, Option<Value>>)

  function ValueAt(values: map<Name, Value>, n: Name): Option<Value> {
    if n in values then Some(values[n]) else None
  }

  function CommittedStore(st: Store, b: VarBind): Store {
    Store(st.values[b.name := b.val],
          if b.name in st.held then st.held else st.held[b.name := ValueAt(st.values, b.name)])
  }

  function RestoredStore(st: Store, n: Name): Store {
    if n !in st.held then st
    else Store(if st.held[n].Some? then st.values[n := st.held[n].value] else st.values - {n}, st.held - {n})
  }

  /** What each phase's handler owes, whatever it raises: tests and reads change nothing; a
      commit backs up and writes, or if it raises does both or neither; a cleanup only drops
      the backup; an undo that returns puts back what a commit replaced and nothing else. */
  ghost predicate Obeys(h: Handlers<Store>, s: State, b: VarBind, i: nat, st: Store) {
    var (st', reply) := h(s, b, i, st);
    match s
    case WriteTest => st' == st && (reply.Done? ==> reply.binding.None?)
    case WriteCommit =>
      && (reply.Done? ==> st' == CommittedStore(st, b) && reply.binding.None?)
      && (!reply.Done? ==> st' == st || st' == CommittedStore(st, b))
    case WriteCleanup =>
      && st'.values == st.values
      && (reply.Done? ==> st'.held == st.held - {b.name} && reply.binding.None?)
    case WriteUndo => reply.Done? ==> st' == RestoredStore(st, b.name) && reply.binding.None?
    case ReadTest => st' == st && (reply.Done? ==> reply.binding.None?)
    case ReadGet =>
      st' == st && (reply.Done? && b.name in st.values ==>
                      reply.binding == Some(VarBind(b.name, st.values[b.name])))
    case _ => st' == st
  }

  ghost predicate Contract(h: Handlers<Store>) {
    forall s, b, i, st :: Obeys(h, s, b, i, st)
  }

  /** The value a name had before anything was committed over it. */
  function Original(st: Store, n: Name): Option<Value> {
    if n in st.held then st.held[n] else ValueAt(st.values, n)
  }

  ghost predicate SameOriginals(a: Store, b: Store) {
    forall n :: Original(a, n) == Original(b, n)
  }

  function NamesFrom(binds: seq<VarBind>, i: nat): set<Name>
    requires i <= |binds|
  {
    set k | i <= k < |binds| :: binds[k].name
  }

  /** The values after writing the bindings from `i` on, in order. */
  function Written(values: map<Name, Value>, binds: seq<VarBind>, i: nat): map<Name, Value>
    requires i <= |binds|
    decreases |binds| - i
  {
    if i == |binds| then values else Written(values[binds[i].name := binds[i].val], binds, i + 1)
  }

  lemma {:induction false} QuietPhase(h: Handlers<Store>, binds: seq<VarBind>, i: nat, m: Machine<Store>)
    requires Contract(h) && i <= |binds| && m.state in {WriteTest, ReadTest, ReadGet}
    ensures Phase(h, binds, i, m).store == m.store
    decreases |binds| - i
  {
    if i < |binds| {
      assert Obeys(h, m.state, binds[i], i, m.store);
      QuietPhase(h, binds, i + 1, Perform(h, binds, i, m));
    }
  }

  lemma {:induction false} CleanupPhase(h: Handlers<Store>, binds: seq<VarBind>, i: nat, m: Machine<Store>)
    requires Contract(h) && i <= |binds| && m.state == WriteCleanup
    ensures var r := Phase(h, binds, i, m);
            && r.store.values == m.store.values
            && (r.status == Fine ==> r.store.held == m.store.held - NamesFrom(binds, i))
    decreases |binds| - i
  {
    if i < |binds| {
      assert Obeys(h, WriteCleanup, binds[i], i, m.store);
      CleanupPhase(h, binds, i + 1, Perform(h, binds, i, m));
      assert NamesFrom(binds, i) == {binds[i].name} + NamesFrom(binds, i + 1);
    }
  }

  lemma CommitKeepsOriginals(st: Store, b: VarBind)
    ensures SameOriginals(CommittedStore(st, b), st)
    ensures CommittedStore(st, b).held.Keys == st.held.Keys + {b.name}
  {
    var next := CommittedStore(st, b);
    forall n ensures Original(next, n) == Original(st, n) {
      if n == b.name && n !in st.held {
        assert next.held[n] == ValueAt(st.values, n);
      }
    }
  }

  /** Commits keep every original recoverable, even one that raises, and write the
      bindings up to some `k` and no others. */
  lemma {:induction false} CommitPhase(h: Handlers<Store>, binds: seq<VarBind>, i: nat, m: Machine<Store>)
    returns (k: nat)
    requires Contract(h) && i <= |binds| && m.state == WriteCommit && m.status == Fine
    ensures var r := Phase(h, binds, i, m);
            && SameOriginals(r.store, m.store)
            && r.store.held.Keys <= m.store.held.Keys + NamesFrom(binds, i)
            && i <= k <= |binds| && r.store.values == Written(m.store.values, binds[..k], i)
            && (r.status == Fine ==> k == |binds|)
    decreases |binds| - i
  {
    k := i;
    if i < |binds| {
      var b := binds[i];
      assert Obeys(h, WriteCommit, b, i, m.store);
      var next := Perform(h, binds, i, m);
      var (st, reply) := h(WriteCommit, b, i, m.store);
      assert st == m.store || st == CommittedStore(m.store, b);
      assert next.store == st;
      CommitKeepsOriginals(m.store, b);
      assert b.name in NamesFrom(binds, i);
      WrittenFirst(m.store.values, binds, i);
      if next.status == Fine {
        k := CommitPhase(h, binds, i + 1, next);
        assert NamesFrom(binds, i + 1) <= NamesFrom(binds, i);
        WrittenMore(m.store.values, binds, i, k);
      } else if st != m.store {
        k := i + 1;
      }
    }
  }

  lemma WrittenFirst(values: map<Name, Value>, binds: seq<VarBind>, i: nat)
    requires i < |binds|
    ensures Written(values, binds[..i], i) == values
    ensures Written(values, binds[..i + 1], i) == values[binds[i].name := binds[i].val]
  {
    var one := binds[..i + 1];
    assert one[i] == binds[i];
    assert Written(values[binds[i].name := binds[i].val], one, i + 1) == values[binds[i].name := binds[i].val];
  }

  lemma WrittenMore(values: map<Name, Value>, binds: seq<VarBind>, i: nat, k: nat)
    requires i < k <= |binds|
    ensures Written(values, binds[..k], i) == Written(values[binds[i].name := binds[i].val], binds[..k], i + 1)
  {
    assert binds[..k][i] == binds[i];
  }

  lemma {:induction false} UndoPhase(h: Handlers<Store>, binds: seq<VarBind>, i: nat, m: Machine<Store>)
    requires Contract(h) && i <= |binds| && m.state == WriteUndo && m.status == Fine
    ensures var r := Phase(h, binds, i, m);
            r.status == Fine ==> SameOriginals(r.store, m.store)
                                 && r.store.held.Keys == m.store.held.Keys - NamesFrom(binds, i)
    decreases |binds| - i
  {
    if i < |binds| {
      var b := binds[i];
      assert Obeys(h, WriteUndo, b, i, m.store);
      var next := Perform(h, binds, i, m);
      assert NamesFrom(binds, i) == {b.name} + NamesFrom(binds, i + 1);
      if next.status == Fine {
        assert SameOriginals(next.store, m.store);
        UndoPhase(h, binds, i + 1, next);
      }
    }
  }

  lemma NothingHeld(a: Store, b: Store)
    requires SameOriginals(a, b) && a.held == map[] && b.held == map[]
    ensures a.values == b.values
  {
    forall n ensures n in a.values <==> n in b.values
      ensures n in a.values ==> a.values[n] == b.values[n]
    {
      assert Original(a, n) == Original(b, n);
    }
  }

  lemma ReadBackKeeps(h: Handlers<Store>, binds: seq<VarBind>, m: Machine<Store>)
    requires Contract(h)
    ensures ReadBack(h, binds, m).store == m.store
  {
    if m.status == Fine {
      QuietPhase(h, binds, 0, Enter(m, ReadTest));
      QuietPhase(h, binds, 0, Enter(Do(h, binds, m, ReadTest), ReadGet));
    }
  }

  /** All or nothing, as far as handlers raise only `SmiError`s. Starting with no write
      outstanding, a SET leaves the values as they were when a test raised anything, or when
      a commit raised an `SmiError` and the undo nothing; when neither a test nor a commit
      raised, every write is in force. A commit that raises anything else is not undone:
      the first `k` writes stay in force and the others are not made. */
  lemma AllOrNothing(h: Handlers<Store>, binds: seq<VarBind>, store: Store) returns (k: nat)
    requires Contract(h) && store.held == map[]
    ensures k <= |binds|
    ensures var final := WriteRun(h, binds, store).0.store;
            var tested, committed := Tested(h, binds, store).status, Committed(h, binds, store).status;
            var settled := Settled(h, binds, store).status;
            && (tested != Fine ==> final.values == store.values)
            && (tested == Fine && committed == Failed && settled == Fine ==> final.values == store.values)
            && (tested == Fine && committed == Fine ==> final.values == Written(store.values, binds, 0))
            && (tested == Fine && committed.Out? ==> final.values == Written(store.values, binds[..k], 0))
            && (settled == Fine ==> final.held == map[])
  {
    hide Run, ReadBack, Contract;
    WriteRunIs(h, binds, store);
    ReadBackKeeps(h, binds, Settled(h, binds, store));
    var begin := Initial(store);
    QuietPhase(h, binds, 0, Enter(begin, WriteTest));
    var t := Tested(h, binds, store);
    k := 0;
    if t.status == Failed {
      CleanupPhase(h, binds, 0, Enter(t, WriteCleanup));
    } else if t.status == Fine {
      var entered := Enter(t, WriteCommit);
      k := CommitPhase(h, binds, 0, entered);
      assert binds[..|binds|] == binds;
      var c := Committed(h, binds, store);
      if c.status == Failed {
        UndoPhase(h, binds, 0, Enter(c, WriteUndo));
        var u := Settled(h, binds, store);
        if u.status == Fine {
          OriginalsTransitive(u.store, c.store, store);
          assert u.store.held.Keys == {};
          NothingHeld(u.store, store);
        }
      } else if c.status == Fine {
        CleanupPhase(h, binds, 0, Enter(c, WriteCleanup));
      }
    }
  }

  lemma OriginalsTransitive(a: Store, b: Store, c: Store)
    requires SameOriginals(a, b) && SameOriginals(b, c)
    ensures SameOriginals(a, c)
  {
    forall n ensures Original(a, n) == Original(c, n) {
      assert Original(a, n) == Original(b, n) == Original(c, n);
    }
  }

  ghost predicate DistinctNames(binds: seq<VarBind>) {
    forall i, j :: 0 <= i < j < |binds| ==> binds[i].name != binds[j].name
  }

  /** With distinct names, in force means each name holds exactly what was asked and
      every other name what it held. */
  lemma {:induction false} WrittenMeans(values: map<Name, Value>, binds: seq<VarBind>, i: nat)
    requires DistinctNames(binds) && i <= |binds|
    ensures var w := Written(values, binds, i);
            && w.Keys == values.Keys + NamesFrom(binds, i)
            && (forall k :: i <= k < |binds| ==> w[binds[k].name] == binds[k].val)
            && (forall n :: n in values && n !in NamesFrom(binds, i) ==> w[n] == values[n])
    decreases |binds| - i
  {
    if i < |binds| {
      var b := binds[i];
      WrittenMeans(values[b.name := b.val], binds, i + 1);
      assert NamesFrom(binds, i) == {b.name} + NamesFrom(binds, i + 1);
      assert b.name !in NamesFrom(binds, i + 1);
    }
  }

  /** Whether a read of a binding, from `i` on, raises with the store as it is. */
  ghost predicate ReadRaises<S(!new)>(h: Handlers<S>, s: State, binds: seq<VarBind>, i: nat, store: S) {
    exists k :: i <= k < |binds| && !h(s, binds[k], k, store).1.Done?
  }

  lemma {:induction false} ReadPhaseFails(h: Handlers<Store>, binds: seq<VarBind>, i: nat, m: Machine<Store>)
    requires Contract(h) && i <= |binds| && m.state in {ReadTest, ReadGet} && m.status == Fine
    ensures var r := Phase(h, binds, i, m);
            (r.status != Fine <==> ReadRaises(h, m.state, binds, i, m.store)) && r.store == m.store
    decreases |binds| - i
  {
    QuietPhase(h, binds, i, m);
    if i < |binds| {
      assert Obeys(h, m.state, binds[i], i, m.store);
      var next := Perform(h, binds, i, m);
      if next.status == Fine {
        ReadPhaseFails(h, binds, i + 1, next);
        assert ReadRaises(h, m.state, binds, i, m.store) <==> ReadRaises(h, m.state, binds, i + 1, m.store);
      }
    }
  }

  lemma ReadBackFails(h: Handlers<Store>, binds: seq<VarBind>, m: Machine<Store>)
    requires Contract(h) && m.status == Fine
    ensures ReadBack(h, binds, m).status != Fine
            <==> ReadRaises(h, ReadTest, binds, 0, m.store) || ReadRaises(h, ReadGet, binds, 0, m.store)
  {
    hide Phase, Contract;
    ReadPhaseFails(h, binds, 0, Enter(m, ReadTest));
    ReadPhaseFails(h, binds, 0, Enter(Do(h, binds, m, ReadTest), ReadGet));
  }

  /** The error a SET ends in does not say it did not happen. When the tests and commits
      passed every write is in force, and it ends in an error all the same if the cleanup
      raised, or else exactly when reading one of the written bindings back raises. */
  lemma ErrorWithWritesInForce(h: Handlers<Store>, binds: seq<VarBind>, store: Store)
    requires Contract(h) && store.held == map[]
    requires Tested(h, binds, store).status == Fine && Committed(h, binds, store).status == Fine
    ensures var r := WriteRun(h, binds, store);
            var st := Store(Written(store.values, binds, 0), map[]);
            && r.0.store.values == st.values
            && (Settled(h, binds, store).status != Fine ==> !OutcomeOf(r).Bindings?)
            && (Settled(h, binds, store).status == Fine ==>
                  (!OutcomeOf(r).Bindings? <==>
                     exists i, s :: 0 <= i < |binds| && s in {ReadTest, ReadGet} && !h(s, binds[i], i, st).1.Done?))
  {
    hide Run, Phase, Do, Raises, Contract, ReadRaises, Written;
    WriteRunIs(h, binds, store);
    var _ := AllOrNothing(h, binds, store);
    var settled := Settled(h, binds, store);
    ErrorIffEndFails(h, binds, store);
    if settled.status == Fine {
      ReadBackKeeps(h, binds, settled);
      assert settled.store == Store(Written(store.values, binds, 0), map[]);
      ReadBackFails(h, binds, settled);
      EitherReadRaises(h, binds, settled.store);
    }
  }

  lemma EitherReadRaises(h: Handlers<Store>, binds: seq<VarBind>, store: Store)
    ensures ReadRaises(h, ReadTest, binds, 0, store) || ReadRaises(h, ReadGet, binds, 0, store)
            <==> exists i, s :: 0 <= i < |binds| && s in {ReadTest, ReadGet} && !h(s, binds[i], i, store).1.Done?
  {
  }

  /** After tests and commits that passed, there is an error exactly when the cleanup or
      the read-back fails. */
  lemma ErrorIffEndFails<S>(h: Handlers<S>, binds: seq<VarBind>, store: S)
    requires Tested(h, binds, store).status == Fine && Committed(h, binds, store).status == Fine
    ensures !OutcomeOf(WriteRun(h, binds, store)).Bindings?
            <==> ReadBack(h, binds, Settled(h, binds, store)).status != Fine
  {
    hide Run, Phase, Do, Raises, Accounts;
    WriteRunIs(h, binds, store);
    NothingAccounts(store);
    StaysClean(h, binds, Initial(store), WriteTest);
    var tested := Tested(h, binds, store);
    StaysClean(h, binds, tested, WriteCommit);
    var committed := Committed(h, binds, store);
    StaysClean(h, binds, committed, WriteCleanup);
    var c := Do(h, binds, committed, WriteCleanup);
    if c.status == Fine {
      StaysClean(h, binds, c, ReadTest);
      var r := Do(h, binds, c, ReadTest);
      if r.status == Fine {
        StaysClean(h, binds, r, ReadGet);
      }
    }
  }

  /** While nothing has raised, a phase either goes on so or leaves something to report. */
  lemma StaysClean<S>(h: Handlers<S>, binds: seq<VarBind>, m: Machine<S>, s: State)
    requires Accounts(m) && m.first == None && !m.status.Out?
    ensures var r := Do(h, binds, m, s);
            Accounts(r) && (r.status == Failed <==> r.first.Some?)
  {
    hide Phase, Do, BrokeLast;
    var calls := DoTrace(h, binds, m, s);
    RaisesAppend(m.calls, calls);
  }
}
