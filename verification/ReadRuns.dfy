/** What the machine answers: a GET and a GETNEXT, a test phase and a get phase over every
    binding, and what a SET reads back. */
module ReadRuns {
  import opened Wrappers
  import opened SetMachine
  import opened SetAtomicity

  // -------------------------------------------------- a phase, call by call

  /** The objects after the first `i` calls of a phase. */
  function StoreBefore<S>(h: Handlers<S>, s: State, binds: seq<VarBind>, store: S, i: nat): S
    requires i <= |binds|
  {
    if i == 0 then store else h(s, binds[i - 1], i - 1, StoreBefore(h, s, binds, store, i - 1)).0
  }

  /** What its call for binding `i` comes to. */
  function ReplyTo<S>(h: Handlers<S>, s: State, binds: seq<VarBind>, store: S, i: nat): Reply
    requires i < |binds|
  {
    h(s, binds[i], i, StoreBefore(h, s, binds, store, i)).1
  }

  ghost predicate AllDone<S>(h: Handlers<S>, s: State, binds: seq<VarBind>, store: S, n: nat)
    requires n <= |binds|
  {
    forall k :: 0 <= k < n ==> ReplyTo(h, s, binds, store, k).Done?
  }

  /** Binding `k` is the first whose call does not return. */
  ghost predicate StopsAt<S>(h: Handlers<S>, s: State, binds: seq<VarBind>, store: S, k: nat) {
    k < |binds| && !ReplyTo(h, s, binds, store, k).Done? && AllDone(h, s, binds, store, k)
  }

  /** The bindings the first `n` calls hand back, in order; `None` is no binding. */
  function Given<S>(h: Handlers<S>, s: State, binds: seq<VarBind>, store: S, n: nat): seq<VarBind>
    requires n <= |binds|
  {
    if n == 0 then []
    else
      Given(h, s, binds, store, n - 1) +
      match ReplyTo(h, s, binds, store, n - 1)
      case Done(Some(b)) => [b]
      case _ => []
  }

  /** The calls for the first `n` bindings, all of which return. */
  function Returns(s: State, n: nat): (calls: seq<Call>)
    ensures |calls| == n && forall k :: 0 <= k < n ==> calls[k] == Call(s, k, Returned)
  {
    if n == 0 then [] else Returns(s, n - 1) + [Call(s, n - 1, Returned)]
  }

  /** The state of a phase that has got as far as binding `i`. */
  function Reached<S>(h: Handlers<S>, s: State, binds: seq<VarBind>, m: Machine<S>, i: nat): Machine<S>
    requires i <= |binds|
  {
    m.(state := s, status := Fine, store := StoreBefore(h, s, binds, m.store, i),
       out := m.out + Given(h, s, binds, m.store, i),
       calls := m.calls + Returns(s, i))
  }

  /** The state of one that stops at binding `k`. */
  function Stopped<S>(h: Handlers<S>, s: State, binds: seq<VarBind>, m: Machine<S>, k: nat): Machine<S>
    requires k < |binds|
  {
    var at := Reached(h, s, binds, m, k);
    var store := StoreBefore(h, s, binds, m.store, k + 1);
    match ReplyTo(h, s, binds, m.store, k)
    case Done(_) => at
    case Raised(e) =>
      at.(status := Failed, store := store, calls := at.calls + [Call(s, k, Threw(e))],
          first := if m.first.None? then Some(e) else m.first)
    case Breaks(e) => at.(status := Out(e), store := store, calls := at.calls + [Call(s, k, Broke(e))])
  }

  lemma OneMore<S>(h: Handlers<S>, s: State, binds: seq<VarBind>, m: Machine<S>, i: nat)
    requires i < |binds| && ReplyTo(h, s, binds, m.store, i).Done?
    ensures Perform(h, binds, i, Reached(h, s, binds, m, i)) == Reached(h, s, binds, m, i + 1)
  {
    assert m.calls + Returns(s, i) + [Call(s, i, Returned)] == m.calls + Returns(s, i + 1);
    var given := Given(h, s, binds, m.store, i);
    assert m.out + given + [] == m.out + given;
  }

  lemma {:induction false} PhaseFrom<S>(h: Handlers<S>, s: State, binds: seq<VarBind>, m: Machine<S>, i: nat)
    requires i <= |binds| && AllDone(h, s, binds, m.store, i)
    ensures AllDone(h, s, binds, m.store, |binds|) ==>
              Phase(h, binds, i, Reached(h, s, binds, m, i)) == Reached(h, s, binds, m, |binds|)
    ensures forall k: nat :: StopsAt(h, s, binds, m.store, k) ==>
              i <= k && Phase(h, binds, i, Reached(h, s, binds, m, i)) == Stopped(h, s, binds, m, k)
    decreases |binds| - i
  {
    hide StoreBefore, Given;
    if i < |binds| && ReplyTo(h, s, binds, m.store, i).Done? {
      OneMore(h, s, binds, m, i);
      PhaseFrom(h, s, binds, m, i + 1);
    } else if i < |binds| {
      StopsHere(h, s, binds, m, i);
    }
  }

  lemma StopsHere<S>(h: Handlers<S>, s: State, binds: seq<VarBind>, m: Machine<S>, i: nat)
    requires i < |binds| && !ReplyTo(h, s, binds, m.store, i).Done?
    ensures Perform(h, binds, i, Reached(h, s, binds, m, i)) == Stopped(h, s, binds, m, i)
    ensures Stopped(h, s, binds, m, i).status != Fine
  {
  }

  /** A phase calls its handler for each binding in order, each on what the one before
      left, up to the first that does not return. */
  lemma PhaseIs<S>(h: Handlers<S>, s: State, binds: seq<VarBind>, m: Machine<S>)
    ensures AllDone(h, s, binds, m.store, |binds|) ==> Do(h, binds, m, s) == Reached(h, s, binds, m, |binds|)
    ensures forall k: nat :: StopsAt(h, s, binds, m.store, k) ==> Do(h, binds, m, s) == Stopped(h, s, binds, m, k)
  {
    PhaseFrom(h, s, binds, m, 0);
    assert Enter(m, s) == Reached(h, s, binds, m, 0) by {
      assert m.calls + Returns(s, 0) == m.calls && m.out + [] == m.out;
    }
  }

  // ------------------------------------------------------ GET and GETNEXT

  /** A run of a test phase and then a get phase. */
  function TwoPhases<S>(h: Handlers<S>, test: State, get: State, binds: seq<VarBind>, store: S): Machine<S> {
    var tested := Do(h, binds, Initial(store), test);
    Halted(if tested.status == Fine then Do(h, binds, tested, get) else tested)
  }

  ghost predicate Leads(table: Table, test: State, get: State) {
    && Lookup(table, Start, Fine) == Some(test) && Lookup(table, test, Fine) == Some(get)
    && Lookup(table, get, Fine) == Some(Stop)
    && Lookup(table, test, Failed) == Some(Stop) && Lookup(table, get, Failed) == Some(Stop)
  }

  lemma TableRuns<S>(h: Handlers<S>, table: Table, test: State, get: State, binds: seq<VarBind>, store: S)
    requires Descends(table) && Leads(table, test, get) && test != Stop && get != Stop
    ensures Run(h, table, binds, Initial(store)) == (TwoPhases(h, test, get, binds, store), true)
  {
    hide Phase, Lookup;
    assert Goes(table, Start, Fine) && Goes(table, test, Fine);
    var tested := Do(h, binds, Initial(store), test);
    assert Run(h, table, binds, Initial(store)) == Run(h, table, binds, tested);
    if tested.status == Fine {
      var got := Do(h, binds, tested, get);
      assert Run(h, table, binds, tested) == Run(h, table, binds, got);
    }
  }

  /** The table, followed: a GET is a test of every binding, then a get of every one. */
  lemma ReadRunIs<S>(h: Handlers<S>, binds: seq<VarBind>, store: S)
    ensures ReadRun(h, binds, store) == (TwoPhases(h, ReadTest, ReadGet, binds, store), true)
  {
    ReadDescends();
    TableRuns(h, READ, ReadTest, ReadGet, binds, store);
  }

  lemma ReadNextRunIs<S>(h: Handlers<S>, binds: seq<VarBind>, store: S)
    ensures ReadNextRun(h, binds, store) == (TwoPhases(h, ReadTestNext, ReadGetNext, binds, store), true)
  {
    ReadNextDescends();
    TableRuns(h, READ_NEXT, ReadTestNext, ReadGetNext, binds, store);
  }

  /** What comes out where a call does not return. */
  function Escape(r: Reply): Outcome
    requires !r.Done?
  {
    match r
    case Raised(e) => Error(e)
    case Breaks(e) => Escaped(e)
  }

  function EndOf(r: Reply): Ended {
    match r
    case Done(_) => Returned
    case Raised(e) => Threw(e)
    case Breaks(e) => Broke(e)
  }

  /** `r` ends in the exception of the call for binding `k`, after which there is none. */
  ghost predicate EndsAt<S(!new)>(h: Handlers<S>, s: State, binds: seq<VarBind>, store: S, before: seq<Call>, k: nat,
                            r: Machine<S>)
    requires k < |binds| && !ReplyTo(h, s, binds, store, k).Done?
  {
    && OutcomeOf((r, true)) == Escape(ReplyTo(h, s, binds, store, k))
    && r.store == StoreBefore(h, s, binds, store, k + 1)
    && r.calls == before + Returns(s, k) + [Call(s, k, EndOf(ReplyTo(h, s, binds, store, k)))]
  }

  /** `r` is the outcome of a phase that is a read's last, if all its calls return. */
  ghost predicate Finishes<S(!new)>(h: Handlers<S>, s: State, binds: seq<VarBind>, store: S, before: seq<Call>,
                              out: seq<VarBind>, r: Machine<S>) {
    && OutcomeOf((r, true)) == Bindings(out + Given(h, s, binds, store, |binds|))
    && r.store == StoreBefore(h, s, binds, store, |binds|)
    && r.calls == before + Returns(s, |binds|)
  }

  /** `r` is the answer to a read of two phases: every binding is tested before any is got.
      If all calls return it is the bindings they hand back, in the order asked; otherwise it
      is the exception of the first that does not. */
  ghost predicate Reads<S(!new)>(h: Handlers<S>, test: State, get: State, binds: seq<VarBind>, store: S,
                                 r: Machine<S>) {
    var n := |binds|;
    var tested := StoreBefore(h, test, binds, store, n);
    && (forall k: nat :: StopsAt(h, test, binds, store, k) ==> EndsAt(h, test, binds, store, [], k, r))
    && (AllDone(h, test, binds, store, n) ==>
          && (forall k: nat :: StopsAt(h, get, binds, tested, k) ==>
                EndsAt(h, get, binds, tested, Returns(test, n), k, r))
          && (AllDone(h, get, binds, tested, n) ==>
                Finishes(h, get, binds, tested, Returns(test, n), Given(h, test, binds, store, n), r)))
  }

  lemma StoppedEnds<S(!new)>(h: Handlers<S>, s: State, binds: seq<VarBind>, m: Machine<S>, k: nat)
    requires StopsAt(h, s, binds, m.store, k) && m.first == None
    ensures Stopped(h, s, binds, m, k).status != Fine
    ensures EndsAt(h, s, binds, m.store, m.calls, k, Halted(Stopped(h, s, binds, m, k)))
  {
    hide StoreBefore, Given;
  }

  lemma ReachedFinishes<S(!new)>(h: Handlers<S>, s: State, binds: seq<VarBind>, m: Machine<S>)
    requires m.first == None
    ensures var r := Reached(h, s, binds, m, |binds|);
            && Finishes(h, s, binds, m.store, m.calls, m.out, Halted(r))
            && r.status == Fine && r.first == None && r.store == StoreBefore(h, s, binds, m.store, |binds|)
            && r.calls == m.calls + Returns(s, |binds|) && r.out == m.out + Given(h, s, binds, m.store, |binds|)
  {
    hide StoreBefore, Given;
  }

  /** How one phase ends, after which it may be the last. */
  lemma PhaseEnds<S(!new)>(h: Handlers<S>, s: State, binds: seq<VarBind>, m: Machine<S>)
    requires m.first == None
    ensures var r := Do(h, binds, m, s);
            && (forall k: nat :: StopsAt(h, s, binds, m.store, k) ==>
                  r.status != Fine && EndsAt(h, s, binds, m.store, m.calls, k, Halted(r)))
            && (AllDone(h, s, binds, m.store, |binds|) ==>
                  r == Reached(h, s, binds, m, |binds|) && Finishes(h, s, binds, m.store, m.calls, m.out, Halted(r)))
  {
    PhaseIs(h, s, binds, m);
    ReachedFinishes(h, s, binds, m);
    hide StoreBefore, Given, Do, Reached, Stopped, EndsAt, Finishes, AllDone, ReplyTo;
    forall k: nat | StopsAt(h, s, binds, m.store, k)
      ensures Do(h, binds, m, s).status != Fine
      ensures EndsAt(h, s, binds, m.store, m.calls, k, Halted(Do(h, binds, m, s)))
    {
      StoppedEnds(h, s, binds, m, k);
    }
  }

  lemma TwoPhasesRead<S(!new)>(h: Handlers<S>, test: State, get: State, binds: seq<VarBind>, store: S)
    ensures Reads(h, test, get, binds, store, TwoPhases(h, test, get, binds, store))
  {
    var n, begin := |binds|, Initial(store);
    PhaseEnds(h, test, binds, begin);
    ReachedFinishes(h, test, binds, begin);
    var tested := Reached(h, test, binds, begin, n);
    assert tested.calls == Returns(test, n) && tested.out == Given(h, test, binds, store, n);
    PhaseEnds(h, get, binds, tested);
    hide StoreBefore, Given, Do, Reached, Stopped, EndsAt, Finishes, AllDone, ReplyTo, StopsAt, Returns;
  }

  lemma GetReads<S(!new)>(h: Handlers<S>, binds: seq<VarBind>, store: S)
    ensures var r := ReadRun(h, binds, store); r.1 && Reads(h, ReadTest, ReadGet, binds, store, r.0)
  {
    hide Reads, TwoPhases;
    ReadRunIs(h, binds, store);
    TwoPhasesRead(h, ReadTest, ReadGet, binds, store);
  }

  lemma GetNextReads<S(!new)>(h: Handlers<S>, binds: seq<VarBind>, store: S)
    ensures var r := ReadNextRun(h, binds, store); r.1 && Reads(h, ReadTestNext, ReadGetNext, binds, store, r.0)
  {
    hide Reads, TwoPhases;
    ReadNextRunIs(h, binds, store);
    TwoPhasesRead(h, ReadTestNext, ReadGetNext, binds, store);
  }

  /** A phase either gets through every binding or stops at one. */
  lemma {:induction false} DoneOrStops<S>(h: Handlers<S>, s: State, binds: seq<VarBind>, store: S, n: nat)
    requires n <= |binds|
    ensures AllDone(h, s, binds, store, n) || exists k: nat :: k < n && StopsAt(h, s, binds, store, k)
  {
    hide StoreBefore;
    if n > 0 {
      DoneOrStops(h, s, binds, store, n - 1);
      assert AllDone(h, s, binds, store, n - 1) ==>
          AllDone(h, s, binds, store, n) || StopsAt(h, s, binds, store, n - 1);
    }
  }

  ghost predicate LeavesAlone<S(!new)>(h: Handlers<S>, s: State, store: S) {
    forall b, i :: h(s, b, i, store).0 == store
  }

  lemma {:induction false} StoreStays<S(!new)>(h: Handlers<S>, s: State, binds: seq<VarBind>, store: S, i: nat)
    requires i <= |binds| && LeavesAlone(h, s, store)
    ensures StoreBefore(h, s, binds, store, i) == store
  {
    if i > 0 {
      StoreStays(h, s, binds, store, i - 1);
    }
  }

  /** A read of binding `i` of the objects as they are returns. */
  predicate Returning<S>(h: Handlers<S>, s: State, binds: seq<VarBind>, store: S, i: nat)
    requires i < |binds|
  {
    h(s, binds[i], i, store).1.Done?
  }

  lemma AllReturning<S(!new)>(h: Handlers<S>, s: State, binds: seq<VarBind>, store: S)
    requires LeavesAlone(h, s, store)
    ensures AllDone(h, s, binds, store, |binds|) <==> forall i :: 0 <= i < |binds| ==> Returning(h, s, binds, store, i)
    ensures forall i :: 0 <= i <= |binds| ==> StoreBefore(h, s, binds, store, i) == store
  {
    forall i | 0 <= i <= |binds|
      ensures StoreBefore(h, s, binds, store, i) == store
    {
      StoreStays(h, s, binds, store, i);
    }
    assert forall i :: 0 <= i < |binds| ==>
        (ReplyTo(h, s, binds, store, i).Done? <==> Returning(h, s, binds, store, i));
  }

  /** A read by handlers that leave the objects alone leaves them alone, and it is answered
      if and only if no test and no get of any binding raises. */
  lemma AnsweredIff<S(!new)>(h: Handlers<S>, test: State, get: State, binds: seq<VarBind>, store: S, r: Machine<S>)
    requires Reads(h, test, get, binds, store, r) && LeavesAlone(h, test, store) && LeavesAlone(h, get, store)
    ensures r.store == store
    ensures OutcomeOf((r, true)).Bindings? <==>
              forall i :: 0 <= i < |binds| ==>
                Returning(h, test, binds, store, i) && Returning(h, get, binds, store, i)
  {
    AllReturning(h, test, binds, store);
    AllReturning(h, get, binds, store);
    DoneOrStops(h, test, binds, store, |binds|);
    DoneOrStops(h, get, binds, store, |binds|);
    hide StoreBefore, Given, LeavesAlone, Returns, AllDone;
  }

  /** What reading one binding hands back, where it hands one back. */
  function ValueRead<S>(h: Handlers<S>, get: State, binds: seq<VarBind>, store: S, i: nat): Option<VarBind>
    requires i < |binds|
  {
    match h(get, binds[i], i, store).1
    case Done(b) => b
    case _ => None
  }

  lemma {:induction false} GivenEach<S(!new)>(h: Handlers<S>, s: State, binds: seq<VarBind>, store: S, n: nat)
    requires n <= |binds| && LeavesAlone(h, s, store)
    ensures var out := Given(h, s, binds, store, n);
            && ((forall i :: 0 <= i < n ==> ValueRead(h, s, binds, store, i) == None) ==> out == [])
            && ((forall i :: 0 <= i < n ==> ValueRead(h, s, binds, store, i).Some?) ==>
                  |out| == n && forall i :: 0 <= i < n ==> Some(out[i]) == ValueRead(h, s, binds, store, i))
  {
    if n > 0 {
      GivenEach(h, s, binds, store, n - 1);
      StoreStays(h, s, binds, store, n - 1);
      var last := ValueRead(h, s, binds, store, n - 1);
      assert Given(h, s, binds, store, n)
          == Given(h, s, binds, store, n - 1) + if last.Some? then [last.value] else [];
    }
  }

  /** Where tests hand nothing back and every get a value, an answer has those values, one
      for each binding, in the order asked. */
  lemma AnswerIsValues<S(!new)>(h: Handlers<S>, test: State, get: State, binds: seq<VarBind>, store: S, r: Machine<S>)
    requires Reads(h, test, get, binds, store, r) && LeavesAlone(h, test, store) && LeavesAlone(h, get, store)
    requires OutcomeOf((r, true)).Bindings?
    requires forall i :: 0 <= i < |binds| ==>
               ValueRead(h, test, binds, store, i) == None && ValueRead(h, get, binds, store, i).Some?
    ensures var out := OutcomeOf((r, true)).out;
            |out| == |binds| && forall i :: 0 <= i < |binds| ==> Some(out[i]) == ValueRead(h, get, binds, store, i)
  {
    AnsweredIff(h, test, get, binds, store, r);
    AllReturning(h, test, binds, store);
    AllReturning(h, get, binds, store);
    GivenEach(h, test, binds, store, |binds|);
    GivenEach(h, get, binds, store, |binds|);
    hide StoreBefore, Given, LeavesAlone, Returns, AllDone, ValueRead;
    assert [] + Given(h, get, binds, store, |binds|) == Given(h, get, binds, store, |binds|);
  }

  /** So a GET. */
  lemma GetAnswers<S(!new)>(h: Handlers<S>, binds: seq<VarBind>, store: S)
    requires LeavesAlone(h, ReadTest, store) && LeavesAlone(h, ReadGet, store)
    ensures var r := ReadRun(h, binds, store);
            && r.0.store == store
            && (OutcomeOf(r).Bindings? <==>
                  forall i :: 0 <= i < |binds| ==>
                    Returning(h, ReadTest, binds, store, i) && Returning(h, ReadGet, binds, store, i))
            && (OutcomeOf(r).Bindings?
                && (forall i :: 0 <= i < |binds| ==> ValueRead(h, ReadTest, binds, store, i) == None
                                                     && ValueRead(h, ReadGet, binds, store, i).Some?) ==>
                  var out := OutcomeOf(r).out;
                  |out| == |binds|
                  && forall i :: 0 <= i < |binds| ==> Some(out[i]) == ValueRead(h, ReadGet, binds, store, i))
  {
    GetReads(h, binds, store);
    var r := ReadRun(h, binds, store);
    assert r == (r.0, true);
    AnsweredIff(h, ReadTest, ReadGet, binds, store, r.0);
    hide *;
    if OutcomeOf(r).Bindings? && forall i :: 0 <= i < |binds| ==>
         ValueRead(h, ReadTest, binds, store, i) == None && ValueRead(h, ReadGet, binds, store, i).Some? {
      AnswerIsValues(h, ReadTest, ReadGet, binds, store, r.0);
    }
  }

  // ------------------------------------------------- what a SET reads back

  ghost predicate Silent<S(!new)>(h: Handlers<S>, s: State) {
    forall b, i, store :: h(s, b, i, store).1.Done? ==> h(s, b, i, store).1.binding == None
  }

  /** Of a SET's phases only the get hands bindings back. */
  ghost predicate OnlyGetsSpeak<S(!new)>(h: Handlers<S>) {
    forall s :: s in {WriteTest, WriteCommit, WriteCleanup, WriteUndo, ReadTest} ==> Silent(h, s)
  }

  lemma {:induction false} SilentPhase<S(!new)>(h: Handlers<S>, binds: seq<VarBind>, i: nat, m: Machine<S>)
    requires i <= |binds| && Silent(h, m.state)
    ensures var r := Phase(h, binds, i, m);
            && r.out == m.out && (m.first.Some? ==> r.first == m.first)
            && (m.status == Fine && r.status == Failed ==> r.first.Some?)
    decreases |binds| - i
  {
    if i < |binds| {
      SilentPhase(h, binds, i + 1, Perform(h, binds, i, m));
    }
  }

  /** Up to the reading back nothing has been handed back, and a SET that is answered has
      passed its tests and commits. */
  lemma SettledSilent<S(!new)>(h: Handlers<S>, binds: seq<VarBind>, store: S)
    requires OnlyGetsSpeak(h)
    ensures var m := Settled(h, binds, store);
            && m.out == [] && (m.status == Failed ==> m.first.Some?)
            && (m.first == None && !m.status.Out? ==>
                  Tested(h, binds, store).status == Fine && Committed(h, binds, store).status == Fine)
  {
    hide Phase, Silent;
    SilentPhase(h, binds, 0, Enter(Initial(store), WriteTest));
    var tested := Tested(h, binds, store);
    SilentPhase(h, binds, 0, Enter(tested, WriteCommit));
    SilentPhase(h, binds, 0, Enter(tested, WriteCleanup));
    var committed := Committed(h, binds, store);
    SilentPhase(h, binds, 0, Enter(committed, WriteUndo));
    SilentPhase(h, binds, 0, Enter(committed, WriteCleanup));
  }

  /** How a phase leaves what matters to the answer. */
  lemma PhaseEither<S(!new)>(h: Handlers<S>, s: State, binds: seq<VarBind>, m: Machine<S>)
    ensures var r := Do(h, binds, m, s);
            && (r.status == Fine <==> AllDone(h, s, binds, m.store, |binds|))
            && (r.status == Fine ==>
                  r.store == StoreBefore(h, s, binds, m.store, |binds|) && r.first == m.first
                  && r.out == m.out + Given(h, s, binds, m.store, |binds|))
            && (r.status == Failed ==> r.first.Some?) && (m.first.Some? ==> r.first == m.first)
  {
    PhaseIs(h, s, binds, m);
    DoneOrStops(h, s, binds, m.store, |binds|);
    hide StoreBefore, Given, Do, Returns;
  }

  lemma ReadBackSpeaks<S(!new)>(h: Handlers<S>, binds: seq<VarBind>, m: Machine<S>)
    requires Silent(h, ReadTest) && m.out == [] && (m.status == Failed ==> m.first.Some?)
    ensures var r := Halted(ReadBack(h, binds, m));
            var read := StoreBefore(h, ReadTest, binds, m.store, |binds|);
            !r.status.Out? && r.first == None ==>
              && m.status == Fine && m.first == None && r.out == Given(h, ReadGet, binds, read, |binds|)
              && AllDone(h, ReadTest, binds, m.store, |binds|) && AllDone(h, ReadGet, binds, read, |binds|)
  {
    hide StoreBefore, Given, Phase, Silent, AllDone;
    SilentPhase(h, binds, 0, Enter(m, ReadTest));
    PhaseEither(h, ReadTest, binds, m);
    var tested := Do(h, binds, m, ReadTest);
    assert tested.out == m.out;
    PhaseEither(h, ReadGet, binds, tested);
    hide Do;
    assert [] + Given(h, ReadGet, binds, tested.store, |binds|) == Given(h, ReadGet, binds, tested.store, |binds|);
  }

  /** A SET that is answered has passed its tests, commits and cleanup, and its answer is
      what getting each binding of the settled objects hands back, in order. */
  lemma SetAnswers<S(!new)>(h: Handlers<S>, binds: seq<VarBind>, store: S)
    requires OnlyGetsSpeak(h)
    ensures var r, m := WriteRun(h, binds, store), Settled(h, binds, store);
            var read := StoreBefore(h, ReadTest, binds, m.store, |binds|);
            OutcomeOf(r).Bindings? ==>
              && Tested(h, binds, store).status == Fine && Committed(h, binds, store).status == Fine
              && m.status == Fine && OutcomeOf(r) == Bindings(Given(h, ReadGet, binds, read, |binds|))
              && AllDone(h, ReadGet, binds, read, |binds|)
  {
    WriteRunIs(h, binds, store);
    SettledSilent(h, binds, store);
    assert Silent(h, ReadTest);
    ReadBackSpeaks(h, binds, Settled(h, binds, store));
    hide Settled, Tested, Committed, ReadBack, StoreBefore, Given, AllDone, Silent;
  }

  /** For handlers that keep the phase contract, the answer is each name asked with the
      value that is now in force under it. */
  lemma SetEchoes(h: Handlers<Store>, binds: seq<VarBind>, store: Store)
    requires Contract(h) && store.held == map[]
    ensures var r := WriteRun(h, binds, store);
            OutcomeOf(r).Bindings? ==>
              var out, values := OutcomeOf(r).out, r.0.store.values;
              && values == Written(store.values, binds, 0) && |out| == |binds|
              && forall i :: 0 <= i < |binds| ==>
                   binds[i].name in values && out[i] == VarBind(binds[i].name, values[binds[i].name])
  {
    ContractSpeaks(h);
    SetAnswers(h, binds, store);
    var r, m := WriteRun(h, binds, store), Settled(h, binds, store);
    if OutcomeOf(r).Bindings? {
      var k := AllOrNothing(h, binds, store);
      WriteRunIs(h, binds, store);
      ReadBackKeeps(h, binds, m);
      WrittenHas(store.values, binds, 0);
      hide Settled, Tested, Committed, ReadBack, WriteRun, Contract, Written;
      TestsStay(h, binds, m.store);
      GetsSpeak(h, binds, m.store);
    }
  }

  lemma TestsStay(h: Handlers<Store>, binds: seq<VarBind>, st: Store)
    requires Contract(h)
    ensures StoreBefore(h, ReadTest, binds, st, |binds|) == st
  {
    ContractReads(h, st);
    AllReturning(h, ReadTest, binds, st);
  }

  lemma GetsSpeak(h: Handlers<Store>, binds: seq<VarBind>, st: Store)
    requires Contract(h) && AllDone(h, ReadGet, binds, st, |binds|)
    requires forall k :: 0 <= k < |binds| ==> binds[k].name in st.values
    ensures var out := Given(h, ReadGet, binds, st, |binds|);
            && |out| == |binds|
            && forall i :: 0 <= i < |binds| ==> out[i] == VarBind(binds[i].name, st.values[binds[i].name])
  {
    ContractReads(h, st);
    AllReturning(h, ReadGet, binds, st);
    GivenEach(h, ReadGet, binds, st, |binds|);
    hide Contract, AllDone, LeavesAlone, Given, StoreBefore;
    forall i | 0 <= i < |binds|
      ensures ValueRead(h, ReadGet, binds, st, i) == Some(VarBind(binds[i].name, st.values[binds[i].name]))
    {
      assert Returning(h, ReadGet, binds, st, i);
    }
  }

  lemma ContractSpeaks(h: Handlers<Store>)
    requires Contract(h)
    ensures OnlyGetsSpeak(h)
  {
    forall s, b, i, st | s in {WriteTest, WriteCommit, WriteCleanup, WriteUndo, ReadTest} && h(s, b, i, st).1.Done?
      ensures h(s, b, i, st).1.binding == None
    {
      assert Obeys(h, s, b, i, st);
    }
  }

  lemma ContractReads(h: Handlers<Store>, st: Store)
    requires Contract(h)
    ensures LeavesAlone(h, ReadTest, st) && LeavesAlone(h, ReadGet, st)
    ensures forall b, i :: h(ReadGet, b, i, st).1.Done? && b.name in st.values ==>
              h(ReadGet, b, i, st).1 == Done(Some(VarBind(b.name, st.values[b.name])))
  {
    forall b: VarBind, i: nat
      ensures h(ReadTest, b, i, st).0 == st && h(ReadGet, b, i, st).0 == st
      ensures h(ReadGet, b, i, st).1.Done? && b.name in st.values ==>
                h(ReadGet, b, i, st).1 == Done(Some(VarBind(b.name, st.values[b.name])))
    {
      assert Obeys(h, ReadTest, b, i, st) && Obeys(h, ReadGet, b, i, st);
    }
  }

  lemma {:induction false} WrittenHas(values: map<Name, Value>, binds: seq<VarBind>, i: nat)
    requires i <= |binds|
    ensures var w := Written(values, binds, i);
            (forall n :: n in values ==> n in w) && forall k :: i <= k < |binds| ==> binds[k].name in w
    decreases |binds| - i
  {
    if i < |binds| {
      WrittenHas(values[binds[i].name := binds[i].val], binds, i + 1);
    }
  }
}
