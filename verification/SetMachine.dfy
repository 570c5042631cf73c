/** `MibInstrumController`: the table-driven machine that runs GET, GETNEXT and SET over
    every binding at once. */
module SetMachine {
  import opened Wrappers

  type Name = seq<int>
  type Value = seq<int>

  datatype VarBind = VarBind(name: Name, val: Value)

  /** An `SmiError`, told apart by what and where it is. */
  datatype Exc = Exc(kind: nat, idx: nat)

  datatype State = Start | ReadTest | ReadGet | ReadTestNext | ReadGetNext
                 | WriteTest | WriteCommit | WriteCleanup | WriteUndo | Stop

  /** `ok` and `err`; and, no status of the source's, an exception on its way out. */
  datatype Status = Fine | Failed | Out(error: nat)

  /** A table key's state: one state, or `*`. */
  datatype From = At(state: State) | Any

  type Table = map<(From, Status), State>

  const READ: Table := map[
    (At(Start), Fine) := ReadTest,
    (At(ReadTest), Fine) := ReadGet,
    (At(ReadGet), Fine) := Stop,
    (Any, Failed) := Stop]

  const READ_NEXT: Table := map[
    (At(Start), Fine) := ReadTestNext,
    (At(ReadTestNext), Fine) := ReadGetNext,
    (At(ReadGetNext), Fine) := Stop,
    (Any, Failed) := Stop]

  const WRITE: Table := map[
    (At(Start), Fine) := WriteTest,
    (At(WriteTest), Fine) := WriteCommit,
    (At(WriteCommit), Fine) := WriteCleanup,
    (At(WriteCleanup), Fine) := ReadTest,
    (At(ReadTest), Fine) := ReadGet,
    (At(ReadGet), Fine) := Stop,
    (At(WriteTest), Failed) := WriteCleanup,
    (At(WriteCommit), Failed) := WriteUndo,
    (At(WriteUndo), Fine) := ReadTest,
    (At(ReadTest), Failed) := Stop,
    (At(ReadGet), Failed) := Stop,
    (Any, Failed) := Stop]

  /** The exact key wins over `*`. */
  function Lookup(table: Table, state: State, status: Status): Option<State> {
    if (At(state), status) in table then Some(table[(At(state), status)])
    else if (Any, status) in table then Some(table[(Any, status)])
    else None
  }

  function Rank(s: State): nat {
    match s
    case Start => 6
    case WriteTest => 5
    case WriteCommit => 4
    case WriteCleanup => 3
    case WriteUndo => 3
    case ReadTest => 2
    case ReadTestNext => 2
    case ReadGet => 1
    case ReadGetNext => 1
    case Stop => 0
  }

  /** Every move goes down, which is what ends the loop. */
  ghost predicate Descends(table: Table) {
    forall state, status :: Goes(table, state, status)
  }

  predicate Goes(table: Table, state: State, status: Status) {
    match Lookup(table, state, status)
    case None => true
    case Some(next) => next == Stop || Rank(next) < Rank(state)
  }

  /** Where a SET goes from each state. */
  function NextInWrite(state: State, status: Status): Option<State> {
    if status.Out? then None
    else if status == Failed then
      Some(if state == WriteTest then WriteCleanup else if state == WriteCommit then WriteUndo else Stop)
    else
      match state
      case Start => Some(WriteTest)
      case WriteTest => Some(WriteCommit)
      case WriteCommit => Some(WriteCleanup)
      case WriteCleanup => Some(ReadTest)
      case WriteUndo => Some(ReadTest)
      case ReadTest => Some(ReadGet)
      case ReadGet => Some(Stop)
      case _ => None
  }

  lemma WriteTable(state: State, status: Status)
    ensures Lookup(WRITE, state, status) == NextInWrite(state, status)
  {
    if status != Failed {
      assert (Any, status) !in WRITE;
    }
  }

  lemma WriteDescends()
    ensures Descends(WRITE)
  {
    hide Lookup;
    forall state, status ensures Goes(WRITE, state, status) {
      WriteTable(state, status);
    }
  }

  lemma ReadDescends()
    ensures Descends(READ)
  {
  }

  lemma ReadNextDescends()
    ensures Descends(READ_NEXT)
  {
  }

  // ------------------------------------------------------------- the machine

  /** `Breaks` is an exception that is not an `SmiError`. */
  datatype Reply = Done(binding: Option<VarBind>) | Raised(exc: Exc) | Breaks(error: nat)

  /** One handler call on the managed objects: the phase, a binding and its position. */
  type Handlers<!S> = (State, VarBind, nat, S) -> (S, Reply)

  datatype Ended = Returned | Threw(exc: Exc) | Broke(error: nat)

  datatype Call = Call(phase: State, idx: nat, ended: Ended)

  /** What the loop carries: where it is, the objects, the output, the first exception,
      and the calls it has made. */
  datatype Machine<S> = Machine(state: State, status: Status, store: S, out: seq<VarBind>,
                                first: Option<Exc>, calls: seq<Call>)

  /** One call's effect. */
  function Perform<S>(h: Handlers<S>, binds: seq<VarBind>, i: nat, m: Machine<S>): Machine<S>
    requires i < |binds|
  {
    var (store, reply) := h(m.state, binds[i], i, m.store);
    match reply
    case Raised(e) =>
      m.(store := store, status := Failed, calls := m.calls + [Call(m.state, i, Threw(e))],
         first := if m.first.None? then Some(e) else m.first)
    case Breaks(e) =>
      m.(store := store, status := Out(e), calls := m.calls + [Call(m.state, i, Broke(e))])
    case Done(b) =>
      m.(store := store, calls := m.calls + [Call(m.state, i, Returned)],
         out := if b.Some? then m.out + [b.value] else m.out)
  }

  /** The bindings from `i` on, up to the first that raises. */
  function Phase<S>(h: Handlers<S>, binds: seq<VarBind>, i: nat, m: Machine<S>): (r: Machine<S>)
    requires i <= |binds|
    ensures r.state == m.state
    decreases |binds| - i
  {
    if i == |binds| then m
    else
      var next := Perform(h, binds, i, m);
      if next.status != Fine then next else Phase(h, binds, i + 1, next)
  }

  function Enter<S>(m: Machine<S>, s: State): Machine<S> {
    m.(state := s, status := Fine)
  }

  /** All phases from here to `stop`, or to an exception on its way out; false is an
      unresolved key. */
  function Run<S>(h: Handlers<S>, table: Table, binds: seq<VarBind>, m: Machine<S>): (r: (Machine<S>, bool))
    requires Descends(table)
    decreases Rank(m.state)
  {
    if m.status.Out? then (m, true)
    else
      match Lookup(table, m.state, m.status)
      case None => (m, false)
      case Some(s) =>
        if s == Stop then (Enter(m, Stop), true)
        else
          assert Goes(table, m.state, m.status);
          Run(h, table, binds, Phase(h, binds, 0, Enter(m, s)))
  }

  function Initial<S>(store: S): Machine<S> {
    Machine(Start, Fine, store, [], None, [])
  }

  function ReadRun<S>(h: Handlers<S>, binds: seq<VarBind>, store: S): (Machine<S>, bool) {
    ReadDescends();
    Run(h, READ, binds, Initial(store))
  }

  function ReadNextRun<S>(h: Handlers<S>, binds: seq<VarBind>, store: S): (Machine<S>, bool) {
    ReadNextDescends();
    Run(h, READ_NEXT, binds, Initial(store))
  }

  function WriteRun<S>(h: Handlers<S>, binds: seq<VarBind>, store: S): (Machine<S>, bool) {
    WriteDescends();
    Run(h, WRITE, binds, Initial(store))
  }

  /** `Escaped` is an exception nothing here catches, and hides the first `SmiError`. */
  datatype Outcome = Bindings(out: seq<VarBind>) | Error(exc: Exc) | Escaped(error: nat) | Unresolved

  function OutcomeOf<S>(r: (Machine<S>, bool)): Outcome {
    if !r.1 then Unresolved
    else if r.0.status.Out? then Escaped(r.0.status.error)
    else if r.0.first.Some? then Error(r.0.first.value)
    else Bindings(r.0.out)
  }

  class MibInstrumController<S> {
    var store: S
    const handlers: Handlers<S>

    constructor (store: S, handlers: Handlers<S>)
      ensures this.store == store && this.handlers == handlers
    {
      this.store, this.handlers := store, handlers;
    }

    method FlipFlopFsm(fsmTable: Table, varBinds: seq<VarBind>) returns (outcome: Outcome)
      requires Descends(fsmTable)
      modifies this
      ensures var r := Run(handlers, fsmTable, varBinds, Initial(old(store)));
              store == r.0.store && outcome == OutcomeOf(r)
    {
      ghost var final := Run(handlers, fsmTable, varBinds, Initial(store));
      ghost var calls: seq<Call> := [];
      var out: seq<VarBind> := [];
      var state, status := Start, Fine;
      var origExc: Option<Exc> := None;
      while true
        invariant !status.Out?
        invariant final == Run(handlers, fsmTable, varBinds, Machine(state, status, store, out, origExc, calls))
        decreases Rank(state)
      {
        ghost var rank := Rank(state);
        assert Goes(fsmTable, state, status);
        var fsmState := Lookup(fsmTable, state, status);
        if fsmState.None? {
          return Unresolved;
        }
        state, status := fsmState.value, Fine;
        if state == Stop {
          break;
        }
        assert rank > Rank(state);
        ghost var entered := Machine(state, status, store, out, origExc, calls);
        for idx := 0 to |varBinds|
          invariant status == Fine
          invariant Phase(handlers, varBinds, 0, entered)
                 == Phase(handlers, varBinds, idx, Machine(state, status, store, out, origExc, calls))
          invariant final == Run(handlers, fsmTable, varBinds, Phase(handlers, varBinds, 0, entered))
        {
          var (newStore, reply) := handlers(state, varBinds[idx], idx, store);
          store := newStore;
          match reply {
            case Raised(e) =>
              if origExc.None? {
                origExc := Some(e);
              }
              status := Failed;
              calls := calls + [Call(state, idx, Threw(e))];
              break;
            case Breaks(e) =>
              return Escaped(e);
            case Done(rval) =>
              if rval.Some? {
                out := out + [rval.value];
              }
              calls := calls + [Call(state, idx, Returned)];
          }
        }
      }
      if origExc.Some? {
        return Error(origExc.value);
      }
      return Bindings(out);
    }

    method ReadVars(varBinds: seq<VarBind>) returns (outcome: Outcome)
      modifies this
      ensures var r := ReadRun(handlers, varBinds, old(store));
              store == r.0.store && outcome == OutcomeOf(r)
    {
      ReadDescends();
      outcome := FlipFlopFsm(READ, varBinds);
    }

    method ReadNextVars(varBinds: seq<VarBind>) returns (outcome: Outcome)
      modifies this
      ensures var r := ReadNextRun(handlers, varBinds, old(store));
              store == r.0.store && outcome == OutcomeOf(r)
    {
      ReadNextDescends();
      outcome := FlipFlopFsm(READ_NEXT, varBinds);
    }

    method WriteVars(varBinds: seq<VarBind>) returns (outcome: Outcome)
      modifies this
      ensures var r := WriteRun(handlers, varBinds, old(store));
              store == r.0.store && outcome == OutcomeOf(r)
    {
      WriteDescends();
      outcome := FlipFlopFsm(WRITE, varBinds);
    }
  }
}
