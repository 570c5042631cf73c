/** `BulkCommandResponder`: GETBULK answered on the stack, or from wherever one of its
    reads first had to be waited on, and what becomes of a request that fails. */
module Bulk {
  import opened Wrappers

  /** An exception, by how `_failedMgmtOperation` takes it: an `SmiError` with an error
      status; one without the detail its clause reads; any other `PySnmpError`; any other
      `Exception`; and what is not an `Exception` at all, as a cancelled task raises. */
  datatype Failure = Mapped(status: nat) | Unmappable | PySnmp | Foreign | Cancelled {
    predicate IsPySnmpError() {
      Mapped? || Unmappable? || PySnmp?
    }
  }

  const GEN_ERR := 5

  /** What one instrumentation call comes to, waited on or not. */
  datatype Reply<V> = Values(values: seq<V>) | Raises(error: Failure)

  /** The instrumentation: the reply to its `n`-th call of a request, given what is asked. */
  type Reads<!V> = (nat, seq<V>) -> Reply<V>

  datatype Answer<V> = Sent(bindings: seq<V>) | Empty | Failed(error: Failure)

  /** Python's `s[-r:]`, which for zero is the whole list. */
  function Tail<V>(s: seq<V>, r: nat): (t: seq<V>)
    ensures 0 < r <= |s| ==> t == s[|s| - r..]
  {
    if r == 0 || r >= |s| then s else s[|s| - r..]
  }

  /** `m` more repetitions, each asking for what the last `r` bindings gathered name. */
  function Repeat<V>(read: Reads<V>, call: nat, asked: seq<V>, m: nat, r: nat, gathered: seq<V>): Reply<V>
    decreases m
  {
    if m == 0 || r == 0 then Values(gathered)
    else
      match read(call, asked)
      case Raises(e) => Raises(e)
      case Values(v) => Repeat(read, call + 1, Tail(gathered + v, r), m - 1, r, gathered + v)
  }

  function Finish<V>(r: Reply<V>): Answer<V> {
    match r
    case Raises(e) => Failed(e)
    case Values(v) => if v == [] then Empty else Sent(v)
  }

  function Min(a: int, b: int): int { if a < b then a else b }

  function Max(a: int, b: int): int { if a > b then a else b }

  /** As many of the bindings as asked for, or all there are; none for a negative number. */
  ghost predicate AreNonRepeaters(n: nat, total: nat, asked: int) {
    n <= total && (n == 0 || n <= asked) && (n == total || asked <= n)
  }

  /** As many repetitions of `r` bindings as asked for, or as many as fit under the cap. */
  ghost predicate AreRepetitions(m: nat, r: nat, asked: int, cap: nat) {
    && (m == 0 || m <= asked) && m * r <= cap
    && (asked <= m || (m + 1) * r > cap)
  }

  /** How many bindings are read once, how many repeat, and how often. */
  function NonRepeaters<V>(req: seq<V>, nonRepeaters: int): (n: nat)
    ensures AreNonRepeaters(n, |req|, nonRepeaters)
  {
    Min(Max(nonRepeaters, 0), |req|)
  }

  function Repeaters<V>(req: seq<V>, nonRepeaters: int): nat {
    |req| - NonRepeaters(req, nonRepeaters)
  }

  function Repetitions<V>(req: seq<V>, nonRepeaters: int, maxRepetitions: int, cap: nat): (m: nat)
    ensures AreRepetitions(m, Repeaters(req, nonRepeaters), maxRepetitions, cap)
  {
    var r := Repeaters(req, nonRepeaters);
    if r == 0 then Max(maxRepetitions, 0)
    else
      var m := Min(Max(maxRepetitions, 0), cap / r);
      QuotientFits(cap, r, m);
      m
  }

  lemma QuotientFits(cap: nat, r: nat, m: nat)
    requires 0 < r && m <= cap / r
    ensures m * r <= cap && (cap / r + 1) * r > cap
  {
    var q := cap / r;
    assert q * r <= cap < (q + 1) * r;
    assert m * r <= q * r;
  }

  lemma CountsAreUnique(n: nat, k: nat, total: nat, asked: int)
    requires AreNonRepeaters(n, total, asked) && AreNonRepeaters(k, total, asked)
    ensures n == k
  {
  }

  lemma RepetitionsAreUnique(m: nat, k: nat, r: nat, asked: int, cap: nat)
    requires r > 0 && AreRepetitions(m, r, asked, cap) && AreRepetitions(k, r, asked, cap)
    ensures m == k
  {
    ProductGrows(m + 1, k, r);
    ProductGrows(k + 1, m, r);
  }

  lemma ProductGrows(a: nat, b: nat, r: nat)
    ensures a <= b ==> a * r <= b * r
  {
  }

  /** The answer, whichever reads suspend. */
  function BulkAnswer<V>(read: Reads<V>, req: seq<V>, nonRepeaters: int, maxRepetitions: int, cap: nat): Answer<V> {
    var n, r := NonRepeaters(req, nonRepeaters), Repeaters(req, nonRepeaters);
    var m := Repetitions(req, nonRepeaters, maxRepetitions, cap);
    if n == 0 then Finish(Repeat(read, 0, Tail(req, r), m, r, []))
    else
      match read(0, req[..n])
      case Raises(e) => Failed(e)
      case Values(v) => Finish(Repeat(read, 1, Tail(req, r), m, r, v))
  }

  /** Whether one of `m` more repetitions is the first to hand back something to wait for. */
  function RepeatSuspends<V>(read: Reads<V>, suspends: nat -> bool, call: nat, asked: seq<V>, m: nat, r: nat,
                             gathered: seq<V>): bool
    decreases m
  {
    m != 0 && r != 0 &&
      (suspends(call) ||
       match read(call, asked)
       case Raises(_) => false
       case Values(v) => RepeatSuspends(read, suspends, call + 1, Tail(gathered + v, r), m - 1, r, gathered + v))
  }

  /** Whether the operation suspends, leaving the rest of the work to a coroutine. */
  function Suspended<V>(read: Reads<V>, suspends: nat -> bool, req: seq<V>, nonRepeaters: int, maxRepetitions: int,
                        cap: nat): bool
  {
    var n, r := NonRepeaters(req, nonRepeaters), Repeaters(req, nonRepeaters);
    var m := Repetitions(req, nonRepeaters, maxRepetitions, cap);
    if n == 0 then RepeatSuspends(read, suspends, 0, Tail(req, r), m, r, [])
    else
      suspends(0) ||
      match read(0, req[..n])
      case Raises(_) => false
      case Values(v) => RepeatSuspends(read, suspends, 1, Tail(req, r), m, r, v)
  }

  class BulkCommandResponder<V> {
    const maxVarBinds: nat := 64
    var pendingReqs: set<nat>

    constructor ()
      ensures pendingReqs == {}
    {
      pendingReqs := {};
    }

    /** `__answerOnceBulkRead`: `pending` is the read in flight, call number `call`;
        `varBinds` is what the next repetition asks, or `None` to take it from the answer. */
    static method AnswerOnceBulkRead(read: Reads<V>, call: nat, pending: Reply<V>, before: seq<V>,
                                     varBinds: Option<seq<V>>, reps: nat, r: nat) returns (answer: Answer<V>)
      ensures answer == match pending
                        case Raises(e) => Failed(e)
                        case Values(v) =>
                          var asked := if varBinds.Some? then varBinds.value else Tail(before + v, r);
                          Finish(Repeat(read, call + 1, asked, reps, r, before + v))
    {
      if pending.Raises? {
        return Failed(pending.error);
      }
      var rspVarBinds := before + pending.values;
      var asked := if varBinds.Some? then varBinds.value else Tail(rspVarBinds, r);
      ghost var final := Repeat(read, call + 1, asked, reps, r, rspVarBinds);
      var m: nat, c: nat := reps, call + 1;
      while m != 0 && r != 0
        invariant final == Repeat(read, c, asked, m, r, rspVarBinds)
        decreases m
      {
        var reply := read(c, asked);
        if reply.Raises? {
          return Failed(reply.error);
        }
        rspVarBinds := rspVarBinds + reply.values;
        asked := Tail(rspVarBinds, r);
        m, c := m - 1, c + 1;
      }
      if rspVarBinds != [] {
        return Sent(rspVarBinds);
      }
      return Empty;
    }

    /** The read loop of `handleMgmtOperation`: `suspends` says which calls hand back
        something to wait for, and the first one that does ends the synchronous part. The
        answer is then the coroutine's, if it is run. */
    static method Read(read: Reads<V>, suspends: nat -> bool, req: seq<V>, nonRepeaters: int,
                       maxRepetitions: int, cap: nat) returns (answer: Answer<V>, suspended: bool)
      ensures answer == BulkAnswer(read, req, nonRepeaters, maxRepetitions, cap)
      ensures suspended == Suspended(read, suspends, req, nonRepeaters, maxRepetitions, cap)
    {
      var n := NonRepeaters(req, nonRepeaters);
      var m := Max(maxRepetitions, 0);
      var r := |req| - n;
      if r != 0 {
        m := Min(m, cap / r);
      }
      ghost var expected := BulkAnswer(read, req, nonRepeaters, maxRepetitions, cap);
      ghost var waits := Suspended(read, suspends, req, nonRepeaters, maxRepetitions, cap);
      var rspVarBinds: seq<V> := [];
      var call := 0;
      if n != 0 {
        var reply := read(0, req[..n]);
        if suspends(0) {
          answer := AnswerOnceBulkRead(read, 0, reply, [], Some(Tail(req, r)), m, r);
          if reply.Values? {
            assert [] + reply.values == reply.values;
          }
          return answer, true;
        }
        if reply.Raises? {
          return Failed(reply.error), false;
        }
        rspVarBinds, call := reply.values, 1;
      }
      var varBinds := Tail(req, r);
      while m != 0 && r != 0
        invariant m >= 0 && expected == Finish(Repeat(read, call, varBinds, m, r, rspVarBinds))
        invariant waits == RepeatSuspends(read, suspends, call, varBinds, m, r, rspVarBinds)
        decreases m
      {
        var repetition := read(call, varBinds);
        if suspends(call) {
          answer := AnswerOnceBulkRead(read, call, repetition, rspVarBinds, None, m - 1, r);
          return answer, true;
        }
        if repetition.Raises? {
          return Failed(repetition.error), false;
        }
        rspVarBinds := rspVarBinds + repetition.values;
        varBinds := Tail(rspVarBinds, r);
        m, call := m - 1, call + 1;
      }
      return if rspVarBinds != [] then Sent(rspVarBinds) else Empty, false;
    }

    method ReleaseStateInformation(stateReference: nat)
      modifies this
      ensures pendingReqs == old(pendingReqs) - {stateReference}
    {
      pendingReqs := pendingReqs - {stateReference};
    }

    /** `_failedMgmtOperation`; `sent` is how sending an error status comes back. */
    method FailedMgmtOperation(exc: Failure, stateReference: nat, sent: Option<Failure>) returns (served: Served<V>)
      requires exc != Cancelled
      modifies this
      ensures served == Fail(exc, sent)
      ensures pendingReqs == if served.Escaped? then old(pendingReqs) else old(pendingReqs) - {stateReference}
    {
      match exc {
        case Mapped(status) =>
          if sent.Some? {
            return Escaped(sent.value);
          }
          served := Refused(status);
        case PySnmp =>
          served := Dropped;
        case _ =>
          return Escaped(exc);
      }
      ReleaseStateInformation(stateReference);
    }

    /** A request, from `processPdu` holding its state until it is answered, refused or
        dropped: whether on the stack or in `_completeMgmtOperation`, the same. `started`
        says whether suspended work is ever begun: its dispatcher may refuse it, or cancel it
        before its first step. `send` is how sending the response, and then an error status,
        comes back. */
    method ProcessPdu(stateReference: nat, read: Reads<V>, suspends: nat -> bool, started: bool, req: seq<V>,
                      nonRepeaters: int, maxRepetitions: int, send: bool -> Option<Failure>) returns (served: Served<V>)
      modifies this
      ensures var answer := BulkAnswer(read, req, nonRepeaters, maxRepetitions, 64);
              var suspended := Suspended(read, suspends, req, nonRepeaters, maxRepetitions, 64);
              served == Serve(answer, suspended && !started, send)
      ensures LeavesState(served) ==> pendingReqs == old(pendingReqs) + {stateReference}
      ensures !LeavesState(served) ==> pendingReqs == old(pendingReqs) - {stateReference}
    {
      pendingReqs := pendingReqs + {stateReference};
      var answer: Answer<V>, suspended: bool;
      answer, suspended := Read(read, suspends, req, nonRepeaters, maxRepetitions, maxVarBinds);
      if suspended && !started {
        return Abandoned;
      }
      var exc: Failure;
      match answer {
        case Sent(bindings) =>
          var raised := send(RESPONSE);
          if raised == None {
            ReleaseStateInformation(stateReference);
            return Answered(bindings);
          }
          exc := raised.value;
        case Empty =>
          exc := Mapped(GEN_ERR);
        case Failed(error) =>
          exc := error;
      }
      if exc == Cancelled {
        return Escaped(exc);
      }
      served := FailedMgmtOperation(exc, stateReference, send(STATUS));
    }
  }

  // ------------------------------------------------- what a failure leaves

  const RESPONSE := true
  const STATUS := false

  /** How a request ends: answered; with an error status; silently; with an exception that
      nothing here catches; or with its suspended work never begun. */
  datatype Served<V> = Answered(bindings: seq<V>) | Refused(status: nat) | Dropped | Escaped(error: Failure) | Abandoned

  predicate LeavesState<V>(served: Served<V>) {
    served.Escaped? || served.Abandoned?
  }

  function Fail<V>(exc: Failure, sent: Option<Failure>): Served<V> {
    match exc
    case Mapped(status) => if sent == None then Refused(status) else Escaped(sent.value)
    case PySnmp => Dropped
    case _ => Escaped(exc)
  }

  /** The exception the operation ends in, its own or one of sending the response. */
  function RaisedBy<V>(answer: Answer<V>, send: bool -> Option<Failure>): Option<Failure> {
    match answer
    case Sent(_) => send(RESPONSE)
    case Empty => Some(Mapped(GEN_ERR))
    case Failed(error) => Some(error)
  }

  function Serve<V>(answer: Answer<V>, abandoned: bool, send: bool -> Option<Failure>): Served<V> {
    if abandoned then Abandoned
    else
      match answer
      case Sent(bindings) =>
        if send(RESPONSE) == None then Answered(bindings) else Fail(send(RESPONSE).value, send(STATUS))
      case Empty => Fail(Mapped(GEN_ERR), send(STATUS))
      case Failed(error) => Fail(error, send(STATUS))
  }

  /** How a request is served, by what its operation raises: an `SmiError` is refused with its
      own status, nothing gathered with genErr, any other `PySnmpError` goes unanswered, and
      everything else comes out. */
  lemma ServedAs<V>(answer: Answer<V>, send: bool -> Option<Failure>, served: Served<V>)
    requires served == Serve(answer, false, send)
    ensures forall b :: served == Answered(b) <==> answer == Sent(b) && send(RESPONSE) == None
    ensures forall status :: served == Refused(status) <==>
              send(STATUS) == None
              && (answer == Failed(Mapped(status)) || (answer == Empty && status == GEN_ERR)
                  || (answer.Sent? && send(RESPONSE) == Some(Mapped(status))))
    ensures served == Dropped <==> answer == Failed(PySnmp) || (answer.Sent? && send(RESPONSE) == Some(PySnmp))
    ensures !served.Abandoned?
  {
  }

  /** A request's state is left behind, and the requester told nothing, if and only if the
      operation suspended and was never taken up again, or ends in an exception that is not
      a `PySnmpError`, or in an `SmiError` whose error status cannot be made or sent. */
  lemma StateLeftBehindIff<V>(read: Reads<V>, suspends: nat -> bool, started: bool, req: seq<V>, nonRepeaters: int,
                              maxRepetitions: int, send: bool -> Option<Failure>)
    ensures var answer := BulkAnswer(read, req, nonRepeaters, maxRepetitions, 64);
            var abandoned := Suspended(read, suspends, req, nonRepeaters, maxRepetitions, 64) && !started;
            LeavesState(Serve(answer, abandoned, send)) <==>
              || abandoned
              || exists exc :: RaisedBy(answer, send) == Some(exc)
                   && (!exc.IsPySnmpError() || exc == Unmappable || (exc.Mapped? && send(STATUS).Some?))
  {
    var answer := BulkAnswer(read, req, nonRepeaters, maxRepetitions, 64);
    var exc := RaisedBy(answer, send);
    if exc.Some? {
      assert RaisedBy(answer, send) == Some(exc.value);
    }
  }

  /** A first read that suspends, on a dispatcher that runs no tasks or is closed in the
      same turn, leaves the state of a request whose operation raised nothing. */
  lemma AbandonedWorkLeavesState<V>(read: Reads<V>, suspends: nat -> bool, req: seq<V>, nonRepeaters: int,
                                    maxRepetitions: int, send: bool -> Option<Failure>)
    requires suspends(0) && req != [] && (nonRepeaters > 0 || (maxRepetitions > 0 && |req| <= 64))
    ensures Suspended(read, suspends, req, nonRepeaters, maxRepetitions, 64)
    ensures Serve(BulkAnswer(read, req, nonRepeaters, maxRepetitions, 64), true, send) == Abandoned
  {
    if nonRepeaters <= 0 {
      AtLeastOne(|req|);
    }
  }

  lemma AtLeastOne(r: nat)
    requires 0 < r <= 64
    ensures 64 / r >= 1
  {
  }

  /** Instrumentation that raises a `ValueError` at its first call, or is cancelled there,
      leaves the state of every request that asks it for anything, waited on or not. */
  lemma ForeignFailureLeavesState<V(!new)>(read: Reads<V>, req: seq<V>, nonRepeaters: int, maxRepetitions: int,
                                           send: bool -> Option<Failure>, exc: Failure)
    requires forall asked :: read(0, asked) == Raises(exc)
    requires exc == Foreign || exc == Cancelled
    requires req != [] && (nonRepeaters > 0 || (maxRepetitions > 0 && |req| <= 64))
    ensures Serve(BulkAnswer(read, req, nonRepeaters, maxRepetitions, 64), false, send) == Escaped(exc)
  {
    if nonRepeaters <= 0 {
      AtLeastOne(|req|);
    }
  }

  // -------------------------------------------------------- what is answered

  /** The first `calls` reads of a request have one result for each binding asked. */
  ghost predicate OnePerBinding<V(!new)>(read: Reads<V>, calls: nat) {
    forall n: nat, asked :: n < calls ==> read(n, asked).Values? && |read(n, asked).values| == |asked|
  }

  /** Row after row, each the successors of the row before it. */
  function Rows<V(!new)>(read: Reads<V>, call: nat, asked: seq<V>, m: nat): (rows: seq<seq<V>>)
    requires OnePerBinding(read, call + m)
    ensures |rows| == m
    decreases m
  {
    if m == 0 then []
    else [read(call, asked).values] + Rows(read, call + 1, read(call, asked).values, m - 1)
  }

  lemma {:induction false} RowsFollow<V(!new)>(read: Reads<V>, call: nat, asked: seq<V>, m: nat, k: nat)
    requires k < m && OnePerBinding(read, call + m)
    ensures var rows := Rows(read, call, asked, m);
            rows[k] == read(call + k, if k == 0 then asked else rows[k - 1]).values && |rows[k]| == |asked|
    decreases m
  {
    if k > 0 {
      var row := read(call, asked).values;
      RowsFollow(read, call + 1, row, m - 1, k - 1);
      assert Rows(read, call, asked, m)[k] == Rows(read, call + 1, row, m - 1)[k - 1];
    }
  }

  function Flatten<V>(rows: seq<seq<V>>): seq<V> {
    if rows == [] then [] else rows[0] + Flatten(rows[1..])
  }

  lemma {:induction false} RepeatIsRows<V(!new)>(read: Reads<V>, call: nat, asked: seq<V>, m: nat, r: nat,
                                                 gathered: seq<V>)
    requires OnePerBinding(read, call + m) && |asked| == r > 0
    ensures Repeat(read, call, asked, m, r, gathered) == Values(gathered + Flatten(Rows(read, call, asked, m)))
    decreases m
  {
    hide Tail, Flatten;
    if m == 0 {
      FlattenNone(gathered);
    } else {
      var row := read(call, asked).values;
      LastRow(gathered, row);
      RepeatIsRows(read, call + 1, row, m - 1, r, gathered + row);
      FlattenCons(gathered, row, Rows(read, call + 1, row, m - 1));
    }
  }

  lemma LastRow<V>(gathered: seq<V>, row: seq<V>)
    requires row != []
    ensures Tail(gathered + row, |row|) == row
  {
  }

  lemma FlattenNone<V>(gathered: seq<V>)
    ensures gathered + Flatten([]) == gathered
  {
  }

  lemma FlattenCons<V>(gathered: seq<V>, row: seq<V>, rest: seq<seq<V>>)
    ensures gathered + row + Flatten(rest) == gathered + Flatten([row] + rest)
  {
    assert ([row] + rest)[1..] == rest;
  }

  lemma {:induction false} FlattenLength<V>(rows: seq<seq<V>>, r: nat)
    requires forall k :: 0 <= k < |rows| ==> |rows[k]| == r
    ensures |Flatten(rows)| == |rows| * r
  {
    if rows != [] {
      FlattenLength(rows[1..], r);
      assert |rows| * r == r + (|rows| - 1) * r;
    }
  }

  /** The first call is for the non-repeaters, if there are any. */
  function First(n: nat): nat {
    if n == 0 then 0 else 1
  }

  function CallsMade(n: nat, m: nat, r: nat): nat {
    First(n) + if r == 0 then 0 else m
  }

  /** `N` and `M` of a request: as many as asked for and no more than there are, or than fit
      under the cap. */
  ghost predicate Counts<V>(req: seq<V>, nonRepeaters: int, maxRepetitions: int, cap: nat, n: nat, m: nat) {
    AreNonRepeaters(n, |req|, nonRepeaters) && AreRepetitions(m, |req| - n, maxRepetitions, cap)
  }

  lemma CountsAre<V>(req: seq<V>, nonRepeaters: int, maxRepetitions: int, cap: nat, n: nat, m: nat)
    requires Counts(req, nonRepeaters, maxRepetitions, cap, n, m)
    ensures n == NonRepeaters(req, nonRepeaters) && |req| - n == Repeaters(req, nonRepeaters)
    ensures n < |req| ==> m == Repetitions(req, nonRepeaters, maxRepetitions, cap)
  {
    CountsAreUnique(n, NonRepeaters(req, nonRepeaters), |req|, nonRepeaters);
    if n < |req| {
      RepetitionsAreUnique(m, Repetitions(req, nonRepeaters, maxRepetitions, cap), |req| - n, maxRepetitions, cap);
    }
  }

  /** With one result for each binding read, a GETBULK answers the successors of the first N
      bindings followed by M rows of the other R, each row the successors of the row before,
      the first of those R themselves. When that is nothing at all the request fails instead
      of being answered empty. */
  lemma BulkShape<V(!new)>(read: Reads<V>, req: seq<V>, nonRepeaters: int, maxRepetitions: int, cap: nat,
                           n: nat, m: nat)
    requires Counts(req, nonRepeaters, maxRepetitions, cap, n, m)
    requires OnePerBinding(read, CallsMade(n, m, |req| - n))
    ensures var r := |req| - n;
            var once := if n == 0 then [] else read(0, req[..n]).values;
            var rows := if r == 0 then [] else Rows(read, First(n), req[n..], m);
            && |once| == n && |Flatten(rows)| == |rows| * r
            && BulkAnswer(read, req, nonRepeaters, maxRepetitions, cap) ==
               (if n == 0 && (m == 0 || r == 0) then Empty else Sent(once + Flatten(rows)))
  {
    CountsAre(req, nonRepeaters, maxRepetitions, cap, n, m);
    var r := |req| - n;
    var once: seq<V> := if n == 0 then [] else read(0, req[..n]).values;
    if r == 0 {
      assert once + [] == once;
    } else {
      assert Tail(req, r) == req[n..];
      RepeatIsRows(read, First(n), req[n..], m, r, once);
      var rows := Rows(read, First(n), req[n..], m);
      forall k | 0 <= k < m ensures |rows[k]| == r {
        RowsFollow(read, First(n), req[n..], m, k);
      }
      FlattenLength(rows, r);
      assert m > 0 ==> m * r >= 1;
      assert m == 0 ==> rows == [] && Flatten(rows) == [];
    }
  }

  // --------------------------------------------- a read that raises, or suspends

  /** What call `k` asks for. */
  function AskedBy<V(!new)>(read: Reads<V>, req: seq<V>, n: nat, k: nat): seq<V>
    requires n <= |req| && OnePerBinding(read, k)
  {
    if k < First(n) then req[..n]
    else if k == First(n) then req[n..]
    else Rows(read, First(n), req[n..], k - First(n))[k - First(n) - 1]
  }

  lemma {:induction false} RepeatRaises<V(!new)>(read: Reads<V>, call: nat, asked: seq<V>, m: nat, r: nat,
                                                 gathered: seq<V>, j: nat)
    requires j < m && |asked| == r > 0 && OnePerBinding(read, call + j)
    requires read(call + j, if j == 0 then asked else Rows(read, call, asked, j)[j - 1]).Raises?
    ensures Repeat(read, call, asked, m, r, gathered)
         == read(call + j, if j == 0 then asked else Rows(read, call, asked, j)[j - 1])
    decreases m
  {
    if j > 0 {
      var row := read(call, asked).values;
      LastRow(gathered, row);
      assert j > 1 ==> Rows(read, call, asked, j)[j - 1] == Rows(read, call + 1, row, j - 1)[j - 2];
      RepeatRaises(read, call + 1, row, m - 1, r, gathered + row, j - 1);
    }
  }

  /** The first read that raises is the request's failure, however much had been gathered. */
  lemma BulkFails<V(!new)>(read: Reads<V>, req: seq<V>, nonRepeaters: int, maxRepetitions: int, cap: nat,
                           n: nat, m: nat, k: nat)
    requires Counts(req, nonRepeaters, maxRepetitions, cap, n, m) && k < CallsMade(n, m, |req| - n)
    requires OnePerBinding(read, k) && read(k, AskedBy(read, req, n, k)).Raises?
    ensures BulkAnswer(read, req, nonRepeaters, maxRepetitions, cap)
         == Failed(read(k, AskedBy(read, req, n, k)).error)
  {
    CountsAre(req, nonRepeaters, maxRepetitions, cap, n, m);
    if k >= First(n) {
      assert Tail(req, |req| - n) == req[n..];
      var once: seq<V> := if n == 0 then [] else read(0, req[..n]).values;
      RepeatRaises(read, First(n), req[n..], m, |req| - n, once, k - First(n));
    }
  }

  lemma {:induction false} RepeatSuspendsIff<V(!new)>(read: Reads<V>, suspends: nat -> bool, call: nat, asked: seq<V>,
                                                      m: nat, r: nat, gathered: seq<V>, j: nat)
    requires j <= m && |asked| == r > 0 && OnePerBinding(read, call + j)
    requires j == m || read(call + j, if j == 0 then asked else Rows(read, call, asked, j)[j - 1]).Raises?
    ensures RepeatSuspends(read, suspends, call, asked, m, r, gathered)
            <==> exists i: nat :: call <= i <= call + j && i < call + m && suspends(i)
    decreases m
  {
    if m > 0 && j > 0 {
      var row := read(call, asked).values;
      LastRow(gathered, row);
      assert j > 1 ==> Rows(read, call, asked, j)[j - 1] == Rows(read, call + 1, row, j - 1)[j - 2];
      RepeatSuspendsIff(read, suspends, call + 1, row, m - 1, r, gathered + row, j - 1);
    }
  }

  /** The operation suspends if and only if one of the reads it makes does: all of them, or
      those up to the first that raises. */
  lemma SuspendedIff<V(!new)>(read: Reads<V>, suspends: nat -> bool, req: seq<V>, nonRepeaters: int,
                              maxRepetitions: int, cap: nat, n: nat, m: nat, k: nat)
    requires Counts(req, nonRepeaters, maxRepetitions, cap, n, m) && k <= CallsMade(n, m, |req| - n)
    requires OnePerBinding(read, k)
    requires k == CallsMade(n, m, |req| - n) || read(k, AskedBy(read, req, n, k)).Raises?
    ensures Suspended(read, suspends, req, nonRepeaters, maxRepetitions, cap)
            <==> exists i: nat :: i <= k && i < CallsMade(n, m, |req| - n) && suspends(i)
  {
    CountsAre(req, nonRepeaters, maxRepetitions, cap, n, m);
    if k >= First(n) && n < |req| {
      assert Tail(req, |req| - n) == req[n..];
      var once: seq<V> := if n == 0 then [] else read(0, req[..n]).values;
      RepeatSuspendsIff(read, suspends, First(n), req[n..], m, |req| - n, once, k - First(n));
    }
  }
}
