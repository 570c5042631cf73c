/** Execution points (`entity/observer.py`): entering and leaving them by code that may
    raise, catch and wait with points open, a turn at a time. */
module ExecContext {
  import opened Wrappers

  /** An execution point's identifier. */
  datatype Point = IncomingRequest | Named(name: string)

  /** A context variable's value: each live point and the variables stored there. */
  type Context = map<Point, nat>

  // -------------------------------------------------- entering and leaving

  /** `unwind`: forget the point, then put back what it hid. */
  function Unwound(m: Context, p: Point, previous: Option<nat>): Context {
    match previous
    case None => m - {p}
    case Some(v) => (m - {p})[p := v]
  }

  function At(m: Context, p: Point): Option<nat> {
    if p in m then Some(m[p]) else None
  }

  /** Code that runs inside execution points. `With` is a `with execution_context(...)`
      block, telling observers or not; `Look` reads a point, as access control does; `Await`
      gives the loop its turn. */
  datatype Code = Skip | Raise | Await | Look(point: Point) | Then(first: Code, second: Code)
                | Try(body: Code, handler: Code)
                | With(point: Point, vars: nat, notify: bool, body: Code)

  datatype Heard = Heard(observer: nat, point: Point, vars: nat)

  /** Observers registered per point, and which of their calls raise. */
  datatype Observers = Observers(at: map<Point, seq<nat>>, raises: Heard -> bool)

  /** Every observer of a point, in order, up to one that raises. */
  function Tell(o: Observers, p: Point, vars: nat, who: seq<nat>): (r: (seq<Heard>, bool))
  {
    if who == [] then ([], false)
    else
      var h := Heard(who[0], p, vars);
      if o.raises(h) then ([h], true)
      else
        var rest := Tell(o, p, vars, who[1..]);
        ([h] + rest.0, rest.1)
  }

  function ObserversAt(o: Observers, p: Point): seq<nat> {
    if p in o.at then o.at[p] else []
  }

  /** What is left to do, innermost first: code; a point to leave, with what it hid; the
      handler of a `try` that is under way. */
  datatype Frame = Do(code: Code) | Leave(point: Point, previous: Option<nat>) | Handler(code: Code)

  datatype Sight = Sight(point: Point, vars: nat)

  /** How a turn ends: the code waits, has come to its end, or has raised out of it. */
  datatype State = Waits | Ends | Raises

  datatype Turn = Turn(live: Context, left: seq<Frame>, state: State, heard: seq<Heard>, seen: seq<Sight>)

  /** The map with every point left that is still open. */
  function Restored(m: Context, stack: seq<Frame>): Context
    decreases |stack|
  {
    if stack == [] then m
    else if stack[0].Leave? then Restored(Unwound(m, stack[0].point, stack[0].previous), stack[1..])
    else Restored(m, stack[1..])
  }

  /** An exception leaves points up to the nearest handler; `None` when there is none. */
  function Raised(m: Context, stack: seq<Frame>): (Context, Option<seq<Frame>>)
    decreases |stack|
  {
    if stack == [] then (m, None)
    else
      match stack[0]
      case Do(_) => Raised(m, stack[1..])
      case Leave(p, previous) => Raised(Unwound(m, p, previous), stack[1..])
      case Handler(c) => (m, Some([Do(c)] + stack[1..]))
  }

  function Size(c: Code): nat {
    match c
    case Then(a, b) => 2 + Size(a) + Size(b)
    case Try(a, b) => 3 + Size(a) + Size(b)
    case With(_, _, _, body) => 3 + Size(body)
    case _ => 1
  }

  function Weight(stack: seq<Frame>): nat {
    if stack == [] then 0
    else (if stack[0].Leave? then 1 else 1 + Size(stack[0].code)) + Weight(stack[1..])
  }

  lemma WeightOf(a: Frame, b: Frame, rest: seq<Frame>)
    ensures Weight([a] + rest) == (if a.Leave? then 1 else 1 + Size(a.code)) + Weight(rest)
    ensures Weight([a, b] + rest) == Weight([a] + rest) + if b.Leave? then 1 else 1 + Size(b.code)
  {
    assert ([a, b] + rest)[1..] == [b] + rest && ([b] + rest)[1..] == rest && ([a] + rest)[1..] == rest;
  }

  lemma {:induction false} RaisedIsLighter(m: Context, stack: seq<Frame>)
    ensures Raised(m, stack).1.Some? ==> Weight(Raised(m, stack).1.value) <= Weight(stack)
    decreases |stack|
  {
    if stack != [] {
      match stack[0] {
        case Do(_) => RaisedIsLighter(m, stack[1..]);
        case Leave(p, previous) => RaisedIsLighter(Unwound(m, p, previous), stack[1..]);
        case Handler(c) => WeightOf(Do(c), Do(c), stack[1..]);
      }
    }
  }

  /** One turn of a task, or of the loop itself: until the code waits or is done. */
  function RunTurn(o: Observers, m: Context, stack: seq<Frame>): Turn
    decreases Weight(stack), 0
  {
    if stack == [] then Turn(m, [], Ends, [], [])
    else
      var rest := stack[1..];
      match stack[0]
      case Leave(p, previous) => RunTurn(o, Unwound(m, p, previous), rest)
      case Handler(_) => RunTurn(o, m, rest)
      case Do(c) =>
        match c
        case Skip => RunTurn(o, m, rest)
        case Await => Turn(m, rest, Waits, [], [])
        case Raise => AfterRaise(o, m, rest)
        case Look(p) =>
          if p !in m then AfterRaise(o, m, rest)
          else
            var r := RunTurn(o, m, rest);
            r.(seen := [Sight(p, m[p])] + r.seen)
        case Then(a, b) =>
          WeightOf(Do(a), Do(b), rest);
          RunTurn(o, m, [Do(a), Do(b)] + rest)
        case Try(a, b) =>
          WeightOf(Do(a), Handler(b), rest);
          RunTurn(o, m, [Do(a), Handler(b)] + rest)
        case With(p, vars, notify, body) =>
          var told := if notify then Tell(o, p, vars, ObserversAt(o, p)) else ([], false);
          var inside := m[p := vars];
          if told.1 then
            var r := AfterRaise(o, Unwound(inside, p, At(m, p)), rest);
            r.(heard := told.0 + r.heard)
          else
            WeightOf(Do(body), Leave(p, At(m, p)), rest);
            var r := RunTurn(o, inside, [Do(body), Leave(p, At(m, p))] + rest);
            r.(heard := told.0 + r.heard)
  }

  /** The rest of the turn when the code on top has raised. */
  function AfterRaise(o: Observers, m: Context, rest: seq<Frame>): Turn
    decreases Weight(rest), 1
  {
    RaisedIsLighter(m, rest);
    var (live, left) := Raised(m, rest);
    if left == None then Turn(live, [], Raises, [], []) else RunTurn(o, live, left.value)
  }

  // ---------------------------------------------------- what a turn keeps

  lemma UnwoundRestores(m: Context, p: Point, vars: nat)
    ensures Unwound(m[p := vars], p, At(m, p)) == m
  {
  }

  lemma RestoredOver(m: Context, f: Frame, rest: seq<Frame>)
    ensures Restored(m, [f] + rest)
         == if f.Leave? then Restored(Unwound(m, f.point, f.previous), rest) else Restored(m, rest)
  {
    assert ([f] + rest)[1..] == rest;
  }

  lemma RestoredOverTwo(m: Context, f: Frame, g: Frame, rest: seq<Frame>)
    requires !f.Leave?
    ensures Restored(m, [f, g] + rest) == Restored(m, [g] + rest)
  {
    assert [f, g] + rest == [f] + ([g] + rest);
    RestoredOver(m, f, [g] + rest);
  }

  lemma {:induction false} RaisedRestores(m: Context, stack: seq<Frame>)
    ensures var (live, left) := Raised(m, stack);
            Restored(live, if left == None then [] else left.value) == Restored(m, stack)
    decreases |stack|
  {
    if stack != [] {
      match stack[0] {
        case Do(_) => RaisedRestores(m, stack[1..]);
        case Leave(p, previous) => RaisedRestores(Unwound(m, p, previous), stack[1..]);
        case Handler(c) => RestoredOver(m, Do(c), stack[1..]);
      }
    }
  }

  /** Whatever a turn enters and leaves, re-enters, raises through or stops inside, leaving
      what it left open restores what leaving everything would have restored before it. */
  lemma {:induction false} TurnRestores(o: Observers, m: Context, stack: seq<Frame>)
    ensures var t := RunTurn(o, m, stack);
            Restored(t.live, t.left) == Restored(m, stack) && (t.state != Waits ==> t.left == [])
    decreases Weight(stack), 0
  {
    if stack != [] {
      var rest := stack[1..];
      match stack[0] {
        case Leave(p, previous) => TurnRestores(o, Unwound(m, p, previous), rest);
        case Handler(_) => TurnRestores(o, m, rest);
        case Do(c) =>
          match c {
            case Skip => TurnRestores(o, m, rest);
            case Await =>
            case Raise => RaiseRestores(o, m, rest);
            case Look(p) =>
              if p in m {
                TurnRestores(o, m, rest);
              } else {
                RaiseRestores(o, m, rest);
              }
            case Then(a, b) =>
              WeightOf(Do(a), Do(b), rest);
              RestoredOverTwo(m, Do(a), Do(b), rest);
              RestoredOver(m, Do(b), rest);
              TurnRestores(o, m, [Do(a), Do(b)] + rest);
            case Try(a, b) =>
              WeightOf(Do(a), Handler(b), rest);
              RestoredOverTwo(m, Do(a), Handler(b), rest);
              RestoredOver(m, Handler(b), rest);
              TurnRestores(o, m, [Do(a), Handler(b)] + rest);
            case With(p, vars, notify, body) =>
              var leave := Leave(p, At(m, p));
              UnwoundRestores(m, p, vars);
              WeightOf(Do(body), leave, rest);
              RestoredOverTwo(m[p := vars], Do(body), leave, rest);
              RestoredOver(m[p := vars], leave, rest);
              RaiseRestores(o, m, rest);
              TurnRestores(o, m[p := vars], [Do(body), leave] + rest);
          }
      }
    }
  }

  lemma {:induction false} RaiseRestores(o: Observers, m: Context, rest: seq<Frame>)
    ensures var t := AfterRaise(o, m, rest);
            Restored(t.live, t.left) == Restored(m, rest) && (t.state != Waits ==> t.left == [])
    decreases Weight(rest), 1
  {
    RaisedIsLighter(m, rest);
    RaisedRestores(m, rest);
    var (live, left) := Raised(m, rest);
    if left.Some? {
      TurnRestores(o, live, left.value);
    }
  }

  predicate NoAwait(c: Code) {
    match c
    case Await => false
    case Then(a, b) => NoAwait(a) && NoAwait(b)
    case Try(a, b) => NoAwait(a) && NoAwait(b)
    case With(_, _, _, body) => NoAwait(body)
    case _ => true
  }

  ghost predicate NoneAwait(stack: seq<Frame>) {
    stack != [] ==> (stack[0].Leave? || NoAwait(stack[0].code)) && NoneAwait(stack[1..])
  }

  lemma NoneAwaitOver(f: Frame, g: Frame, rest: seq<Frame>)
    requires NoneAwait(rest) && (f.Leave? || NoAwait(f.code)) && (g.Leave? || NoAwait(g.code))
    ensures NoneAwait([f] + rest) && NoneAwait([f, g] + rest)
  {
    assert ([f] + rest)[1..] == rest && ([g] + rest)[1..] == rest && ([f, g] + rest)[1..] == [g] + rest;
  }

  lemma {:induction false} RaisedAwaitsNot(m: Context, stack: seq<Frame>)
    requires NoneAwait(stack)
    ensures Raised(m, stack).1.Some? ==> NoneAwait(Raised(m, stack).1.value)
    decreases |stack|
  {
    if stack != [] {
      match stack[0] {
        case Do(_) => RaisedAwaitsNot(m, stack[1..]);
        case Leave(p, previous) => RaisedAwaitsNot(Unwound(m, p, previous), stack[1..]);
        case Handler(c) => NoneAwaitOver(Do(c), Do(c), stack[1..]);
      }
    }
  }

  /** Code without an await is done in one turn. */
  lemma {:induction false} NoAwaitEnds(o: Observers, m: Context, stack: seq<Frame>)
    requires NoneAwait(stack)
    ensures RunTurn(o, m, stack).state != Waits
    decreases Weight(stack), 0
  {
    if stack != [] {
      var rest := stack[1..];
      match stack[0] {
        case Leave(p, previous) => NoAwaitEnds(o, Unwound(m, p, previous), rest);
        case Handler(_) => NoAwaitEnds(o, m, rest);
        case Do(c) =>
          match c {
            case Skip => NoAwaitEnds(o, m, rest);
            case Raise => RaiseEnds(o, m, rest);
            case Look(p) =>
              if p in m {
                NoAwaitEnds(o, m, rest);
              } else {
                RaiseEnds(o, m, rest);
              }
            case Then(a, b) =>
              WeightOf(Do(a), Do(b), rest);
              NoneAwaitOver(Do(a), Do(b), rest);
              NoAwaitEnds(o, m, [Do(a), Do(b)] + rest);
            case Try(a, b) =>
              WeightOf(Do(a), Handler(b), rest);
              NoneAwaitOver(Do(a), Handler(b), rest);
              NoAwaitEnds(o, m, [Do(a), Handler(b)] + rest);
            case With(p, vars, notify, body) =>
              var leave := Leave(p, At(m, p));
              WeightOf(Do(body), leave, rest);
              NoneAwaitOver(Do(body), leave, rest);
              RaiseEnds(o, Unwound(m[p := vars], p, At(m, p)), rest);
              NoAwaitEnds(o, m[p := vars], [Do(body), leave] + rest);
          }
      }
    }
  }

  lemma {:induction false} RaiseEnds(o: Observers, m: Context, rest: seq<Frame>)
    requires NoneAwait(rest)
    ensures AfterRaise(o, m, rest).state != Waits
    decreases Weight(rest), 1
  {
    RaisedIsLighter(m, rest);
    RaisedAwaitsNot(m, rest);
    var (live, left) := Raised(m, rest);
    if left.Some? {
      NoAwaitEnds(o, live, left.value);
    }
  }

  /** Any nesting of points, re-entered or not, with bodies or observers that raise, caught
      or not, restores the map that was there. */
  lemma NestingRestores(o: Observers, c: Code, m: Context)
    requires NoAwait(c)
    ensures var t := RunTurn(o, m, [Do(c)]);
            t.live == m && t.left == [] && t.state != Waits
  {
    TurnRestores(o, m, [Do(c)]);
    NoAwaitEnds(o, m, [Do(c)]);
  }

  // --------------------------------------------- inside a request's point

  /** `rfc3412.receiveMessage:request`, where access control reads who is asking. */
  const REQUEST: Point := IncomingRequest

  /** Code that does not itself enter the request point: only the dispatcher does. */
  predicate Avoids(c: Code) {
    match c
    case Then(a, b) => Avoids(a) && Avoids(b)
    case Try(a, b) => Avoids(a) && Avoids(b)
    case With(p, _, _, body) => p != REQUEST && Avoids(body)
    case _ => true
  }

  predicate AvoidsFrame(f: Frame) {
    match f
    case Leave(p, _) => p != REQUEST
    case Do(c) => Avoids(c)
    case Handler(c) => Avoids(c)
  }

  /** What is left to do inside the request point, whose leaving comes last. */
  ghost predicate Guarded(stack: seq<Frame>) {
    && stack != []
    && if stack[0].Leave? && stack[0].point == REQUEST then |stack| == 1
       else AvoidsFrame(stack[0]) && Guarded(stack[1..])
  }

  lemma GuardedOver(f: Frame, g: Frame, rest: seq<Frame>)
    requires Guarded(rest) && AvoidsFrame(f) && AvoidsFrame(g)
    ensures Guarded([f] + rest) && Guarded([f, g] + rest)
  {
    assert ([f] + rest)[1..] == rest && ([g] + rest)[1..] == rest && ([f, g] + rest)[1..] == [g] + rest;
  }

  lemma {:induction false} RaisedGuarded(m: Context, stack: seq<Frame>)
    requires Guarded(stack)
    ensures var (live, left) := Raised(m, stack);
            left.Some? ==> Guarded(left.value) && At(live, REQUEST) == At(m, REQUEST)
    decreases |stack|
  {
    match stack[0] {
      case Do(_) => RaisedGuarded(m, stack[1..]);
      case Leave(p, previous) =>
        if p != REQUEST {
          RaisedGuarded(Unwound(m, p, previous), stack[1..]);
        }
      case Handler(c) => GuardedOver(Do(c), Do(c), stack[1..]);
    }
  }

  /** What has been heard of the request point. */
  function OfRequest(heard: seq<Heard>): seq<Heard> {
    if heard == [] then []
    else OfRequest(heard[..|heard| - 1]) + if heard[|heard| - 1].point == REQUEST then [heard[|heard| - 1]] else []
  }

  lemma {:induction false} OfRequestAppend(a: seq<Heard>, b: seq<Heard>)
    ensures OfRequest(a + b) == OfRequest(a) + OfRequest(b)
  {
    if b == [] {
      assert a + b == a;
    } else {
      OfRequestAppend(a, b[..|b| - 1]);
      assert (a + b)[..|a + b| - 1] == a + b[..|b| - 1];
    }
  }

  lemma {:induction false} NoneOfRequest(heard: seq<Heard>)
    requires forall i :: 0 <= i < |heard| ==> heard[i].point != REQUEST
    ensures OfRequest(heard) == []
  {
    if heard != [] {
      NoneOfRequest(heard[..|heard| - 1]);
    }
  }

  lemma {:induction false} AllOfRequest(heard: seq<Heard>)
    requires forall i :: 0 <= i < |heard| ==> heard[i].point == REQUEST
    ensures OfRequest(heard) == heard
  {
    if heard != [] {
      AllOfRequest(heard[..|heard| - 1]);
    }
  }

  /** A turn inside the point: nothing but `vars` is seen there, nobody is told of it, and
      if the code waits it waits inside. */
  ghost predicate StaysInside(t: Turn, vars: nat) {
    && (forall i :: 0 <= i < |t.seen| && t.seen[i].point == REQUEST ==> t.seen[i].vars == vars)
    && (forall i :: 0 <= i < |t.heard| ==> t.heard[i].point != REQUEST)
    && (t.state == Waits ==> Guarded(t.left) && At(t.live, REQUEST) == Some(vars))
  }

  lemma {:induction false} TurnStaysInside(o: Observers, m: Context, stack: seq<Frame>, vars: nat)
    requires Guarded(stack) && At(m, REQUEST) == Some(vars)
    ensures StaysInside(RunTurn(o, m, stack), vars)
    decreases Weight(stack), 0
  {
    var rest := stack[1..];
    match stack[0] {
      case Leave(p, previous) =>
        if p != REQUEST {
          TurnStaysInside(o, Unwound(m, p, previous), rest, vars);
        }
      case Handler(_) => TurnStaysInside(o, m, rest, vars);
      case Do(c) =>
        match c {
          case Skip => TurnStaysInside(o, m, rest, vars);
          case Await =>
          case Raise => RaiseStaysInside(o, m, rest, vars);
          case Look(p) =>
            if p in m {
              TurnStaysInside(o, m, rest, vars);
            } else {
              RaiseStaysInside(o, m, rest, vars);
            }
          case Then(a, b) =>
            WeightOf(Do(a), Do(b), rest);
            GuardedOver(Do(a), Do(b), rest);
            TurnStaysInside(o, m, [Do(a), Do(b)] + rest, vars);
          case Try(a, b) =>
            WeightOf(Do(a), Handler(b), rest);
            GuardedOver(Do(a), Handler(b), rest);
            TurnStaysInside(o, m, [Do(a), Handler(b)] + rest, vars);
          case With(p, inner, notify, body) =>
            var leave := Leave(p, At(m, p));
            WeightOf(Do(body), leave, rest);
            GuardedOver(Do(body), leave, rest);
            TellsAt(o, p, inner, ObserversAt(o, p));
            UnwoundRestores(m, p, inner);
            RaiseStaysInside(o, m, rest, vars);
            TurnStaysInside(o, m[p := inner], [Do(body), leave] + rest, vars);
        }
    }
  }

  lemma {:induction false} RaiseStaysInside(o: Observers, m: Context, rest: seq<Frame>, vars: nat)
    requires Guarded(rest) && At(m, REQUEST) == Some(vars)
    ensures StaysInside(AfterRaise(o, m, rest), vars)
    decreases Weight(rest), 1
  {
    RaisedIsLighter(m, rest);
    RaisedGuarded(m, rest);
    var (live, left) := Raised(m, rest);
    if left.Some? {
      TurnStaysInside(o, live, left.value, vars);
    }
  }

  /** What observers are told of a point is its variables, each of them in order, up to one
      that raises. */
  lemma {:induction false} TellsAt(o: Observers, p: Point, vars: nat, who: seq<nat>)
    ensures var (heard, raised) := Tell(o, p, vars, who);
            && |heard| <= |who|
            && (forall i :: 0 <= i < |heard| ==> heard[i] == Heard(who[i], p, vars))
            && (forall i :: 0 <= i < |heard| - 1 ==> !o.raises(heard[i]))
            && (if raised then heard != [] && o.raises(heard[|heard| - 1])
                else |heard| == |who| && forall i :: 0 <= i < |heard| ==> !o.raises(heard[i]))
  {
    if who != [] {
      TellsAt(o, p, vars, who[1..]);
    }
  }

  /** The turn that enters the point, telling its observers or not. */
  lemma EnteringTurn(o: Observers, m: Context, vars: nat, notify: bool, body: Code)
    requires Avoids(body)
    ensures var t := RunTurn(o, m, [Do(With(REQUEST, vars, notify, body))]);
            && OfRequest(t.heard) == (if notify then Tell(o, REQUEST, vars, ObserversAt(o, REQUEST)).0 else [])
            && (forall i :: 0 <= i < |t.seen| && t.seen[i].point == REQUEST ==> t.seen[i].vars == vars)
            && (t.state == Waits ==> Guarded(t.left) && At(t.live, REQUEST) == Some(vars))
            && Restored(t.live, t.left) == m && (t.state != Waits ==> t.live == m)
  {
    var code := Do(With(REQUEST, vars, notify, body));
    TurnRestores(o, m, [code]);
    TellsAt(o, REQUEST, vars, ObserversAt(o, REQUEST));
    var told := if notify then Tell(o, REQUEST, vars, ObserversAt(o, REQUEST)) else ([], false);
    AllOfRequest(told.0);
    UnwoundRestores(m, REQUEST, vars);
    if !told.1 {
      var stack := [Do(body), Leave(REQUEST, At(m, REQUEST))];
      assert [code][1..] == [] && stack + [] == stack && stack[1..] == [Leave(REQUEST, At(m, REQUEST))];
      TurnStaysInside(o, m[REQUEST := vars], stack, vars);
      var r := RunTurn(o, m[REQUEST := vars], stack);
      OfRequestAppend(told.0, r.heard);
      NoneOfRequest(r.heard);
    } else {
      assert told.0 + [] == told.0;
    }
  }

  // ------------------------------------------------ a turn inside a point

  lemma {:induction false} RaisedThenLeave(m: Context, stack: seq<Frame>, last: Frame)
    requires last.Leave?
    ensures var (live, left) := Raised(m, stack);
            Raised(m, stack + [last]) ==
            if left == None then (Unwound(live, last.point, last.previous), None) else (live, Some(left.value + [last]))
    decreases |stack|
  {
    if stack == [] {
      assert [] + [last] == [last];
    } else {
      assert (stack + [last])[1..] == stack[1..] + [last];
      match stack[0] {
        case Do(_) => RaisedThenLeave(m, stack[1..], last);
        case Leave(p, previous) => RaisedThenLeave(Unwound(m, p, previous), stack[1..], last);
        case Handler(c) => assert [Do(c)] + stack[1..] + [last] == [Do(c)] + (stack[1..] + [last]);
      }
    }
  }

  /** The turn `t` goes as `inside` does, and leaves one point more if it does not wait. */
  predicate LeavesAfter(t: Turn, inside: Turn, last: Frame)
    requires last.Leave?
  {
    && t.heard == inside.heard && t.seen == inside.seen && t.state == inside.state
    && if inside.state == Waits then t.live == inside.live && t.left == inside.left + [last]
       else t.live == Unwound(inside.live, last.point, last.previous) && t.left == []
  }

  lemma {:induction false} TurnThenLeave(o: Observers, m: Context, stack: seq<Frame>, last: Frame)
    requires last.Leave?
    ensures LeavesAfter(RunTurn(o, m, stack + [last]), RunTurn(o, m, stack), last)
    decreases Weight(stack), 2
  {
    hide AfterRaise, Unwound;
    if stack == [] {
      assert [] + [last] == [last] && [last][1..] == [];
    } else {
      var rest := stack[1..];
      assert (stack + [last])[1..] == rest + [last];
      match stack[0] {
        case Leave(p, previous) => TurnThenLeave(o, Unwound(m, p, previous), rest, last);
        case Handler(_) => TurnThenLeave(o, m, rest, last);
        case Do(c) =>
          assert stack == [Do(c)] + rest && stack + [last] == [Do(c)] + (rest + [last]);
          CodeThenLeave(o, m, c, rest, last);
      }
    }
  }

  lemma {:induction false} CodeThenLeave(o: Observers, m: Context, c: Code, rest: seq<Frame>, last: Frame)
    requires last.Leave?
    ensures LeavesAfter(RunTurn(o, m, [Do(c)] + (rest + [last])), RunTurn(o, m, [Do(c)] + rest), last)
    decreases 1 + Size(c) + Weight(rest), 1
  {
    hide AfterRaise, Unwound, Tell;
    assert ([Do(c)] + rest)[1..] == rest && ([Do(c)] + (rest + [last]))[1..] == rest + [last];
    match c {
      case Skip => TurnThenLeave(o, m, rest, last);
      case Await =>
      case Raise => RaiseThenLeave(o, m, rest, last);
      case Look(p) =>
        if p in m {
          TurnThenLeave(o, m, rest, last);
        } else {
          RaiseThenLeave(o, m, rest, last);
        }
      case Then(a, b) => PairThenLeave(o, m, Do(a), Do(b), rest, last);
      case Try(a, b) => PairThenLeave(o, m, Do(a), Handler(b), rest, last);
      case With(p, vars, notify, body) =>
        RaiseThenLeave(o, Unwound(m[p := vars], p, At(m, p)), rest, last);
        PairThenLeave(o, m[p := vars], Do(body), Leave(p, At(m, p)), rest, last);
    }
  }

  lemma {:induction false} PairThenLeave(o: Observers, m: Context, f: Frame, g: Frame, rest: seq<Frame>, last: Frame)
    requires last.Leave?
    ensures LeavesAfter(RunTurn(o, m, [f, g] + (rest + [last])), RunTurn(o, m, [f, g] + rest), last)
    decreases (if f.Leave? then 1 else 1 + Size(f.code)) + (if g.Leave? then 1 else 1 + Size(g.code)) + Weight(rest), 3
  {
    WeightOf(f, g, rest);
    assert [f, g] + rest + [last] == [f, g] + (rest + [last]);
    TurnThenLeave(o, m, [f, g] + rest, last);
  }

  lemma {:induction false} RaiseThenLeave(o: Observers, m: Context, rest: seq<Frame>, last: Frame)
    requires last.Leave?
    ensures LeavesAfter(AfterRaise(o, m, rest + [last]), AfterRaise(o, m, rest), last)
    decreases Weight(rest), 3
  {
    RaisedIsLighter(m, rest);
    RaisedThenLeave(m, rest, last);
    var (live, left) := Raised(m, rest);
    if left.Some? {
      TurnThenLeave(o, live, left.value, last);
    }
  }

  /** Entering a point, running code that does not await, and leaving: as one turn. */
  lemma TurnInside(o: Observers, m: Context, p: Point, vars: nat, notify: bool, body: Code)
    requires NoAwait(body)
    ensures var told := if notify then Tell(o, p, vars, ObserversAt(o, p)) else ([], false);
            var t, inside := RunTurn(o, m, [Do(With(p, vars, notify, body))]), RunTurn(o, m[p := vars], [Do(body)]);
            && t.live == m && t.left == [] && inside.live == m[p := vars] && inside.left == []
            && inside.state != Waits
            && (told.1 ==> t.heard == told.0 && t.seen == [] && t.state == Raises)
            && (!told.1 ==> t.heard == told.0 + inside.heard && t.seen == inside.seen && t.state == inside.state)
  {
    NestingRestores(o, With(p, vars, notify, body), m);
    NestingRestores(o, body, m[p := vars]);
    var leave := Leave(p, At(m, p));
    TurnThenLeave(o, m[p := vars], [Do(body)], leave);
    assert [Do(body)] + [leave] == [Do(body), leave] + [];
    assert [Do(With(p, vars, notify, body))][1..] == [];
    assert Raised(m, []) == (m, None);
    var told := if notify then Tell(o, p, vars, ObserversAt(o, p)) else ([], false);
    assert told.0 + [] == told.0;
  }

  // ------------------------------------------- all the turns of some code

  /** A turn that waits leaves less to do. */
  lemma {:induction false} WaitsLighter(o: Observers, m: Context, stack: seq<Frame>)
    ensures RunTurn(o, m, stack).state == Waits ==> Weight(RunTurn(o, m, stack).left) < Weight(stack)
    decreases Weight(stack), 0
  {
    if stack != [] {
      var rest := stack[1..];
      match stack[0] {
        case Leave(p, previous) => WaitsLighter(o, Unwound(m, p, previous), rest);
        case Handler(_) => WaitsLighter(o, m, rest);
        case Do(c) =>
          match c {
            case Skip => WaitsLighter(o, m, rest);
            case Await =>
            case Raise => RaiseWaitsLighter(o, m, rest);
            case Look(p) =>
              if p in m {
                WaitsLighter(o, m, rest);
              } else {
                RaiseWaitsLighter(o, m, rest);
              }
            case Then(a, b) =>
              WeightOf(Do(a), Do(b), rest);
              WaitsLighter(o, m, [Do(a), Do(b)] + rest);
            case Try(a, b) =>
              WeightOf(Do(a), Handler(b), rest);
              WaitsLighter(o, m, [Do(a), Handler(b)] + rest);
            case With(p, vars, notify, body) =>
              var leave := Leave(p, At(m, p));
              WeightOf(Do(body), leave, rest);
              RaiseWaitsLighter(o, Unwound(m[p := vars], p, At(m, p)), rest);
              WaitsLighter(o, m[p := vars], [Do(body), leave] + rest);
          }
      }
    }
  }

  lemma {:induction false} RaiseWaitsLighter(o: Observers, m: Context, rest: seq<Frame>)
    ensures AfterRaise(o, m, rest).state == Waits ==> Weight(AfterRaise(o, m, rest).left) <= Weight(rest)
    decreases Weight(rest), 1
  {
    RaisedIsLighter(m, rest);
    var (live, left) := Raised(m, rest);
    if left.Some? {
      WaitsLighter(o, live, left.value);
    }
  }

  /** Every turn of a stack, one after the other, each over the map the last one left. */
  function AllTurns(o: Observers, m: Context, stack: seq<Frame>): Turn
    decreases Weight(stack)
  {
    var t := RunTurn(o, m, stack);
    if t.state != Waits then t
    else
      WaitsLighter(o, m, stack);
      Preceded(t.heard, t.seen, AllTurns(o, t.live, t.left))
  }

  function AllAfterRaise(o: Observers, m: Context, rest: seq<Frame>): Turn {
    var t := AfterRaise(o, m, rest);
    if t.state != Waits then t else Preceded(t.heard, t.seen, AllTurns(o, t.live, t.left))
  }

  // ------------------------------------------------- the points as scopes

  /** What code does, read off its text: a point means the innermost `with` around, an
      exception passes to the `try` around, and waiting is nothing. */
  datatype Sense = Sense(raises: bool, heard: seq<Heard>, seen: seq<Sight>)

  function After(a: Sense, b: Sense): Sense {
    Sense(b.raises, a.heard + b.heard, a.seen + b.seen)
  }

  function Meaning(o: Observers, m: Context, c: Code): Sense
    decreases c
  {
    match c
    case Skip => Sense(false, [], [])
    case Await => Sense(false, [], [])
    case Raise => Sense(true, [], [])
    case Look(p) => if p in m then Sense(false, [], [Sight(p, m[p])]) else Sense(true, [], [])
    case Then(a, b) =>
      var first := Meaning(o, m, a);
      if first.raises then first else After(first, Meaning(o, m, b))
    case Try(a, b) =>
      var first := Meaning(o, m, a);
      if first.raises then After(first, Meaning(o, m, b)) else first
    case With(p, vars, notify, body) =>
      var told := if notify then Tell(o, p, vars, ObserversAt(o, p)) else ([], false);
      if told.1 then Sense(true, told.0, [])
      else After(Sense(false, told.0, []), Meaning(o, m[p := vars], body))
  }

  /** The rest of it once code in front of it has had its say. */
  function Onward(o: Observers, m: Context, x: Sense, rest: seq<Frame>): Turn {
    Preceded(x.heard, x.seen, if x.raises then AllAfterRaise(o, m, rest) else AllTurns(o, m, rest))
  }

  lemma OnwardTwice(o: Observers, m: Context, a: Sense, b: Sense, rest: seq<Frame>)
    requires !a.raises
    ensures Preceded(a.heard, a.seen, Onward(o, m, b, rest)) == Onward(o, m, After(a, b), rest)
  {
    PrecededTwice(a.heard, b.heard, a.seen, b.seen,
                  if b.raises then AllAfterRaise(o, m, rest) else AllTurns(o, m, rest));
  }

  /** How all the turns begin, by the code on top. */
  lemma FirstOfAll(o: Observers, m: Context, c: Code, rest: seq<Frame>)
    ensures AllTurns(o, m, [Do(c)] + rest) ==
            match c
            case Skip => AllTurns(o, m, rest)
            case Await => AllTurns(o, m, rest)
            case Raise => AllAfterRaise(o, m, rest)
            case Look(p) =>
              if p in m then Preceded([], [Sight(p, m[p])], AllTurns(o, m, rest)) else AllAfterRaise(o, m, rest)
            case Then(a, b) => AllTurns(o, m, [Do(a), Do(b)] + rest)
            case Try(a, b) => AllTurns(o, m, [Do(a), Handler(b)] + rest)
            case With(p, vars, notify, body) =>
              var told := if notify then Tell(o, p, vars, ObserversAt(o, p)) else ([], false);
              Preceded(told.0, [],
                       if told.1 then AllAfterRaise(o, m, rest)
                       else AllTurns(o, m[p := vars], [Do(body), Leave(p, At(m, p))] + rest))
  {
    hide AfterRaise, Unwound, Tell, Weight;
    assert ([Do(c)] + rest)[1..] == rest;
    match c {
      case Await => PrecededTwice([], [], [], [], AllTurns(o, m, rest));
      case Look(p) =>
        if p in m {
          LaterTurns(o, [], [Sight(p, m[p])], RunTurn(o, m, rest));
        }
      case With(p, vars, notify, body) =>
        UnwoundRestores(m, p, vars);
        var told := if notify then Tell(o, p, vars, ObserversAt(o, p)) else ([], false);
        LaterTurns(o, told.0, [], if told.1 then AfterRaise(o, m, rest)
                                  else RunTurn(o, m[p := vars], [Do(body), Leave(p, At(m, p))] + rest));
      case _ =>
    }
  }

  /** Saying something first is saying it before all the turns. */
  lemma LaterTurns(o: Observers, heard: seq<Heard>, seen: seq<Sight>, t: Turn)
    ensures t.state == Waits ==>
              Preceded(heard + t.heard, seen + t.seen, AllTurns(o, t.live, t.left))
              == Preceded(heard, seen, Preceded(t.heard, t.seen, AllTurns(o, t.live, t.left)))
    ensures [] + t.heard == t.heard && [] + t.seen == t.seen
  {
    PrecededTwice(heard, t.heard, seen, t.seen, AllTurns(o, t.live, t.left));
  }

  lemma {:induction false} CodeMeans(o: Observers, m: Context, c: Code, rest: seq<Frame>)
    ensures AllTurns(o, m, [Do(c)] + rest) == Onward(o, m, Meaning(o, m, c), rest)
    decreases c, 0
  {
    FirstOfAll(o, m, c, rest);
    PrecededTwice([], [], [], [], AllTurns(o, m, rest));
    PrecededTwice([], [], [], [], AllAfterRaise(o, m, rest));
    hide AllTurns, AllAfterRaise, Unwound, Tell;
    match c {
      case Then(a, b) =>
        PairMeans(o, m, a, Do(b), rest);
        CodeMeans(o, m, b, rest);
        RaisePasses(o, m, Do(b), rest);
        if !Meaning(o, m, a).raises {
          OnwardTwice(o, m, Meaning(o, m, a), Meaning(o, m, b), rest);
        }
      case Try(a, b) =>
        PairMeans(o, m, a, Handler(b), rest);
        CodeMeans(o, m, b, rest);
        RaiseCaught(o, m, b, rest);
        OnwardTwice(o, m, Meaning(o, m, a).(raises := false), Meaning(o, m, b), rest);
      case With(p, vars, notify, body) =>
        var told := if notify then Tell(o, p, vars, ObserversAt(o, p)) else ([], false);
        if !told.1 {
          PairMeans(o, m[p := vars], body, Leave(p, At(m, p)), rest);
          RaiseLeaves(o, m[p := vars], p, At(m, p), rest);
          UnwoundRestores(m, p, vars);
          OnwardTwice(o, m, Sense(false, told.0, []), Meaning(o, m[p := vars], body), rest);
        }
      case _ =>
    }
  }

  lemma {:induction false} PairMeans(o: Observers, m: Context, a: Code, g: Frame, rest: seq<Frame>)
    ensures AllTurns(o, m, [Do(a), g] + rest) == Onward(o, m, Meaning(o, m, a), [g] + rest)
    decreases a, 1
  {
    assert [Do(a), g] + rest == [Do(a)] + ([g] + rest);
    CodeMeans(o, m, a, [g] + rest);
  }

  lemma RaisePasses(o: Observers, m: Context, g: Frame, rest: seq<Frame>)
    requires g.Do?
    ensures AllAfterRaise(o, m, [g] + rest) == AllAfterRaise(o, m, rest)
  {
    assert ([g] + rest)[1..] == rest;
  }

  lemma RaiseCaught(o: Observers, m: Context, b: Code, rest: seq<Frame>)
    ensures AllAfterRaise(o, m, [Handler(b)] + rest) == AllTurns(o, m, [Do(b)] + rest)
    ensures AllTurns(o, m, [Handler(b)] + rest) == AllTurns(o, m, rest)
  {
    assert ([Handler(b)] + rest)[1..] == rest;
  }

  lemma RaiseLeaves(o: Observers, m: Context, p: Point, previous: Option<nat>, rest: seq<Frame>)
    ensures AllAfterRaise(o, m, [Leave(p, previous)] + rest) == AllAfterRaise(o, Unwound(m, p, previous), rest)
    ensures AllTurns(o, m, [Leave(p, previous)] + rest) == AllTurns(o, Unwound(m, p, previous), rest)
  {
    assert ([Leave(p, previous)] + rest)[1..] == rest;
  }

  /** Entering and leaving points as code goes, through whatever raises, is caught and is
      waited for in however many turns, comes to reading them as scopes: it ends as its text
      says, having seen the innermost `with` of each point it looks at and told whom it says
      to tell, and the map is as it was. */
  lemma PointsAreScopes(o: Observers, m: Context, c: Code)
    ensures var x := Meaning(o, m, c);
            AllTurns(o, m, [Do(c)]) == Turn(m, [], if x.raises then Raises else Ends, x.heard, x.seen)
  {
    assert [Do(c)] + [] == [Do(c)];
    CodeMeans(o, m, c, []);
    var x := Meaning(o, m, c);
    assert Raised(m, []) == (m, None);
    NothingAfter(x.heard, x.seen, m, [], if x.raises then Raises else Ends);
  }

  // ------------------------------------------------------- the observer

  /** The observer, with the live points of whichever task is running. */
  class MetaObserver {
    var observers: map<Point, seq<nat>>
    var execpoints: Context
    var heard: seq<Heard>
    const raises: Heard -> bool

    constructor (raises: Heard -> bool)
      ensures observers == map[] && execpoints == map[] && heard == [] && this.raises == raises
    {
      observers, execpoints, heard := map[], map[], [];
      this.raises := raises;
    }

    function Registered(): Observers
      reads this
    {
      Observers(observers, raises)
    }

    /** `storeExecutionContext`; true is an observer's exception coming out. */
    method StoreExecutionContext(execpoint: Point, variables: nat) returns (raised: bool)
      modifies this`execpoints, this`heard
      ensures execpoints == old(execpoints)[execpoint := variables]
      ensures var told := Tell(Registered(), execpoint, variables, ObserversAt(Registered(), execpoint));
              heard == old(heard) + told.0 && raised == told.1
    {
      execpoints := execpoints[execpoint := variables];
      if execpoint !in observers {
        assert heard == heard + [];
        return false;
      }
      var who := observers[execpoint];
      ghost var all := Tell(Registered(), execpoint, variables, who);
      for i := 0 to |who|
        invariant execpoints == old(execpoints)[execpoint := variables] && observers == old(observers)
        invariant old(heard) + all.0 == heard + Tell(Registered(), execpoint, variables, who[i..]).0
        invariant all.1 == Tell(Registered(), execpoint, variables, who[i..]).1
      {
        var h := Heard(who[i], execpoint, variables);
        ghost var rest := Tell(Registered(), execpoint, variables, who[i + 1..]).0;
        assert who[i..][1..] == who[i + 1..];
        assert heard + ([h] + rest) == heard + [h] + rest;
        heard := heard + [h];
        if raises(h) {
          return true;
        }
      }
      return false;
    }

    /** The way into a `with` block: on success the point is live, and on an observer's
        exception everything is as it was. */
    method Enter(execpoint: Point, variables: nat, notify: bool) returns (previous: Option<nat>, raised: bool)
      modifies this`execpoints, this`heard
      ensures previous == At(old(execpoints), execpoint)
      ensures execpoints == if raised then old(execpoints) else old(execpoints)[execpoint := variables]
      ensures !notify ==> !raised && heard == old(heard)
      ensures notify ==> var told := Tell(Registered(), execpoint, variables, ObserversAt(Registered(), execpoint));
                         heard == old(heard) + told.0 && raised == told.1
    {
      previous, raised := At(execpoints, execpoint), false;
      if notify {
        raised := StoreExecutionContext(execpoint, variables);
        if raised {
          Unwind(execpoint, previous);
          assert execpoints == old(execpoints);
        }
      } else {
        execpoints := execpoints[execpoint := variables];
      }
    }

    /** The way out of one. */
    method Unwind(execpoint: Point, previous: Option<nat>)
      requires execpoint in execpoints
      modifies this`execpoints
      ensures execpoints == Unwound(old(execpoints), execpoint, previous)
    {
      execpoints := execpoints - {execpoint};
      if previous.Some? {
        execpoints := execpoints[execpoint := previous.value];
      }
    }
  }

  /** Every point left open is live when its turn to be left comes. */
  ghost predicate AllOpen(m: Context, stack: seq<Frame>)
    decreases |stack|
  {
    stack != [] ==>
      if stack[0].Leave? then
        stack[0].point in m && AllOpen(Unwound(m, stack[0].point, stack[0].previous), stack[1..])
      else AllOpen(m, stack[1..])
  }

  lemma AllOpenOver(m: Context, f: Frame, g: Frame, rest: seq<Frame>)
    requires !f.Leave?
    ensures AllOpen(m, [f] + rest) == AllOpen(m, rest)
    ensures AllOpen(m, [f, g] + rest)
         == if g.Leave? then g.point in m && AllOpen(Unwound(m, g.point, g.previous), rest) else AllOpen(m, rest)
  {
    assert ([f] + rest)[1..] == rest && ([g] + rest)[1..] == rest && ([f, g] + rest)[1..] == [g] + rest;
  }

  function Preceded(heard: seq<Heard>, seen: seq<Sight>, t: Turn): Turn {
    t.(heard := heard + t.heard, seen := seen + t.seen)
  }

  lemma PrecededTwice(a: seq<Heard>, b: seq<Heard>, x: seq<Sight>, y: seq<Sight>, t: Turn)
    ensures Preceded(a, x, Preceded(b, y, t)) == Preceded(a + b, x + y, t)
    ensures Preceded([], [], t) == t
  {
    assert a + (b + t.heard) == a + b + t.heard && x + (y + t.seen) == x + y + t.seen;
  }

  /** Running code over the observer. */
  class Interpreter {
    const observer: MetaObserver

    constructor (observer: MetaObserver)
      ensures this.observer == observer
    {
      this.observer := observer;
    }

    /** Leaves points up to the nearest handler. */
    method RaiseOut(stack: seq<Frame>) returns (left: Option<seq<Frame>>)
      requires AllOpen(observer.execpoints, stack)
      modifies observer`execpoints
      ensures (observer.execpoints, left) == Raised(old(observer.execpoints), stack)
      ensures AllOpen(observer.execpoints, if left == None then [] else left.value)
    {
      var rest := stack;
      while rest != []
        invariant AllOpen(observer.execpoints, rest)
        invariant Raised(observer.execpoints, rest) == Raised(old(observer.execpoints), stack)
        decreases |rest|
      {
        match rest[0] {
          case Handler(c) =>
            AllOpenOver(observer.execpoints, Do(c), Do(c), rest[1..]);
            return Some([Do(c)] + rest[1..]);
          case Leave(p, previous) => observer.Unwind(p, previous);
          case Do(_) =>
        }
        rest := rest[1..];
      }
      return None;
    }

    /** Leaves every point: what is thrown in is caught nowhere. */
    method LeaveAll(stack: seq<Frame>)
      requires AllOpen(observer.execpoints, stack)
      modifies observer`execpoints
      ensures observer.execpoints == Restored(old(observer.execpoints), stack)
    {
      var rest := stack;
      while rest != []
        invariant AllOpen(observer.execpoints, rest)
        invariant Restored(observer.execpoints, rest) == Restored(old(observer.execpoints), stack)
        decreases |rest|
      {
        if rest[0].Leave? {
          observer.Unwind(rest[0].point, rest[0].previous);
        }
        rest := rest[1..];
      }
    }

    /** The code on top, up to what it puts in its place or to its raising. */
    method Advance(c: Code, rest: seq<Frame>) returns (left: seq<Frame>, raised: bool, seen: seq<Sight>)
      requires c != Await && AllOpen(observer.execpoints, rest)
      modifies observer`execpoints, observer`heard
      ensures old(observer.heard) <= observer.heard
      ensures var o, m := observer.Registered(), old(observer.execpoints);
              RunTurn(o, m, [Do(c)] + rest)
              == Preceded(observer.heard[|old(observer.heard)|..], seen,
                          if raised then AfterRaise(o, observer.execpoints, rest)
                          else RunTurn(o, observer.execpoints, left))
      ensures raised ==> left == rest
      ensures AllOpen(observer.execpoints, left) && (!raised ==> Weight(left) < 1 + Size(c) + Weight(rest))
    {
      hide Raised, Restored, AfterRaise, Unwound;
      ghost var o, m := observer.Registered(), observer.execpoints;
      left, raised, seen := rest, false, [];
      ghost var told: seq<Heard> := [];
      assert ([Do(c)] + rest)[1..] == rest;
      match c {
        case Skip =>
        case Raise =>
          raised := true;
        case Look(p) =>
          if p in observer.execpoints {
            seen := [Sight(p, observer.execpoints[p])];
          } else {
            raised := true;
          }
        case Then(a, b) =>
          WeightOf(Do(a), Do(b), rest);
          AllOpenOver(m, Do(a), Do(b), rest);
          left := [Do(a), Do(b)] + rest;
        case Try(a, b) =>
          WeightOf(Do(a), Handler(b), rest);
          AllOpenOver(m, Do(a), Handler(b), rest);
          left := [Do(a), Handler(b)] + rest;
        case With(p, vars, notify, body) =>
          var previous: Option<nat>;
          previous, raised := observer.Enter(p, vars, notify);
          UnwoundRestores(m, p, vars);
          told := if notify then Tell(o, p, vars, ObserversAt(o, p)).0 else [];
          if !raised {
            WeightOf(Do(body), Leave(p, previous), rest);
            AllOpenOver(m[p := vars], Do(body), Leave(p, previous), rest);
            left := [Do(body), Leave(p, previous)] + rest;
          }
      }
      assert observer.heard == old(observer.heard) + told;
      ghost var t := if raised then AfterRaise(o, observer.execpoints, rest) else RunTurn(o, observer.execpoints, left);
      assert [] + t.heard == t.heard && [] + t.seen == t.seen;
    }

    /** One frame: what is then left, unless the turn is over. */
    method Step(left: seq<Frame>) returns (next: seq<Frame>, state: Option<State>, seen: seq<Sight>)
      requires left != [] && AllOpen(observer.execpoints, left)
      modifies observer`execpoints, observer`heard
      ensures old(observer.heard) <= observer.heard
      ensures var o := observer.Registered();
              RunTurn(o, old(observer.execpoints), left)
              == Preceded(observer.heard[|old(observer.heard)|..], seen,
                          if state.Some? then Turn(observer.execpoints, next, state.value, [], [])
                          else RunTurn(o, observer.execpoints, next))
      ensures AllOpen(observer.execpoints, next) && (state == None ==> Weight(next) < Weight(left))
      ensures state.Some? && state.value != Waits ==> next == []
    {
      hide Raised, Restored, Preceded, Size, Unwound;
      ghost var o, m := observer.Registered(), observer.execpoints;
      next, state, seen := left[1..], None, [];
      PrecededTwice([], [], [], [], RunTurn(o, m, left));
      match left[0] {
        case Leave(p, previous) =>
          observer.Unwind(p, previous);
          assert observer.heard[|old(observer.heard)|..] == [];
        case Handler(_) =>
          assert observer.heard[|old(observer.heard)|..] == [];
        case Do(c) =>
          if c == Await {
            state := Some(Waits);
            NothingAfter([], [], m, next, Waits);
            assert observer.heard[|old(observer.heard)|..] == [];
            return;
          }
          assert left == [left[0]] + left[1..];
          var raised: bool;
          next, raised, seen := Advance(c, left[1..]);
          if raised {
            RaisedIsLighter(observer.execpoints, next);
            var handler := RaiseOut(next);
            if handler == None {
              next, state := [], Some(Raises);
            } else {
              next := handler.value;
            }
          }
      }
    }

    /** One turn, entering and leaving points as it goes. */
    method TakeTurn(stack: seq<Frame>) returns (t: Turn)
      requires AllOpen(observer.execpoints, stack)
      modifies observer`execpoints, observer`heard
      ensures t == RunTurn(observer.Registered(), old(observer.execpoints), stack)
      ensures observer.execpoints == t.live && observer.heard == old(observer.heard) + t.heard
      ensures AllOpen(t.live, t.left)
    {
      hide Raised, AfterRaise, Unwound, Tell, ObserversAt;
      ghost var o := observer.Registered();
      ghost var goal := RunTurn(o, observer.execpoints, stack);
      var left, seen: seq<Sight>, heard: seq<Heard> := stack, [], [];
      PrecededTwice([], [], [], [], goal);
      while left != []
        invariant o == observer.Registered() && AllOpen(observer.execpoints, left)
        invariant goal == Preceded(heard, seen, RunTurn(o, observer.execpoints, left))
        invariant observer.heard == old(observer.heard) + heard
        decreases Weight(left)
      {
        hide Preceded, Weight, RunTurn, AllOpen;
        var before := |observer.heard|;
        var next: seq<Frame>, state: Option<State>, sights: seq<Sight>;
        next, state, sights := Step(left);
        var told := observer.heard[before..];
        PrecededTwice(heard, told, seen, sights,
                      if state.Some? then Turn(observer.execpoints, next, state.value, [], [])
                      else RunTurn(o, observer.execpoints, next));
        left, heard, seen := next, heard + told, seen + sights;
        if state.Some? {
          NothingAfter(heard, seen, observer.execpoints, left, state.value);
          return Turn(observer.execpoints, left, state.value, heard, seen);
        }
      }
      NothingAfter(heard, seen, observer.execpoints, [], Ends);
      return Turn(observer.execpoints, [], Ends, heard, seen);
    }
  }

  lemma NothingAfter(heard: seq<Heard>, seen: seq<Sight>, m: Context, left: seq<Frame>, state: State)
    ensures Preceded(heard, seen, Turn(m, left, state, [], [])) == Turn(m, left, state, heard, seen)
  {
    assert heard + [] == heard && seen + [] == seen;
  }
}
