/** Requests that suspend while the engine serves others: `__deferRequest` and
    `__completeRequest` (`proto/rfc3412.py`), in every interleaving of their turns. */
module SuspendedRequests {
  import opened Wrappers
  import opened ExecContext
  import NextId

  /** A request: its execution-point variables, its state reference, its transport info;
      the code that serves it until `processPdu` returns, whether that hands back something
      to wait for, and the code that then waits. */
  datatype Request = Request(id: nat, vars: nat, ref: Option<nat>, info: nat,
                             serve: Code, suspends: bool, rest: Code)

  /** Serving is synchronous, and only the dispatcher enters the request point. */
  predicate Proper(q: Request) {
    NoAwait(q.serve) && Avoids(q.serve) && Avoids(q.rest)
  }

  /** A task owns a copy of the context it was created in, which `created` remembers. */
  datatype Task = Task(live: Context, left: seq<Frame>, started: bool, created: Context)

  datatype Note = Note(q: Request, heard: Heard)

  datatype View = View(q: Request, sight: Sight)

  /** The context a task was created in and the one it left behind. */
  datatype Ending = Ending(q: Request, created: Context, left: Context)

  /** The stores; then history: what was heard, what was seen, how tasks ended. */
  datatype World = World(live: Context, info: map<nat, nat>, tasks: map<Request, Task>, jobs: int,
                         heard: seq<Note>, seen: seq<View>, endings: seq<Ending>)

  /** A message arrives, to a dispatcher that can or cannot run tasks; a task gets a turn; a
      task is cancelled, as closing the dispatcher does to all of them. */
  datatype Event = Receive(q: Request, canDefer: bool) | Run(q: Request) | Cancel(q: Request)

  function Put(info: map<nat, nat>, q: Request): map<nat, nat> {
    if q.ref.Some? then info[q.ref.value := q.info] else info
  }

  function Drop(info: map<nat, nat>, q: Request): map<nat, nat> {
    if q.ref.Some? then info - {q.ref.value} else info
  }

  function Notes(q: Request, heard: seq<Heard>): seq<Note> {
    seq(|heard|, i requires 0 <= i < |heard| => Note(q, heard[i]))
  }

  function Views(q: Request, seen: seq<Sight>): seq<View> {
    seq(|seen|, i requires 0 <= i < |seen| => View(q, seen[i]))
  }

  /** Serving inside the request point, which is told of. */
  function Serving(q: Request): seq<Frame> {
    [Do(With(REQUEST, q.vars, true, q.serve))]
  }

  /** The rest of it inside the point again, restored and not entered. */
  function Resuming(q: Request): seq<Frame> {
    [Do(With(REQUEST, q.vars, false, q.rest))]
  }

  predicate ObserverRaises(o: Observers, q: Request) {
    Tell(o, REQUEST, q.vars, ObserversAt(o, REQUEST)).1
  }

  function Arrive(o: Observers, w: World, q: Request, canDefer: bool): World {
    var t := RunTurn(o, w.live, Serving(q));
    var heard, seen := w.heard + Notes(q, t.heard), w.seen + Views(q, t.seen);
    if t.state == Ends && q.suspends && canDefer then
      World(t.live, Put(w.info, q), w.tasks[q := Task(t.live, Resuming(q), false, t.live)], w.jobs + 1,
            heard, seen, w.endings)
    else
      World(t.live, if ObserverRaises(o, q) then w.info else Drop(Put(w.info, q), q), w.tasks, w.jobs,
            heard, seen, w.endings)
  }

  function Proceed(o: Observers, w: World, q: Request): World
    requires q in w.tasks
  {
    var t := w.tasks[q];
    var r := RunTurn(o, t.live, t.left);
    var info := if t.started then w.info else Put(w.info, q);
    var heard, seen := w.heard + Notes(q, r.heard), w.seen + Views(q, r.seen);
    if r.state == Waits then
      World(w.live, info, w.tasks[q := Task(r.live, r.left, true, t.created)], w.jobs, heard, seen, w.endings)
    else
      World(w.live, Drop(info, q), w.tasks - {q}, w.jobs - 1, heard, seen,
            w.endings + [Ending(q, t.created, r.live)])
  }

  /** Cancellation leaves every point; nothing here catches it. The body of a coroutine
      cancelled before its first step never runs, nor does its `finally`. */
  function Abort(w: World, q: Request): World
    requires q in w.tasks
  {
    var t := w.tasks[q];
    var left := if t.started then Restored(t.live, t.left) else t.live;
    World(w.live, if t.started then Drop(w.info, q) else w.info, w.tasks - {q}, w.jobs - 1, w.heard, w.seen,
          w.endings + [Ending(q, t.created, left)])
  }

  function Step(o: Observers, w: World, e: Event): World {
    match e
    case Receive(q, canDefer) => Arrive(o, w, q, canDefer)
    case Run(q) => if q in w.tasks then Proceed(o, w, q) else w
    case Cancel(q) => if q in w.tasks then Abort(w, q) else w
  }

  function Start(live: Context): World {
    World(live, map[], map[], 0, [], [], [])
  }

  function After(o: Observers, live: Context, events: seq<Event>): World {
    if events == [] then Start(live) else Step(o, After(o, live, events[..|events| - 1]), events[|events| - 1])
  }

  predicate AllProper(events: seq<Event>) {
    forall i :: 0 <= i < |events| && events[i].Receive? ==> Proper(events[i].q)
  }

  // -------------------------------------------------- the dispatcher

  /** The message dispatcher's part in this, on the loop that runs the tasks. */
  class MessageDispatcher {
    const observer: MetaObserver
    const interpreter: Interpreter
    var transportInfo: map<nat, nat>
    var tasks: map<Request, Task>
    var jobs: int
    // History.
    var heard: seq<Note>
    var seen: seq<View>
    var endings: seq<Ending>

    ghost function Now(): World
      reads this, observer
    {
      World(observer.execpoints, transportInfo, tasks, jobs, heard, seen, endings)
    }

    /** Every suspended task can leave the points it has open. */
    ghost predicate Valid()
      reads this
    {
      && interpreter.observer == observer
      && forall q :: q in tasks ==> AllOpen(tasks[q].live, tasks[q].left)
    }

    constructor (observer: MetaObserver)
      ensures Valid() && this.observer == observer && Now() == Start(observer.execpoints)
    {
      this.observer := observer;
      interpreter := new Interpreter(observer);
      transportInfo, tasks, jobs, heard, seen, endings := map[], map[], 0, [], [], [];
    }

    /** `receiveMessage` from `execution_context` on; true is an exception coming out. */
    method ReceiveMessage(q: Request, canDefer: bool) returns (raised: bool)
      requires Valid() && Proper(q)
      modifies this, observer
      ensures Valid() && Now() == Arrive(observer.Registered(), old(Now()), q, canDefer)
    {
      hide RunTurn, Notes, Views, AllOpen, Unwound, Tell;
      ghost var o, m := observer.Registered(), observer.execpoints;
      TurnInside(o, m, REQUEST, q.vars, true, q.serve);
      OpenNow(m[REQUEST := q.vars], q);
      UnwoundRestores(m, REQUEST, q.vars);
      var before := |observer.heard|;
      var previous: Option<nat>;
      previous, raised := observer.Enter(REQUEST, q.vars, true);
      ghost var whole := RunTurn(o, m, Serving(q));
      if raised {
        assert observer.heard[before..] == whole.heard;
        heard := heard + Notes(q, observer.heard[before..]);
        seen := seen + Views(q, []);
        return;
      }
      if q.ref.Some? {
        transportInfo := transportInfo[q.ref.value := q.info];
      }
      var t := interpreter.TakeTurn([Do(q.serve)]);
      raised := t.state == Raises;
      var deferred := !raised && q.suspends;
      if q.ref.Some? && !deferred {
        transportInfo := transportInfo - {q.ref.value};
      }
      observer.Unwind(REQUEST, previous);
      assert observer.heard[before..] == whole.heard;
      assert whole.state == t.state && whole.seen == t.seen && observer.execpoints == whole.live;
      heard := heard + Notes(q, observer.heard[before..]);
      seen := seen + Views(q, t.seen);
      if deferred {
        raised := DeferRequest(q, canDefer);
      }
    }

    /** Entering code leaves no point open. */
    lemma OpenNow(m: Context, q: Request)
      ensures AllOpen(m, [Do(q.serve)]) && forall n: Context :: AllOpen(n, Resuming(q))
    {
      assert [Do(q.serve)][1..] == [] && Resuming(q)[1..] == [];
    }

    /** `__deferRequest`: the task copies the context it is created in; work nobody takes
        is abandoned. */
    method DeferRequest(q: Request, accepted: bool) returns (raised: bool)
      modifies this`transportInfo, this`tasks, this`jobs
      ensures raised == !accepted
      ensures accepted ==>
                tasks == old(tasks)[q := Task(observer.execpoints, Resuming(q), false, observer.execpoints)]
                && jobs == old(jobs) + 1 && transportInfo == old(transportInfo)
      ensures !accepted ==> tasks == old(tasks) && jobs == old(jobs) && transportInfo == Drop(old(transportInfo), q)
    {
      if accepted {
        tasks := tasks[q := Task(observer.execpoints, Resuming(q), false, observer.execpoints)];
        jobs := jobs + 1;
      } else if q.ref.Some? {
        transportInfo := transportInfo - {q.ref.value};
      }
      return !accepted;
    }

    /** One turn of `__completeRequest`, in the task's context. */
    method CompleteRequest(q: Request)
      requires Valid() && q in tasks
      modifies this, observer
      ensures Valid() && Now() == Proceed(observer.Registered(), old(Now()), q)
    {
      hide RunTurn, Notes, Views, AllOpen;
      var t, loop, before := tasks[q], observer.execpoints, |observer.heard|;
      observer.execpoints := t.live;
      if !t.started && q.ref.Some? {
        transportInfo := transportInfo[q.ref.value := q.info];
      }
      var r := interpreter.TakeTurn(t.left);
      observer.execpoints := loop;
      heard := heard + Notes(q, r.heard);
      seen := seen + Views(q, r.seen);
      if r.state == Waits {
        tasks := tasks[q := Task(r.live, r.left, true, t.created)];
        return;
      }
      if q.ref.Some? {
        transportInfo := transportInfo - {q.ref.value};
      }
      tasks, jobs := tasks - {q}, jobs - 1;
      endings := endings + [Ending(q, t.created, r.live)];
    }

    /** A task the closing dispatcher cancels. */
    method CancelRequest(q: Request)
      requires Valid() && q in tasks
      modifies this, observer
      ensures Valid() && Now() == Abort(old(Now()), q)
    {
      hide AllOpen, Restored;
      var t, loop := tasks[q], observer.execpoints;
      var left := t.live;
      if t.started {
        observer.execpoints := t.live;
        interpreter.LeaveAll(t.left);
        left, observer.execpoints := observer.execpoints, loop;
        if q.ref.Some? {
          transportInfo := transportInfo - {q.ref.value};
        }
      }
      tasks, jobs := tasks - {q}, jobs - 1;
      endings := endings + [Ending(q, t.created, left)];
    }
  }

  // --------------------------------------------------------- isolation

  /** A task's context and what is left to do in it belong together. */
  ghost predicate TaskIsolated(live: Context, q: Request, t: Task) {
    && Proper(q) && t.created == live && Restored(t.live, t.left) == live
    && if t.started then Guarded(t.left) && At(t.live, REQUEST) == Some(q.vars)
       else t.live == live && t.left == Resuming(q)
  }

  ghost predicate SeenRight(seen: seq<View>) {
    forall i :: 0 <= i < |seen| && seen[i].sight.point == REQUEST ==> seen[i].sight.vars == seen[i].q.vars
  }

  ghost predicate Isolated(live: Context, w: World) {
    && w.live == live && SeenRight(w.seen)
    && (forall q :: q in w.tasks ==> TaskIsolated(live, q, w.tasks[q]))
    && (forall i :: 0 <= i < |w.endings| ==> w.endings[i].created == live && w.endings[i].left == live)
  }

  lemma SeenMore(seen: seq<View>, q: Request, more: seq<Sight>)
    requires SeenRight(seen)
    requires forall i :: 0 <= i < |more| && more[i].point == REQUEST ==> more[i].vars == q.vars
    ensures SeenRight(seen + Views(q, more))
  {
  }

  lemma ArriveIsolated(o: Observers, live: Context, w: World, q: Request, canDefer: bool)
    requires Isolated(live, w) && Proper(q)
    ensures Isolated(live, Arrive(o, w, q, canDefer))
  {
    NestingRestores(o, With(REQUEST, q.vars, true, q.serve), live);
    EnteringTurn(o, live, q.vars, true, q.serve);
    SeenMore(w.seen, q, RunTurn(o, live, Serving(q)).seen);
    hide RunTurn, Put, Drop, SeenRight, Guarded;
    assert Resuming(q)[1..] == [];
  }

  lemma ProceedIsolated(o: Observers, live: Context, w: World, q: Request)
    requires Isolated(live, w) && q in w.tasks
    ensures Isolated(live, Proceed(o, w, q))
  {
    var t := w.tasks[q];
    assert TaskIsolated(live, q, t);
    TurnRestores(o, t.live, t.left);
    if t.started {
      TurnStaysInside(o, t.live, t.left, q.vars);
    } else {
      EnteringTurn(o, live, q.vars, false, q.rest);
    }
    SeenMore(w.seen, q, RunTurn(o, t.live, t.left).seen);
    hide RunTurn, Put, Drop, SeenRight, Guarded;
  }

  /** In every interleaving of turns the loop's own context is as it began; a suspended
      task waits with its own request at the request point, under whatever points it has
      left open; and a task that ends, however it ends, has put back every one of them. */
  lemma {:induction false} EveryTaskIsolated(o: Observers, live: Context, events: seq<Event>)
    requires AllProper(events)
    ensures Isolated(live, After(o, live, events))
  {
    if events != [] {
      var init, e := events[..|events| - 1], events[|events| - 1];
      EveryTaskIsolated(o, live, init);
      var w := After(o, live, init);
      hide Proper, Arrive, Proceed;
      match e {
        case Receive(q, canDefer) => ArriveIsolated(o, live, w, q, canDefer);
        case Run(q) =>
          if q in w.tasks {
            ProceedIsolated(o, live, w, q);
          }
        case Cancel(q) =>
          if q in w.tasks {
            assert TaskIsolated(live, q, w.tasks[q]);
          }
      }
    }
  }

  /** So access control, at whatever turn it looks, finds the identity of the requester
      whose request it is serving. */
  lemma SeesOwnRequest(o: Observers, live: Context, events: seq<Event>, i: nat)
    requires AllProper(events) && i < |After(o, live, events).seen|
    ensures var v := After(o, live, events).seen[i];
            v.sight.point == REQUEST ==> v.sight.vars == v.q.vars
  {
    EveryTaskIsolated(o, live, events);
  }

  // ----------------------------------------------------- heard once

  /** What observers have heard of a request at the request point. */
  function HeardOf(heard: seq<Note>, q: Request): seq<Heard> {
    if heard == [] then []
    else
      var last := heard[|heard| - 1];
      HeardOf(heard[..|heard| - 1], q)
      + if last.q == q && last.heard.point == REQUEST then [last.heard] else []
  }

  lemma {:induction false} HeardOfMore(heard: seq<Note>, p: Request, more: seq<Heard>, q: Request)
    ensures HeardOf(heard + Notes(p, more), q) == HeardOf(heard, q) + if p == q then OfRequest(more) else []
    decreases |more|
  {
    if more == [] {
      assert heard + Notes(p, more) == heard;
    } else {
      var n := |more| - 1;
      HeardOfMore(heard, p, more[..n], q);
      assert (heard + Notes(p, more))[..|heard| + n] == heard + Notes(p, more[..n]);
    }
  }

  /** Messages are told apart, whatever their state references. */
  ghost predicate Distinct(events: seq<Event>) {
    forall i, j :: 0 <= i < j < |events| && events[i].Receive? && events[j].Receive? ==>
      events[i].q.id != events[j].q.id
  }

  ghost predicate ReceivedIn(events: seq<Event>, q: Request) {
    exists i :: 0 <= i < |events| && events[i].Receive? && events[i].q == q
  }

  lemma StepHears(o: Observers, live: Context, w: World, e: Event, q: Request)
    requires Isolated(live, w) && (e.Receive? ==> Proper(e.q))
    ensures HeardOf(Step(o, w, e).heard, q) == HeardOf(w.heard, q)
            + if e.Receive? && e.q == q then Tell(o, REQUEST, q.vars, ObserversAt(o, REQUEST)).0 else []
  {
    if e.Receive? {
      EnteringTurn(o, live, e.q.vars, true, e.q.serve);
      HeardOfMore(w.heard, e.q, RunTurn(o, live, Serving(e.q)).heard, q);
    } else if e.Run? && e.q in w.tasks {
      var t := w.tasks[e.q];
      assert TaskIsolated(live, e.q, t);
      if t.started {
        TurnStaysInside(o, t.live, t.left, e.q.vars);
        NoneOfRequest(RunTurn(o, t.live, t.left).heard);
      } else {
        EnteringTurn(o, live, e.q.vars, false, e.q.rest);
      }
      HeardOfMore(w.heard, e.q, RunTurn(o, t.live, t.left).heard, q);
    }
    hide RunTurn, Put, Drop, HeardOf, Tell, Isolated, OfRequest;
    assert HeardOf(w.heard, q) + [] == HeardOf(w.heard, q);
  }

  /** Observers of the request point hear of each message once, in the order they were
      registered, up to one that raises, and never again however often it suspends. */
  lemma {:induction false} HeardOncePerMessage(o: Observers, live: Context, events: seq<Event>, q: Request)
    requires AllProper(events) && Distinct(events)
    ensures HeardOf(After(o, live, events).heard, q)
         == if ReceivedIn(events, q) then Tell(o, REQUEST, q.vars, ObserversAt(o, REQUEST)).0 else []
  {
    if events != [] {
      var n := |events| - 1;
      var init, e := events[..n], events[n];
      DistinctPrefix(events);
      ReceivedLast(events, q);
      if e.Receive? {
        LastIsNew(events);
      }
      HeardOncePerMessage(o, live, init, q);
      EveryTaskIsolated(o, live, init);
      hide Step, Proper, Isolated, HeardOf, Tell, ReceivedIn, Distinct, ObserversAt;
      StepHears(o, live, After(o, live, init), e, q);
    }
  }

  lemma ReceivedLast(events: seq<Event>, q: Request)
    requires events != []
    ensures var init, e := events[..|events| - 1], events[|events| - 1];
            ReceivedIn(events, q) <==> ReceivedIn(init, q) || (e.Receive? && e.q == q)
  {
    var init := events[..|events| - 1];
    if ReceivedIn(init, q) {
      ReceivedPrefix(events, q);
    } else {
      assert forall i :: 0 <= i < |init| ==> init[i] == events[i];
    }
  }

  // ------------------------------------------------- served as if alone

  /** What a request has seen, at any point. */
  function SeenBy(seen: seq<View>, q: Request): seq<Sight> {
    if seen == [] then []
    else
      var last := seen[|seen| - 1];
      SeenBy(seen[..|seen| - 1], q) + if last.q == q then [last.sight] else []
  }

  /** What has been heard of it, at any point. */
  function HeardBy(heard: seq<Note>, q: Request): seq<Heard> {
    if heard == [] then []
    else
      var last := heard[|heard| - 1];
      HeardBy(heard[..|heard| - 1], q) + if last.q == q then [last.heard] else []
  }

  lemma {:induction false} SeenByMore(seen: seq<View>, p: Request, more: seq<Sight>, q: Request)
    ensures SeenBy(seen + Views(p, more), q) == SeenBy(seen, q) + if p == q then more else []
    decreases |more|
  {
    if more == [] {
      assert seen + Views(p, more) == seen;
    } else {
      var n := |more| - 1;
      SeenByMore(seen, p, more[..n], q);
      assert (seen + Views(p, more))[..|seen| + n] == seen + Views(p, more[..n]);
    }
  }

  lemma {:induction false} HeardByMore(heard: seq<Note>, p: Request, more: seq<Heard>, q: Request)
    ensures HeardBy(heard + Notes(p, more), q) == HeardBy(heard, q) + if p == q then more else []
    decreases |more|
  {
    if more == [] {
      assert heard + Notes(p, more) == heard;
    } else {
      var n := |more| - 1;
      HeardByMore(heard, p, more[..n], q);
      assert (heard + Notes(p, more))[..|heard| + n] == heard + Notes(p, more[..n]);
    }
  }

  /** What serving a request comes to, read off its code: on the stack, and then in its task. */
  function Alone(o: Observers, live: Context, q: Request): Sense {
    ExecContext.After(Meaning(o, live, With(REQUEST, q.vars, true, q.serve)),
           Meaning(o, live, With(REQUEST, q.vars, false, q.rest)))
  }

  /** What a request has seen and had heard of it so far, and what is to come by itself. */
  ghost predicate OnCourse(o: Observers, live: Context, w: World, q: Request) {
    q in w.tasks ==>
      var rest := AllTurns(o, w.tasks[q].live, w.tasks[q].left);
      && SeenBy(w.seen, q) + rest.seen == Alone(o, live, q).seen
      && HeardBy(w.heard, q) + rest.heard == Alone(o, live, q).heard
  }

  ghost predicate Unmet(w: World, q: Request) {
    q !in w.tasks && SeenBy(w.seen, q) == [] && HeardBy(w.heard, q) == []
  }

  lemma ServingMeans(o: Observers, live: Context, q: Request)
    requires Proper(q)
    ensures var t, x := RunTurn(o, live, Serving(q)), Meaning(o, live, With(REQUEST, q.vars, true, q.serve));
            t.live == live && t.heard == x.heard && t.seen == x.seen
    ensures var r, x := AllTurns(o, live, Resuming(q)), Meaning(o, live, With(REQUEST, q.vars, false, q.rest));
            r.heard == x.heard && r.seen == x.seen
  {
    hide RunTurn, Meaning;
    NestingRestores(o, With(REQUEST, q.vars, true, q.serve), live);
    PointsAreScopes(o, live, With(REQUEST, q.vars, true, q.serve));
    PointsAreScopes(o, live, With(REQUEST, q.vars, false, q.rest));
  }

  lemma ArriveOnCourse(o: Observers, live: Context, w: World, p: Request, canDefer: bool, q: Request)
    requires w.live == live && Proper(p) && if p == q then Unmet(w, q) else OnCourse(o, live, w, q)
    ensures OnCourse(o, live, Arrive(o, w, p, canDefer), q)
    ensures p != q && Unmet(w, q) ==> Unmet(Arrive(o, w, p, canDefer), q)
  {
    ServingMeans(o, live, p);
    hide RunTurn, Serving, Resuming, AllTurns, Meaning, Put, Drop, Tell, SeenBy, HeardBy, Notes, Views, Proper;
    var t := RunTurn(o, live, Serving(p));
    SeenByMore(w.seen, p, t.seen, q);
    HeardByMore(w.heard, p, t.heard, q);
    assert [] + t.seen == t.seen && [] + t.heard == t.heard;
    assert SeenBy(w.seen, q) + [] == SeenBy(w.seen, q) && HeardBy(w.heard, q) + [] == HeardBy(w.heard, q);
  }

  /** A turn of another request's. */
  lemma OthersTurn(o: Observers, live: Context, w: World, p: Request, q: Request)
    requires p in w.tasks && p != q && OnCourse(o, live, w, q)
    ensures OnCourse(o, live, Proceed(o, w, p), q) && (Unmet(w, q) ==> Unmet(Proceed(o, w, p), q))
  {
    hide RunTurn, AllTurns, Alone, Put, Drop, SeenBy, HeardBy, Notes, Views;
    var r := RunTurn(o, w.tasks[p].live, w.tasks[p].left);
    SeenByMore(w.seen, p, r.seen, q);
    HeardByMore(w.heard, p, r.heard, q);
    assert SeenBy(w.seen, q) + [] == SeenBy(w.seen, q) && HeardBy(w.heard, q) + [] == HeardBy(w.heard, q);
  }

  lemma OneTurn(o: Observers, m: Context, stack: seq<Frame>, seen: seq<Sight>, heard: seq<Heard>)
    ensures var r, all := RunTurn(o, m, stack), AllTurns(o, m, stack);
            if r.state == Waits then
              seen + all.seen == seen + r.seen + AllTurns(o, r.live, r.left).seen
              && heard + all.heard == heard + r.heard + AllTurns(o, r.live, r.left).heard
            else all == r
  {
    hide RunTurn;
  }

  /** A turn of its own. */
  lemma OwnTurn(o: Observers, live: Context, w: World, q: Request)
    requires q in w.tasks && OnCourse(o, live, w, q)
    ensures OnCourse(o, live, Proceed(o, w, q), q)
    ensures q !in Proceed(o, w, q).tasks ==>
              SeenBy(Proceed(o, w, q).seen, q) == Alone(o, live, q).seen
              && HeardBy(Proceed(o, w, q).heard, q) == Alone(o, live, q).heard
  {
    hide RunTurn, AllTurns, Alone, Put, Drop, SeenBy, HeardBy, Notes, Views;
    var t := w.tasks[q];
    var r := RunTurn(o, t.live, t.left);
    SeenByMore(w.seen, q, r.seen, q);
    HeardByMore(w.heard, q, r.heard, q);
    OneTurn(o, t.live, t.left, SeenBy(w.seen, q), HeardBy(w.heard, q));
  }

  lemma {:induction false} RunOnCourse(o: Observers, live: Context, events: seq<Event>, q: Request)
    requires AllProper(events) && Distinct(events)
    ensures OnCourse(o, live, After(o, live, events), q)
    ensures !ReceivedIn(events, q) ==> Unmet(After(o, live, events), q)
  {
    if events != [] {
      var init, e := events[..|events| - 1], events[|events| - 1];
      RunOnCourse(o, live, init, q);
      EveryTaskIsolated(o, live, init);
      var w := After(o, live, init);
      if ReceivedIn(init, q) {
        ReceivedPrefix(events, q);
      }
      hide Proper, Arrive, Proceed, OnCourse, Unmet;
      match e {
        case Receive(p, canDefer) =>
          LastIsNew(events);
          assert p == q ==> ReceivedIn(events, q);
          ArriveOnCourse(o, live, w, p, canDefer, q);
        case Run(p) =>
          if p in w.tasks && p == q {
            OwnTurn(o, live, w, q);
            TaskIsMet(w, q);
          } else if p in w.tasks {
            OthersTurn(o, live, w, p, q);
          }
        case Cancel(p) => AbortOnCourse(o, live, w, p, q);
      }
    }
  }

  lemma TaskIsMet(w: World, q: Request)
    requires q in w.tasks
    ensures !Unmet(w, q)
  {
  }

  lemma AbortOnCourse(o: Observers, live: Context, w: World, p: Request, q: Request)
    requires OnCourse(o, live, w, q)
    ensures OnCourse(o, live, Step(o, w, Cancel(p)), q) && (Unmet(w, q) ==> Unmet(Step(o, w, Cancel(p)), q))
  {
    hide AllTurns, Alone, SeenBy, HeardBy, Restored;
  }

  /** A request whose task comes to its end has seen what its code says, and had heard of it
      what its code says, as if it had been served by itself and in one go, whatever came
      between its turns. */
  lemma FinishedAsAlone(o: Observers, live: Context, events: seq<Event>, q: Request)
    requires AllProper(events) && Distinct(events) && events != [] && events[|events| - 1] == Run(q)
    requires q in After(o, live, events[..|events| - 1]).tasks && q !in After(o, live, events).tasks
    ensures SeenBy(After(o, live, events).seen, q) == Alone(o, live, q).seen
    ensures HeardBy(After(o, live, events).heard, q) == Alone(o, live, q).heard
  {
    var init := events[..|events| - 1];
    RunOnCourse(o, live, init, q);
    hide Proceed, OnCourse, Alone;
    OwnTurn(o, live, After(o, live, init), q);
  }

  // ------------------------------------------------- transport info

  ghost function LostBy(w: World, e: Event): set<Request> {
    if e.Cancel? && e.q in w.tasks && !w.tasks[e.q].started then {e.q} else {}
  }

  /** The requests cancelled between being handed off and their task's first step. */
  ghost function CancelledEarly(o: Observers, live: Context, events: seq<Event>): set<Request> {
    if events == [] then {}
    else
      var init := events[..|events| - 1];
      CancelledEarly(o, live, init) + LostBy(After(o, live, init), events[|events| - 1])
  }

  /** The state references of some requests: the keys of their transport info. */
  ghost function Refs(held: set<Request>): set<nat> {
    set q | q in held && q.ref.Some? :: q.ref.value
  }

  ghost predicate Apart(p: Request, q: Request) {
    p != q && p.ref.Some? ==> p.ref != q.ref
  }

  /** The requests that may hold transport info: open tasks, and those cancelled early. */
  ghost function Holders(o: Observers, live: Context, events: seq<Event>): set<Request> {
    After(o, live, events).tasks.Keys + CancelledEarly(o, live, events)
  }

  lemma PutRefs(info: map<nat, nat>, held: set<Request>, q: Request)
    requires info.Keys == Refs(held)
    ensures Put(info, q).Keys == Refs(held + {q})
  {
    if q.ref.Some? {
      assert Put(info, q).Keys == info.Keys + {q.ref.value};
    }
    forall r | r in Put(info, q).Keys
      ensures r in Refs(held + {q})
    {
      if r in info {
        var p :| p in held && p.ref == Some(r);
        assert p in held + {q};
      } else {
        assert q in held + {q} && q.ref == Some(r);
      }
    }
  }

  lemma DropRefs(info: map<nat, nat>, held: set<Request>, q: Request)
    requires info.Keys == Refs(held)
    requires ApartFrom(held, q)
    ensures Drop(info, q).Keys == Refs(held - {q})
  {
    forall r | r in Drop(info, q).Keys
      ensures r in Refs(held - {q})
    {
      var p :| p in held && p.ref == Some(r);
      assert p in held - {q};
    }
    forall r | r in Refs(held - {q})
      ensures r in Drop(info, q).Keys
    {
      var p :| p in held - {q} && p.ref == Some(r);
      assert Apart(p, q) && r in Refs(held);
    }
  }

  /** A request still to come is not one of those received. */
  lemma LastIsNew(events: seq<Event>)
    requires events != [] && Distinct(events) && events[|events| - 1].Receive?
    ensures !ReceivedIn(events[..|events| - 1], events[|events| - 1].q)
  {
    var n := |events| - 1;
    forall i | 0 <= i < n && events[i].Receive?
      ensures events[i].q != events[n].q
    {
      assert events[i].q.id != events[n].q.id;
    }
  }

  lemma ReceivedPrefix(events: seq<Event>, q: Request)
    requires events != [] && ReceivedIn(events[..|events| - 1], q)
    ensures ReceivedIn(events, q)
  {
    var init := events[..|events| - 1];
    var i :| 0 <= i < |init| && init[i].Receive? && init[i].q == q;
    assert events[i] == init[i];
  }

  lemma {:induction false} HoldersReceived(o: Observers, live: Context, events: seq<Event>, q: Request)
    requires q in Holders(o, live, events)
    ensures ReceivedIn(events, q)
  {
    var init, e := events[..|events| - 1], events[|events| - 1];
    if q in Holders(o, live, init) {
      HoldersReceived(o, live, init, q);
      ReceivedPrefix(events, q);
    } else {
      assert e.Receive? && e.q == q && e == events[|events| - 1];
    }
  }

  predicate Draws(e: Event) {
    e.Receive? && e.q.ref.Some?
  }

  /** No request comes in under a state reference that transport info is held for. */
  ghost predicate FreshRefs(o: Observers, live: Context, events: seq<Event>) {
    forall k :: 0 <= k < |events| && Draws(events[k]) ==>
      events[k].q.ref.value !in Refs(Holders(o, live, events[..k]))
  }

  /** State references are values of the one generator, drawn as the messages come in:
      event `k` has its own from call `at[k]`. */
  ghost predicate Drawn(c: NextId.Config, events: seq<Event>, at: seq<nat>)
    requires c.Valid() && |at| == |events|
  {
    && (forall k :: 0 <= k < |events| && Draws(events[k]) ==> events[k].q.ref.value == NextId.Issued(c, at[k]))
    && (forall i, k :: 0 <= i < k < |events| && Draws(events[i]) && Draws(events[k]) ==> at[i] < at[k])
  }

  /** While transport info is held for a request, the generator is called no more often
      than it takes to repeat itself. */
  ghost predicate Room(o: Observers, live: Context, c: NextId.Config, events: seq<Event>, at: seq<nat>)
    requires |at| == |events|
  {
    forall i, k :: 0 <= i < k < |events| && Draws(events[i]) && Draws(events[k])
                   && events[i].q in Holders(o, live, events[..k]) ==>
      at[k] <= at[i] + c.maximum
  }

  /** Then no two of them meet. */
  lemma RoomKeepsFresh(o: Observers, live: Context, c: NextId.Config, events: seq<Event>, at: seq<nat>)
    requires c.Valid() && |at| == |events| && Drawn(c, events, at) && Room(o, live, c, events, at)
    ensures FreshRefs(o, live, events)
  {
    hide Holders, NextId.Issued;
    forall k | 0 <= k < |events| && Draws(events[k])
      ensures events[k].q.ref.value !in Refs(Holders(o, live, events[..k]))
    {
      forall p | p in Holders(o, live, events[..k]) && p.ref.Some?
        ensures p.ref.value != events[k].q.ref.value
      {
        HoldersReceived(o, live, events[..k], p);
        var i :| 0 <= i < k && events[..k][i].Receive? && events[..k][i].q == p;
        assert events[i].q == p && Draws(events[i]);
        NextId.ConsecutiveValuesDistinct(c, at[i], at[k]);
      }
    }
  }

  ghost predicate AllApart(held: set<Request>) {
    forall p :: p in held ==> ApartFrom(held, p)
  }

  lemma FreshPrefix(o: Observers, live: Context, events: seq<Event>)
    requires events != [] && FreshRefs(o, live, events)
    ensures FreshRefs(o, live, events[..|events| - 1])
  {
    hide Holders, Refs;
    var init := events[..|events| - 1];
    forall k | 0 <= k < |init| && Draws(init[k])
      ensures init[k].q.ref.value !in Refs(Holders(o, live, init[..k]))
    {
      assert init[..k] == events[..k] && init[k] == events[k];
    }
  }

  lemma NewcomerApart(o: Observers, live: Context, events: seq<Event>)
    requires events != [] && FreshRefs(o, live, events) && events[|events| - 1].Receive?
    ensures ApartFrom(Holders(o, live, events[..|events| - 1]), events[|events| - 1].q)
  {
    hide Holders;
    var n := |events| - 1;
    var q := events[n].q;
    forall p | p in Holders(o, live, events[..n]) && p.ref.Some?
      ensures Apart(p, q)
    {
      assert p.ref.value in Refs(Holders(o, live, events[..n]));
    }
  }

  lemma HoldersGrow(o: Observers, live: Context, events: seq<Event>, p: Request)
    requires events != [] && p in Holders(o, live, events)
    ensures var init, e := events[..|events| - 1], events[|events| - 1];
            p in Holders(o, live, init) || (e.Receive? && e.q == p)
  {
  }

  /** Then no two requests that hold transport info have a state reference in common. */
  lemma {:induction false} HoldersApart(o: Observers, live: Context, events: seq<Event>)
    requires FreshRefs(o, live, events)
    ensures AllApart(Holders(o, live, events))
  {
    if events != [] {
      var init, e := events[..|events| - 1], events[|events| - 1];
      FreshPrefix(o, live, events);
      HoldersApart(o, live, init);
      if e.Receive? {
        NewcomerApart(o, live, events);
      }
      hide Holders, FreshRefs;
      forall p, q | p in Holders(o, live, events) && q in Holders(o, live, events)
        ensures Apart(p, q)
      {
        HoldersGrow(o, live, events, p);
        HoldersGrow(o, live, events, q);
      }
    }
  }

  /** So whatever the last event is about is told apart from what else is held. */
  lemma LastApart(o: Observers, live: Context, events: seq<Event>)
    requires Distinct(events) && FreshRefs(o, live, events) && events != []
    ensures var init, e := events[..|events| - 1], events[|events| - 1];
            && (e.Receive? || e.q in After(o, live, init).tasks ==> ApartFrom(Holders(o, live, init), e.q))
            && (e.Receive? ==> e.q !in Holders(o, live, init))
  {
    var init, e := events[..|events| - 1], events[|events| - 1];
    if e.Receive? {
      LastIsNew(events);
      NewcomerApart(o, live, events);
      if e.q in Holders(o, live, init) {
        HoldersReceived(o, live, init, e.q);
      }
    } else if e.q in After(o, live, init).tasks {
      FreshPrefix(o, live, events);
      HoldersApart(o, live, init);
      assert e.q in Holders(o, live, init);
    }
  }

  /** Each of some requests has its own transport info under its reference. */
  ghost predicate Carried(info: map<nat, nat>, held: set<Request>) {
    forall q :: q in held && q.ref.Some? ==> q.ref.value in info && info[q.ref.value] == q.info
  }

  lemma CarriedAfter(info: map<nat, nat>, held: set<Request>, q: Request)
    requires Carried(info, held) && ApartFrom(held, q)
    ensures Carried(Put(info, q), held + {q})
    ensures Carried(Drop(info, q), held - {q})
    ensures Carried(Drop(Put(info, q), q), held - {q})
  {
    forall p | p in held && p != q && p.ref.Some?
      ensures p.ref != q.ref
    {
      assert Apart(p, q);
    }
  }

  /** The transport info held is that of the open tasks and of those cancelled early, each
      its own, and the dispatcher's jobs count the open tasks. */
  ghost predicate Accounted(w: World, early: set<Request>) {
    Balanced(w.info, w.tasks.Keys, w.jobs, early)
  }

  ghost predicate Balanced(info: map<nat, nat>, open: set<Request>, jobs: int, early: set<Request>) {
    info.Keys == Refs(open + early) && Carried(info, open + early) && open !! early && jobs == |open|
  }

  ghost predicate ApartFrom(held: set<Request>, q: Request) {
    forall p :: p in held ==> Apart(p, q)
  }

  /** A request comes in that keeps its transport info, or that never had or loses it. */
  lemma InfoAfter(info: map<nat, nat>, held: set<Request>, q: Request)
    requires info.Keys == Refs(held) && Carried(info, held) && ApartFrom(held, q)
    ensures Put(info, q).Keys == Refs(held + {q}) && Carried(Put(info, q), held + {q})
    ensures Drop(info, q).Keys == Refs(held - {q}) && Carried(Drop(info, q), held - {q})
    ensures Drop(Put(info, q), q).Keys == Refs(held - {q}) && Carried(Drop(Put(info, q), q), held - {q})
  {
    CarriedAfter(info, held, q);
    hide Carried;
    PutRefs(info, held, q);
    DropRefs(info, held, q);
    assert ApartFrom(held + {q}, q);
    DropRefs(Put(info, q), held + {q}, q);
    assert held + {q} - {q} == held - {q};
  }

  lemma OpenedBalances(info: map<nat, nat>, open: set<Request>, jobs: int, early: set<Request>, q: Request)
    requires Balanced(info, open, jobs, early) && q !in open + early && ApartFrom(open + early, q)
    ensures Balanced(Put(info, q), open + {q}, jobs + 1, early)
    ensures Balanced(Drop(Put(info, q), q), open, jobs, early)
  {
    InfoAfter(info, open + early, q);
    assert open + {q} + early == open + early + {q};
    assert open + early - {q} == open + early;
  }

  lemma ClosedBalances(info: map<nat, nat>, open: set<Request>, jobs: int, early: set<Request>, q: Request)
    requires Balanced(info, open, jobs, early) && q in open && ApartFrom(open + early, q)
    ensures Balanced(Put(info, q), open, jobs, early)
    ensures Balanced(Drop(info, q), open - {q}, jobs - 1, early)
    ensures Balanced(Drop(Put(info, q), q), open - {q}, jobs - 1, early)
    ensures Balanced(info, open - {q}, jobs - 1, early + {q})
  {
    InfoAfter(info, open + early, q);
    assert open + early + {q} == open + early;
    assert open - {q} + early == open + early - {q};
    assert open - {q} + (early + {q}) == open + early;
  }

  lemma TaskKeys(m: map<Request, Task>, q: Request, t: Task)
    ensures m[q := t].Keys == m.Keys + {q}
    ensures (m - {q}).Keys == m.Keys - {q}
  {
  }

  lemma ReceiveAccounted(o: Observers, w: World, q: Request, canDefer: bool, early: set<Request>)
    requires Accounted(w, early) && q !in w.tasks.Keys + early
    requires ApartFrom(w.tasks.Keys + early, q)
    ensures Accounted(Arrive(o, w, q, canDefer), early)
  {
    OpenedBalances(w.info, w.tasks.Keys, w.jobs, early, q);
    hide Put, Drop, Balanced, ApartFrom, RunTurn, Serving, Resuming, Tell, Notes, Views;
    var t := RunTurn(o, w.live, Serving(q));
    TaskKeys(w.tasks, q, Task(t.live, Resuming(q), false, t.live));
  }

  lemma RunAccounted(o: Observers, w: World, q: Request, early: set<Request>)
    requires Accounted(w, early) && q in w.tasks
    requires ApartFrom(w.tasks.Keys + early, q)
    ensures Accounted(Proceed(o, w, q), early)
  {
    ClosedBalances(w.info, w.tasks.Keys, w.jobs, early, q);
    hide Put, Drop, Balanced, ApartFrom, RunTurn, Notes, Views;
    var t := w.tasks[q];
    var r := RunTurn(o, t.live, t.left);
    if r.state == Waits {
      TaskKeys(w.tasks, q, Task(r.live, r.left, true, t.created));
      assert w.tasks.Keys + {q} == w.tasks.Keys;
    } else {
      TaskKeys(w.tasks, q, t);
    }
  }

  lemma CancelAccounted(w: World, q: Request, early: set<Request>)
    requires Accounted(w, early) && q in w.tasks
    requires ApartFrom(w.tasks.Keys + early, q)
    ensures Accounted(Abort(w, q), if w.tasks[q].started then early else early + {q})
  {
    ClosedBalances(w.info, w.tasks.Keys, w.jobs, early, q);
    hide Drop, Balanced, ApartFrom, Restored;
    TaskKeys(w.tasks, q, w.tasks[q]);
  }

  lemma StepAccounted(o: Observers, w: World, e: Event, early: set<Request>)
    requires Accounted(w, early)
    requires e.Receive? ==> e.q !in w.tasks.Keys + early
    requires e.Receive? || e.q in w.tasks ==> ApartFrom(w.tasks.Keys + early, e.q)
    ensures Accounted(Step(o, w, e), early + LostBy(w, e))
  {
    hide Accounted, ApartFrom, Arrive, Proceed, Abort;
    assert early + {} == early;
    if e.Receive? {
      ReceiveAccounted(o, w, e.q, e.canDefer, early);
    } else if e.q in w.tasks {
      if e.Run? {
        RunAccounted(o, w, e.q, early);
      } else {
        CancelAccounted(w, e.q, early);
      }
    }
  }

  lemma {:induction false} InfoIsHeld(o: Observers, live: Context, events: seq<Event>)
    requires Distinct(events) && FreshRefs(o, live, events)
    ensures Accounted(After(o, live, events), CancelledEarly(o, live, events))
  {
    hide Accounted, ApartFrom, Distinct, FreshRefs, Step, LostBy;
    if events == [] {
      NothingHeld(live);
    } else {
      var init, e := events[..|events| - 1], events[|events| - 1];
      DistinctPrefix(events);
      FreshPrefix(o, live, events);
      InfoIsHeld(o, live, init);
      LastApart(o, live, events);
      StepAccounted(o, After(o, live, init), e, CancelledEarly(o, live, init));
    }
  }

  lemma NothingHeld(live: Context)
    ensures Accounted(Start(live), {})
  {
  }

  lemma DistinctPrefix(events: seq<Event>)
    requires events != [] && Distinct(events)
    ensures Distinct(events[..|events| - 1])
  {
  }

  /** A request that has ended leaves no transport info behind, unless its task was
      cancelled before its first step; then the entry is there for good. Another that came
      later may hold one under the same state reference, but never both of them. */
  lemma EntryGoneUnlessCancelledEarly(o: Observers, live: Context, events: seq<Event>, q: Request)
    requires Distinct(events) && FreshRefs(o, live, events) && q.ref.Some?
    requires q !in After(o, live, events).tasks
    ensures var others := Refs(Holders(o, live, events) - {q});
            && (q.ref.value in After(o, live, events).info <==>
                q in CancelledEarly(o, live, events) || q.ref.value in others)
            && !(q in CancelledEarly(o, live, events) && q.ref.value in others)
  {
    InfoIsHeld(o, live, events);
    HoldersApart(o, live, events);
    hide After, CancelledEarly, FreshRefs, Distinct;
    var r, held := q.ref.value, Holders(o, live, events);
    assert r in After(o, live, events).info <==> r in Refs(held);
    if r in Refs(held) && q !in held {
      assert held - {q} == held;
    }
    if r in Refs(held - {q}) {
      var p :| p in held - {q} && p.ref == Some(r);
      assert p in held && p.ref.Some?;
    }
  }

  /** Such a run: closing the dispatcher in the same turn of the loop that deferred. */
  lemma CancellingEarlyLeaks(o: Observers, live: Context, q: Request)
    requires q.ref.Some? && q.serve == Skip && q.suspends && !ObserverRaises(o, q)
    ensures var events := [Receive(q, true), Cancel(q)];
            && Distinct(events) && FreshRefs(o, live, events)
            && After(o, live, events).tasks == map[] && q.ref.value in After(o, live, events).info
  {
    var events, one := [Receive(q, true), Cancel(q)], [Receive(q, true)];
    assert events[..1] == one && one[..0] == [];
    var w := Step(o, Start(live), one[0]);
    assert After(o, live, one) == Step(o, After(o, live, []), one[0]);
    assert After(o, live, events) == Step(o, w, Cancel(q));
    TurnInside(o, live, REQUEST, q.vars, true, Skip);
    assert [Do(Skip)][1..] == [];
    assert q in w.tasks && w.tasks - {q} == map[];
  }
}
