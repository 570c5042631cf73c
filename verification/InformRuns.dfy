/** INFORMs over the lifecycle of the requests they are sent as: `NotificationOriginator`
    sends, retries and fails a request as the command generator does, and its fan-in is
    what is called back. */
module InformRuns {
  import opened Wrappers
  import opened Lifecycle
  import opened LifecycleSafety
  import opened LifecycleRuns
  import opened LifecycleRetries
  import opened LifecycleTimely
  import NextId
  import F = InformFanIn

  /** What comes of one target: rejected, an exception on the way to the send, or a send. */
  datatype Aim = Rejects | Breaks | To(query: Query, sent: Sent)

  /** An INFORM is sent out, or anything else happens: what `sendPdu` itself is used for, an
      answer, a sweep. The originator does not check responses, so none is mismatched. */
  datatype Event = Notify(n: nat, aims: seq<Aim>) | Work(step: Step)

  /** The steps taken; the fan-in; the notification each of its requests was sent for. */
  datatype Book = Book(trace: seq<Step>, fan: F.World, owner: map<nat, nat>)

  /** The loop over targets sends one after another and stops where one fails. */
  function Sends(aims: seq<Aim>): seq<Step> {
    if aims == [] then []
    else
      match aims[0]
      case Rejects => Sends(aims[1..])
      case Breaks => []
      case To(q, sent) => [Submit(q, sent)] + if sent == Delivered then Sends(aims[1..]) else []
  }

  /** What the fan-in sees of them, `next` being the next request. */
  function Targets(aims: seq<Aim>, next: nat): seq<F.Target> {
    if aims == [] then []
    else
      match aims[0]
      case Rejects => [F.Filtered] + Targets(aims[1..], next)
      case Breaks => [F.Crashes]
      case To(_, Delivered) => [F.Sends(next)] + Targets(aims[1..], next + 1)
      case To(_, Fails(_, exc)) => [if exc == Status then F.Fails(0) else F.Crashes]
  }

  function Reached(aims: seq<Aim>, next: nat): set<nat> {
    F.SentFrom(Targets(aims, next), 0)
  }

  function Heard(outcome: Outcome): Option<nat> {
    match outcome
    case Response => None
    case SendError => Some(0)
    case BadResponse => Some(1)
    case Error(Discovery) => Some(2)
    case Error(TimedOut) => Some(3)
    case Error(Unreachable) => Some(4)
    case Error(Ordinary) => Some(5)
    case Error(Blank) => Some(6)
  }

  /** The last callback is for a request that was sent for a notification, so it is
      `processResponseVarBinds`; any other is somebody else's. */
  predicate Answers(b: Book, told: seq<Told>) {
    told != [] && told[|told| - 1].request in b.owner
  }

  function AnswerIn(b: Book, told: seq<Told>): F.Event
    requires Answers(b, told)
  {
    var t := told[|told| - 1];
    F.Answer(b.owner[t.request], t.request, Heard(t.outcome))
  }

  function Do(s: Setup, b: Book, e: Event): Book
    requires s.handles.Valid()
  {
    var w := After(s, b.trace);
    match e
    case Notify(n, aims) =>
      var reached := Reached(aims, |w.asked|);
      Book(b.trace + Sends(aims), F.Step(b.fan, F.Notify(n, Targets(aims, |w.asked|))),
           b.owner + (map r | r in reached :: n))
    case Work(step) =>
      var v := Take(s, w, step);
      Book(b.trace + [step],
           if v.told != w.told && Answers(b, v.told) then F.Step(b.fan, AnswerIn(b, v.told)) else b.fan,
           b.owner)
  }

  const EMPTY := Book([], F.EMPTY, map[])

  function Books(s: Setup, events: seq<Event>): Book
    requires s.handles.Valid()
  {
    if events == [] then EMPTY else Do(s, Books(s, events[..|events| - 1]), events[|events| - 1])
  }

  /** The steps are those of a legal run, and notification handles are new. That each send
      settles once is not asked for. */
  ghost predicate Allowed(s: Setup, events: seq<Event>)
    requires s.handles.Valid()
  {
    && Run(s, Books(s, events).trace)
    && (events != [] ==>
          var init, e := events[..|events| - 1], events[|events| - 1];
          Allowed(s, init) && (e.Notify? ==> e.n !in Books(s, init).fan.sent))
  }

  // --------------------------------------------------------- one send

  lemma {:induction false} SentShift(t: F.Target, ts: seq<F.Target>, i: nat)
    requires i <= |ts|
    ensures F.SentFrom([t] + ts, i + 1) == F.SentFrom(ts, i)
    decreases |ts| - i
  {
    if i < |ts| {
      SentShift(t, ts, i + 1);
    }
  }

  /** The requests of a fan-out are new, and each of those reached is accepted. */
  lemma {:induction false} SendingOut(s: Setup, trace: seq<Step>, aims: seq<Aim>)
    requires s.handles.Valid()
    ensures var w, v := After(s, trace), After(s, trace + Sends(aims));
            && v.told == w.told && |w.asked| <= |v.asked|
            && (forall r :: r in w.accepted ==> r in v.accepted)
            && (forall r :: r in Reached(aims, |w.asked|) ==> |w.asked| <= r < |v.asked| && r in v.accepted)
    decreases |aims|
  {
    hide After, Take, F.SentFrom;
    var w := After(s, trace);
    ReachedIs(aims, |w.asked|);
    if aims == [] {
      assert trace + [] == trace;
    } else {
      var rest := aims[1..];
      match aims[0] {
        case Rejects => SendingOut(s, trace, rest);
        case Breaks => assert trace + [] == trace;
        case To(q, sent) =>
          var one := trace + [Submit(q, sent)];
          AfterOne(s, trace, Submit(q, sent));
          SubmitAsks(s, w, q, sent);
          if sent == Delivered {
            SendingOut(s, one, rest);
            assert trace + Sends(aims) == one + Sends(rest);
          } else {
            assert trace + Sends(aims) == one;
          }
      }
    }
  }

  lemma AfterOne(s: Setup, trace: seq<Step>, step: Step)
    requires s.handles.Valid()
    ensures After(s, trace + [step]) == Take(s, After(s, trace), step)
  {
    assert (trace + [step])[..|trace|] == trace;
  }

  /** The targets reached, one by one. */
  lemma ReachedIs(aims: seq<Aim>, next: nat)
    ensures Reached(aims, next) ==
            if aims == [] then {}
            else
              match aims[0]
              case Rejects => Reached(aims[1..], next)
              case To(_, Delivered) => {next} + Reached(aims[1..], next + 1)
              case _ => {}
  {
    if aims != [] {
      SentShift(F.Filtered, Targets(aims[1..], next), 0);
      SentShift(F.Sends(next), Targets(aims[1..], next + 1), 0);
    }
  }

  lemma SubmitAsks(s: Setup, w: World, q: Query, sent: Sent)
    requires s.handles.Valid()
    ensures var v := Take(s, w, Submit(q, sent));
            && v.told == w.told && |v.asked| == |w.asked| + 1
            && v.accepted == if sent == Delivered then w.accepted + [|w.asked|] else w.accepted
  {
    hide NextHandle, Cached;
  }

  lemma StepAsks(s: Setup, w: World, step: Step)
    requires s.handles.Valid() && Legal(s, w, step) && !step.Submit?
    ensures Take(s, w, step).asked == w.asked && Take(s, w, step).accepted == w.accepted
  {
    hide NextHandle, Process, Due, Room;
    match step {
      case Respond(h, answer, sent) =>
        if h in w.cache {
          ProcessRest(s, Taken(w, h), h, w.cache[h].request, answer, sent);
        }
      case Report(h, f, sent) =>
        if h in w.cache {
          ProcessRest(s, Taken(w, h), h, w.cache[h].request, Failed(f), sent);
        }
      case Next(sent) =>
        var item := w.sweep.value.todo[0];
        ProcessRest(s, Taken(w, item.handle), item.handle, item.entry.request,
                    Failed(FailureFor(w.sweep.value.cause)), sent);
      case _ =>
    }
  }

  // ------------------------------------------------- the two together

  /** Every request of a notification was accepted for it alone, and has settled there
      exactly if its sender has been told. */
  ghost predicate Linked(w: World, b: Book) {
    && b.fan.sent.Keys == b.fan.settled.Keys
    && (forall r :: r in b.owner ==> r < |w.asked| && r in w.accepted)
    && (forall r :: r in b.owner ==> b.owner[r] in b.fan.sent && r in b.fan.sent[b.owner[r]])
    && (forall n, r :: n in b.fan.sent && r in b.fan.sent[n] ==> r in b.owner && b.owner[r] == n)
    && (forall n :: n in b.fan.sent ==> b.fan.settled[n] <= b.fan.sent[n])
    && (forall r :: r in b.owner ==> (r in b.fan.settled[b.owner[r]] <==> Calls(w.told, r) == 1))
  }

  lemma NotifyLinks(s: Setup, b: Book, n: nat, aims: seq<Aim>)
    requires s.handles.Valid() && Run(s, b.trace) && Linked(After(s, b.trace), b) && n !in b.fan.sent
    ensures Linked(After(s, b.trace + Sends(aims)), Do(s, b, Notify(n, aims)))
  {
    var w := After(s, b.trace);
    SendingOut(s, b.trace, aims);
    forall r: nat | |w.asked| <= r
      ensures Calls(w.told, r) == 0
    {
      RunSettles(s, b.trace, r);
    }
    MoreLinked(w, After(s, b.trace + Sends(aims)), b, n, Reached(aims, |w.asked|), Do(s, b, Notify(n, aims)));
  }

  lemma MoreLinked(w: World, v: World, b: Book, n: nat, reached: set<nat>, c: Book)
    requires Linked(w, b) && n !in b.fan.sent && v.told == w.told && |w.asked| <= |v.asked|
    requires forall r :: r in w.accepted ==> r in v.accepted
    requires forall r :: r in reached ==> |w.asked| <= r < |v.asked| && r in v.accepted && Calls(w.told, r) == 0
    requires c.fan.sent == b.fan.sent[n := reached] && c.fan.settled == b.fan.settled[n := {}]
    requires c.owner == b.owner + (map r | r in reached :: n)
    ensures Linked(v, c)
  {
    hide Calls;
    forall r | r in c.owner
      ensures r < |v.asked| && r in v.accepted && c.owner[r] in c.fan.sent && r in c.fan.sent[c.owner[r]]
      ensures r in c.fan.settled[c.owner[r]] <==> Calls(v.told, r) == 1
    {
      if r !in reached {
        assert r in b.owner && b.owner[r] in b.fan.sent;
      }
    }
    forall m, r | m in c.fan.sent && r in c.fan.sent[m]
      ensures r in c.owner && c.owner[r] == m
    {
      if m != n {
        assert m in b.fan.sent && r in b.fan.sent[m];
        assert r in b.owner && b.owner[r] == m;
        assert r < |w.asked|;
      }
    }
  }

  /** The last callback of a run is its request's first. */
  lemma ToldFirst(s: Setup, trace: seq<Step>, step: Step)
    requires s.handles.Valid() && Run(s, trace + [step])
    ensures var w, v := After(s, trace), After(s, trace + [step]);
            && Run(s, trace) && Legal(s, w, step) && v == Take(s, w, step)
            && (v.told != w.told ==>
                  && v.told != [] && !step.Submit?
                  && var t := v.told[|v.told| - 1];
                     v.told == w.told + [t] && Calls(w.told, t.request) == 0)
  {
    var w, v := After(s, trace), After(s, trace + [step]);
    AfterOne(s, trace, step);
    assert (trace + [step])[..|trace|] == trace;
    RunSound(s, trace);
    CallbackSaysWhy(s, w, step);
    if v.told != w.told {
      var t := v.told[|v.told| - 1];
      assert v.told == w.told + [t];
      CallsAdded(w.told, t, t.request);
      RunSettles(s, trace + [step], t.request);
    }
  }

  /** Whatever a step tells the fan-in is the answer of a target it awaits. */
  lemma WorkAnswers(s: Setup, b: Book, step: Step)
    requires s.handles.Valid() && Run(s, b.trace + [step]) && Linked(After(s, b.trace), b)
    ensures var w, v := After(s, b.trace), After(s, b.trace + [step]);
            v.told != w.told && Answers(b, v.told) ==> F.Allowed(b.fan, AnswerIn(b, v.told))
  {
    ToldFirst(s, b.trace, step);
    hide After, Run, Take, Legal;
  }

  lemma WorkLinks(s: Setup, b: Book, step: Step)
    requires s.handles.Valid() && Run(s, b.trace + [step]) && Linked(After(s, b.trace), b)
    ensures Linked(After(s, b.trace + [step]), Do(s, b, Work(step)))
  {
    var w, v := After(s, b.trace), After(s, b.trace + [step]);
    ToldFirst(s, b.trace, step);
    if step.Submit? {
      SubmitAsks(s, w, step.query, step.sent);
    } else {
      StepAsks(s, w, step);
    }
    if v.told != w.told {
      var t := v.told[|v.told| - 1];
      forall r
        ensures Calls(v.told, r) == Calls(w.told, r) + if t.request == r then 1 else 0
      {
        CallsAdded(w.told, t, r);
      }
    }
    hide After, Run, Take, Legal, Linked;
    if v.told != w.told && Answers(b, v.told) {
      OneMoreLinked(w, v, b, Do(s, b, Work(step)));
    } else {
      SameLinked(w, v, b, Do(s, b, Work(step)));
    }
  }

  lemma SameLinked(w: World, v: World, b: Book, c: Book)
    requires Linked(w, b) && c.fan == b.fan && c.owner == b.owner && |w.asked| <= |v.asked|
    requires forall r :: r in w.accepted ==> r in v.accepted
    requires forall r :: r in b.owner ==> Calls(v.told, r) == Calls(w.told, r)
    ensures Linked(v, c)
  {
    hide Calls;
  }

  lemma OneMoreLinked(w: World, v: World, b: Book, c: Book)
    requires Linked(w, b) && Answers(b, v.told) && |w.asked| <= |v.asked|
    requires forall r :: r in w.accepted ==> r in v.accepted
    requires var last := v.told[|v.told| - 1].request;
             Calls(w.told, last) == 0
             && forall r :: Calls(v.told, r) == Calls(w.told, r) + if last == r then 1 else 0
    requires c.owner == b.owner && c.fan == F.Step(b.fan, AnswerIn(b, v.told))
    ensures Linked(v, c)
  {
    hide Calls, F.Settle;
    var last := v.told[|v.told| - 1].request;
    var n := b.owner[last];
    assert n in b.fan.sent && last in b.fan.sent[n] && n in b.fan.settled;
    forall r | r in c.owner
      ensures r in c.fan.settled[c.owner[r]] <==> Calls(v.told, r) == 1
    {
    }
  }

  /** In every reachable state the two are linked, and each notification is pending on
      exactly the requests that have not had their final callback, or has had its own. */
  lemma {:induction false} BooksLinked(s: Setup, events: seq<Event>)
    requires s.handles.Valid() && Allowed(s, events)
    ensures var b := Books(s, events); Linked(After(s, b.trace), b) && F.OneCallEach(b.fan)
  {
    hide Linked, After, Run, F.OneCallEach, F.Step, Take, Sends;
    if events == [] {
      NothingLinked(s);
    } else {
      var init, e := events[..|events| - 1], events[|events| - 1];
      BooksLinked(s, init);
      var b := Books(s, init);
      match e {
        case Notify(n, aims) =>
          NotifyLinks(s, b, n, aims);
          F.StepKeepsOneCall(b.fan, F.Notify(n, Targets(aims, |After(s, b.trace).asked|)));
        case Work(step) =>
          WorkLinks(s, b, step);
          WorkAnswers(s, b, step);
          WorkKeepsOneCall(s, b, step);
      }
    }
  }

  lemma WorkKeepsOneCall(s: Setup, b: Book, step: Step)
    requires s.handles.Valid() && Run(s, b.trace + [step]) && Linked(After(s, b.trace), b) && F.OneCallEach(b.fan)
    ensures F.OneCallEach(Do(s, b, Work(step)).fan)
  {
    WorkAnswers(s, b, step);
    ToldFirst(s, b.trace, step);
    hide After, Run, Take, Legal, Linked, F.OneCallEach, F.Step;
    var w, v := After(s, b.trace), After(s, b.trace + [step]);
    if v.told != w.told && Answers(b, v.told) {
      F.StepKeepsOneCall(b.fan, AnswerIn(b, v.told));
    }
  }

  lemma NothingLinked(s: Setup)
    requires s.handles.Valid()
    ensures Linked(After(s, EMPTY.trace), EMPTY) && F.OneCallEach(EMPTY.fan)
  {
  }

  // ------------------------------------------------------ the callback

  /** `processResponseVarBinds` never meets a handle that is not outstanding. */
  lemma NoAnswerUnawaited(s: Setup, events: seq<Event>, step: Step)
    requires s.handles.Valid() && Allowed(s, events) && Run(s, Books(s, events).trace + [step])
    ensures var b := Books(s, events);
            var w, v := After(s, b.trace), After(s, b.trace + [step]);
            v.told != w.told && Answers(b, v.told) ==>
              var a := AnswerIn(b, v.told);
              a.Answer? && F.Settle(b.fan.book, a.n, a.handle, a.error).Some?
  {
    BooksLinked(s, events);
    var b := Books(s, events);
    WorkAnswers(s, b, step);
    hide After, Run, Books, Allowed, Linked, F.OneCallEach, F.Allowed, F.Settle;
    var v := After(s, b.trace + [step]);
    if v.told != After(s, b.trace).told && Answers(b, v.told) {
      var a := AnswerIn(b, v.told);
      AllowedSettles(b.fan, a.n, a.handle, a.error);
    }
  }

  lemma AllowedSettles(f: F.World, n: nat, r: nat, error: Option<nat>)
    requires F.OneCallEach(f) && F.Allowed(f, F.Answer(n, r, error))
    ensures F.Settle(f.book, n, r, error).Some?
  {
    assert r in f.sent[n] - f.settled[n];
  }

  lemma OpenMeans(f: F.World, n: nat)
    requires F.OneCallEach(f) && n in f.sent
    ensures n in f.settled
    ensures F.CallsFor(f.book.calls, n) == if n !in f.abandoned && f.sent[n] <= f.settled[n] then 1 else 0
  {
    assert f.sent[n] <= f.settled[n] ==> f.sent[n] - f.settled[n] == {};
    assert forall r :: r in f.sent[n] && r !in f.settled[n] ==> r in f.sent[n] - f.settled[n];
  }

  function CallsFor(b: Book, n: nat): nat {
    F.CallsFor(b.fan.book.calls, n)
  }

  /** A request whose sender has not been told: it is pending, or was dropped. */
  ghost predicate Untold(w: World, r: nat) {
    InFlight(w.pending, r) == 1 || Times(w.lost, r) == 1
  }

  /** Whatever is sent, answered, retried, swept and failed in whatever order, a
      notification that was not abandoned has had one callback if no request sent for it is
      pending or was dropped, and otherwise none. */
  lemma NotificationCalledBackIff(s: Setup, events: seq<Event>, n: nat)
    requires s.handles.Valid() && Allowed(s, events) && n in Books(s, events).fan.sent
    ensures var b := Books(s, events);
            var w := After(s, b.trace);
            CallsFor(b, n)
            == if n !in b.fan.abandoned && !(exists r :: r in b.fan.sent[n] && Untold(w, r)) then 1 else 0
  {
    BooksLinked(s, events);
    var b := Books(s, events);
    var w := After(s, b.trace);
    OpenMeans(b.fan, n);
    forall r | r in b.fan.sent[n]
      ensures Untold(w, r) <==> r !in b.fan.settled[n]
    {
      SettledMeans(s, b, n, r);
    }
    hide After, Run, Books, Allowed, Untold, F.OneCallEach, Linked;
  }

  lemma SettledMeans(s: Setup, b: Book, n: nat, r: nat)
    requires s.handles.Valid() && Run(s, b.trace) && Linked(After(s, b.trace), b)
    requires n in b.fan.sent && r in b.fan.sent[n]
    ensures r < |After(s, b.trace).asked| && r in After(s, b.trace).accepted && n in b.fan.settled
    ensures Untold(After(s, b.trace), r) <==> r !in b.fan.settled[n]
  {
    hide After, Run, InFlight, Times, Calls;
    assert r in b.owner && b.owner[r] == n;
    OneFinalCallback(s, b.trace, r);
  }

  /** As many timeouts as there can be transmissions have gone by since it was sent. */
  predicate Elapsed(w: World, r: nat, most: nat)
    requires r < |w.asked|
  {
    var q := w.asked[r].query;
    w.asked[r].tick + Span(Budget(most, q.retryCount), Ceiling(q.timeout)) <= w.ticks
  }

  /** And it has had it once the last of its targets has had as long as its retries take,
      if none was dropped and no observer interrupted a response. */
  lemma NotificationToldInTime(s: Setup, events: seq<Event>, n: nat, most: nat)
    requires s.handles.Valid() && Allowed(s, events)
    requires var b := Books(s, events);
             && n in b.fan.sent && n !in b.fan.abandoned && PositiveTimeouts(b.trace) && Punctual(s, b.trace)
             && !Owed(s, b.trace) && NeverDrops(s, b.trace) && NeverForsakes(s, b.trace)
    requires var b := Books(s, events);
             var w := After(s, b.trace);
             && (forall h :: h in w.pending ==> w.pending[h].tally.learned <= most)
             && (forall r :: r in b.fan.sent[n] && r < |w.asked| ==> Elapsed(w, r, most))
    ensures CallsFor(Books(s, events), n) == 1
  {
    BooksLinked(s, events);
    NotificationCalledBackIff(s, events, n);
    var b := Books(s, events);
    var w := After(s, b.trace);
    forall r | r in b.fan.sent[n]
      ensures !Untold(w, r)
    {
      SettledMeans(s, b, n, r);
      assert Elapsed(w, r, most);
      ToldInTime(s, b.trace, r, most);
      OneFinalCallback(s, b.trace, r);
    }
  }

  // ------------------------------------------------------ such a run

  /** Two requests go out; the first is lost to a report without bindings, and the second
      is answered. */
  lemma TwoRequests(s: Setup, q: Query, sent: Sent)
    requires s.handles.Valid()
    ensures var two := [Submit(q, Delivered), Submit(q, Delivered)];
            var three := two + [Report(NextId.Issued(s.handles, 0), Blank, sent)];
            var four := three + [Respond(NextId.Issued(s.handles, 1), Good, sent)];
            var v := After(s, four);
            && Run(s, two) && Run(s, three) && Run(s, four)
            && After(s, two).told == [] && After(s, three).told == []
            && v.pending == map[] && |v.told| == 1 && v.told[0].request == 1 && v.told[0].outcome == Response
  {
    var h0, h1 := NextId.Issued(s.handles, 0), NextId.Issued(s.handles, 1);
    NextId.ConsecutiveValuesDistinct(s.handles, 0, 1);
    var one := [Submit(q, Delivered)];
    var two := one + [Submit(q, Delivered)];
    var three := two + [Report(h0, Blank, sent)];
    var four := three + [Respond(h1, Good, sent)];
    FirstStep(s, q, Delivered);
    AfterOne(s, one, Submit(q, Delivered));
    AfterOne(s, two, Report(h0, Blank, sent));
    AfterOne(s, three, Respond(h1, Good, sent));
    assert two[..1] == one && three[..2] == two && four[..3] == three;
    hide NextId.Issued, After;
    var w := After(s, two);
    assert w.pending.Keys == {h0, h1} && w.cache.Keys == {h0, h1};
    assert w.cache[h0].request == 0 && w.cache[h1].request == 1 && w.draws == 2;
    assert Run(s, two);
    var v := After(s, three);
    assert v.pending.Keys == {h1} && v.cache.Keys == {h1} && v.draws == 2 && v.told == [];
    assert Run(s, three) && Run(s, four);
  }

  /** They are one notification's. */
  lemma TwoTargets(q: Query)
    ensures var aims := [To(q, Delivered), To(q, Delivered)];
            var f := F.Step(F.EMPTY, F.Notify(0, Targets(aims, 0)));
            var g := F.Step(f, F.Answer(0, 1, None));
            && Sends(aims) == [Submit(q, Delivered), Submit(q, Delivered)] && Reached(aims, 0) == {0, 1}
            && g.book == F.Book(map[0 := {0}], [])
  {
    var aims := [To(q, Delivered), To(q, Delivered)];
    var one := aims[1..];
    assert one[1..] == [];
    assert Sends(one) == [Submit(q, Delivered)];
    assert Targets(one, 1) == [F.Sends(1)];
    var ts := Targets(aims, 0);
    assert ts == [F.Sends(0), F.Sends(1)];
    assert F.SentFrom(ts, 2) == {} && F.SentFrom(ts, 1) == {1};
    var a := F.Adding(F.EMPTY.book, 0, 0);
    var b := F.Adding(a, 0, 1);
    var none: set<nat> := {};
    assert none + {0} == {0} && a.pending == map[0 := none + {0}];
    assert {0} + {1} == {0, 1};
    assert b.pending == map[0 := {0, 1}];
    assert F.Fan(b, 0, F.Inform, ts, 2, 2) == b;
    assert F.Fan(a, 0, F.Inform, ts, 1, 1) == b;
    assert {0, 1} - {1} == {0};
  }

  /** One step more of the loop after some events. */
  lemma WorkAfter(s: Setup, events: seq<Event>, step: Step)
    requires s.handles.Valid() && Allowed(s, events) && Run(s, Books(s, events).trace + [step])
    ensures var b, c := Books(s, events), Books(s, events + [Work(step)]);
            var v := After(s, b.trace + [step]);
            && Allowed(s, events + [Work(step)]) && c.trace == b.trace + [step] && c.owner == b.owner
            && c.fan == if v.told == After(s, b.trace).told || !Answers(b, v.told) then b.fan
                        else F.Step(b.fan, AnswerIn(b, v.told))
  {
    assert (events + [Work(step)])[..|events|] == events;
    AfterOne(s, Books(s, events).trace, step);
    hide After, Take, F.Step;
  }

  lemma FirstNotified(s: Setup, aims: seq<Aim>)
    requires s.handles.Valid() && Run(s, Sends(aims))
    ensures var b := Books(s, [Notify(0, aims)]);
            && Allowed(s, [Notify(0, aims)]) && b.trace == Sends(aims)
            && b.owner == (map r | r in Reached(aims, 0) :: 0)
            && b.fan == F.Step(F.EMPTY, F.Notify(0, Targets(aims, 0)))
  {
    var events := [Notify(0, aims)];
    assert events[..0] == [] && [] + Sends(aims) == Sends(aims);
    hide Take, Sends, Targets, Reached, F.Step;
    assert Books(s, []) == EMPTY && Allowed(s, []);
  }

  function UpToReport(s: Setup, q: Query, sent: Sent): seq<Event>
    requires s.handles.Valid()
  {
    [Notify(0, [To(q, Delivered), To(q, Delivered)]), Work(Report(NextId.Issued(s.handles, 0), Blank, sent))]
  }

  lemma ReportUnheard(s: Setup, q: Query, sent: Sent)
    requires s.handles.Valid()
    ensures var aims, b := [To(q, Delivered), To(q, Delivered)], Books(s, UpToReport(s, q, sent));
            && Allowed(s, UpToReport(s, q, sent))
            && b.trace == [Submit(q, Delivered), Submit(q, Delivered), Report(NextId.Issued(s.handles, 0), Blank, sent)]
            && 1 in b.owner && b.owner[1] == 0 && b.fan == F.Step(F.EMPTY, F.Notify(0, Targets(aims, 0)))
  {
    var aims := [To(q, Delivered), To(q, Delivered)];
    TwoRequests(s, q, sent);
    TwoTargets(q);
    var report := Work(Report(NextId.Issued(s.handles, 0), Blank, sent));
    assert UpToReport(s, q, sent) == [Notify(0, aims)] + [report];
    hide *;
    FirstNotified(s, aims);
    assert 1 in Reached(aims, 0);
    WorkAfter(s, [Notify(0, aims)], Report(NextId.Issued(s.handles, 0), Blank, sent));
  }

  /** One target whose report has no bindings leaves a notification without its callback,
      though its other target answers and nothing is pending any more. */
  lemma OneBlankReportSilences(s: Setup, q: Query, sent: Sent)
    requires s.handles.Valid()
    ensures var events := UpToReport(s, q, sent) + [Work(Respond(NextId.Issued(s.handles, 1), Good, sent))];
            var b := Books(s, events);
            && Allowed(s, events) && After(s, b.trace).pending == map[]
            && CallsFor(b, 0) == 0 && b.fan.book.pending == map[0 := {0}]
  {
    var events := UpToReport(s, q, sent);
    TwoRequests(s, q, sent);
    TwoTargets(q);
    ReportUnheard(s, q, sent);
    hide *;
    var b := Books(s, events);
    assert b.trace == [Submit(q, Delivered), Submit(q, Delivered)] + [Report(NextId.Issued(s.handles, 0), Blank, sent)];
    WorkAfter(s, events, Respond(NextId.Issued(s.handles, 1), Good, sent));
    SecondAnswers(b, After(s, b.trace + [Respond(NextId.Issued(s.handles, 1), Good, sent)]).told);
    NoCalls(Books(s, events + [Work(Respond(NextId.Issued(s.handles, 1), Good, sent))]));
  }

  lemma NoCalls(b: Book)
    ensures b.fan.book.calls == [] ==> CallsFor(b, 0) == 0
  {
  }

  lemma SecondAnswers(b: Book, told: seq<Told>)
    requires |told| == 1 && told[0].request == 1 && told[0].outcome == Response
    requires 1 in b.owner && b.owner[1] == 0
    ensures Answers(b, told) && AnswerIn(b, told) == F.Answer(0, 1, None)
  {
  }
}
