/** When a request is told: if every tick is followed by a clock sweep that comes to its
    end, within so many ticks of being sent. */
module LifecycleTimely {
  import opened Wrappers
  import opened Lifecycle
  import opened LifecycleSafety
  import opened LifecycleRuns
  import opened LifecycleRetries
  import NextId

  /** Every timeout asked for is positive. */
  predicate PositiveTimeouts(steps: seq<Step>) {
    forall n :: 0 <= n < |steps| && steps[n].Submit? ==> steps[n].query.timeout > 0.0
  }

  predicate EndsClockSweep(w: World, step: Step) {
    step == End && w.sweep.Some? && w.sweep.value.cause == Clock
  }

  /** A tick has gone by that no completed clock sweep has followed. */
  ghost predicate Owed(s: Setup, steps: seq<Step>)
    requires s.handles.Valid()
  {
    steps != [] &&
      var init, step := steps[..|steps| - 1], steps[|steps| - 1];
      step == Tick || (Owed(s, init) && !EndsClockSweep(After(s, init), step))
  }

  /** No tick comes before the last one's sweep is complete. */
  ghost predicate Punctual(s: Setup, steps: seq<Step>)
    requires s.handles.Valid()
  {
    forall n :: 0 <= n < |steps| && steps[n] == Tick ==> !Owed(s, steps[..n])
  }

  // --------------------------------------------------- nothing overdue

  ghost predicate NothingDue(w: World) {
    forall h :: h in w.cache ==> w.ticks as real < w.cache[h].deadline
  }

  ghost predicate Positive(w: World) {
    forall h :: h in w.pending ==> w.pending[h].query.timeout > 0.0
  }

  /** What has been sent since the sweep under way began is not due. */
  ghost predicate NewNotDue(w: World) {
    w.sweep.Some? ==>
      forall h :: h in w.cache && w.sweep.value.since <= w.cache[h].drawn ==> w.ticks as real < w.cache[h].deadline
  }

  /** A step within one tick: what it adds to the cache is new and not due. */
  ghost predicate AddsNew(w: World, v: World) {
    && v.ticks == w.ticks
    && forall h :: h in v.cache ==>
         (h in w.cache && v.cache[h] == w.cache[h]) || w.ticks as real < v.cache[h].deadline
  }

  lemma SubmitAddsNew(s: Setup, w: World, q: Query, sent: Sent)
    requires s.handles.Valid() && Positive(w) && q.timeout > 0.0
    ensures AddsNew(w, Submitted(s, w, q, sent)) && Positive(Submitted(s, w, q, sent))
  {
    hide NextHandle;
  }

  lemma ProcessAddsNew(s: Setup, w: World, h: Handle, request: nat, answer: Answer, sent: Sent)
    requires s.handles.Valid() && Positive(w)
    ensures var v := Process(s, w, h, request, answer, sent).0;
            AddsNew(w, v) && Positive(v)
  {
    hide NextHandle, Exceeded;
  }

  lemma StepAddsNew(s: Setup, w: World, step: Step)
    requires s.handles.Valid() && Legal(s, w, step) && Positive(w) && step != Tick
    requires step.Submit? ==> step.query.timeout > 0.0
    ensures AddsNew(w, Take(s, w, step)) && Positive(Take(s, w, step))
  {
    hide NextHandle, Process, Submitted, Due, Room;
    match step {
      case Submit(q, sent) => SubmitAddsNew(s, w, q, sent);
      case Respond(h, answer, sent) =>
        if h in w.cache {
          ProcessAddsNew(s, Taken(w, h), h, w.cache[h].request, answer, sent);
        }
      case Report(h, f, sent) =>
        if h in w.cache {
          ProcessAddsNew(s, Taken(w, h), h, w.cache[h].request, Failed(f), sent);
        }
      case Next(sent) =>
        var item := w.sweep.value.todo[0];
        ProcessAddsNew(s, Taken(w, item.handle), item.handle, item.entry.request,
                       Failed(FailureFor(w.sweep.value.cause)), sent);
      case _ =>
    }
  }

  lemma StepSince(s: Setup, w: World, step: Step)
    requires s.handles.Valid() && Legal(s, w, step)
    ensures var v := Take(s, w, step);
            v.sweep.Some? ==> if step.Begin? then v.cache == w.cache && v.sweep.value.since == w.draws
                              else w.sweep.Some? && v.sweep.value.since == w.sweep.value.since
  {
    hide NextHandle, Process, Due, Room;
    match step {
      case Respond(h, answer, sent) =>
        if h in w.cache {
          ProcessRest(s, Taken(w, h), h, w.cache[h].request, answer, sent);
        }
      case Report(h, f, sent) =>
        if h in w.cache {
          ProcessRest(s, Taken(w, h), h, w.cache[h].request, Failed(f), sent);
        }
      case _ =>
    }
  }

  lemma NewStaysNotDue(s: Setup, w: World, step: Step)
    requires s.handles.Valid() && Sound(s, w) && Legal(s, w, step) && Positive(w) && NewNotDue(w) && step != Tick
    requires step.Submit? ==> step.query.timeout > 0.0
    ensures NewNotDue(Take(s, w, step))
  {
    StepAddsNew(s, w, step);
    StepSince(s, w, step);
    hide Take, Legal, Agree, Ahead, Standing, NextId.Issued;
    if step.Begin? {
      assert Known(s, w.cache, w.draws);
    }
  }

  /** Between a completed clock sweep and the next tick nothing is overdue. */
  lemma {:induction false} NothingOverdue(s: Setup, steps: seq<Step>)
    requires s.handles.Valid() && Run(s, steps) && PositiveTimeouts(steps)
    ensures var w := After(s, steps);
            Positive(w) && NewNotDue(w) && (!Owed(s, steps) ==> NothingDue(w))
  {
    if steps != [] {
      var init, step := steps[..|steps| - 1], steps[|steps| - 1];
      NothingOverdue(s, init);
      RunSound(s, init);
      var w := After(s, init);
      if step != Tick {
        StepAddsNew(s, w, step);
        NewStaysNotDue(s, w, step);
        if EndsClockSweep(w, step) {
          forall h | h in w.cache
            ensures w.ticks as real < w.cache[h].deadline
          {
            SweepIsThorough(s, init, h);
          }
        }
      }
    }
  }

  // ------------------------------------------------- told in time

  /** A timeout in whole ticks. */
  function Ceiling(x: real): (c: int)
    ensures c as real >= x && (x > 0.0 ==> c > 0)
  {
    -(-x).Floor
  }

  function Span(n: int, c: int): int {
    n * c
  }

  lemma SpanGrows(n: int, c: int)
    ensures Span(n + 1, c) == Span(n, c) + c && Span(0, c) == 0 && Span(1, c) == c
  {
  }

  lemma {:induction false} SpanMonotone(n: int, m: int, c: int)
    requires n <= m && 0 <= c
    ensures Span(n, c) <= Span(m, c)
    decreases m - n
  {
    if n < m {
      SpanGrows(n, c);
      SpanMonotone(n + 1, m, c);
    }
  }

  /** Each transmission of a pending request came within a timeout of the one before. */
  predicate Prompt(asked: seq<Asked>, ticks: nat, p: Pending) {
    && p.tally.request < |asked| && p.query.timeout > 0.0 && 1 <= p.tally.sent && p.tally.at <= ticks
    && var c := Ceiling(p.query.timeout);
       p.tally.at <= asked[p.tally.request].tick + Span(p.tally.sent - 1, c) && ticks <= p.tally.at + c
  }

  ghost predicate OnTime(w: World) {
    forall h :: h in w.pending && h in w.cache ==> Prompt(w.asked, w.ticks, w.pending[h])
  }

  lemma PromptAgain(asked: seq<Asked>, ticks: nat, draws: nat, p: Pending, f: Failure)
    requires Prompt(asked, ticks, p)
    ensures Prompt(asked, ticks, Resent(Counted(p, f), ticks, draws))
  {
    SpanGrows(p.tally.sent - 1, Ceiling(p.query.timeout));
    hide Ceiling, Span;
  }

  lemma ProcessOnTime(s: Setup, w: World, h: Handle, request: nat, answer: Answer, sent: Sent)
    requires s.handles.Valid() && OnTime(w) && NextHandle(s, w) !in w.pending
    requires h in w.pending ==> Prompt(w.asked, w.ticks, w.pending[h])
    ensures OnTime(Process(s, w, h, request, answer, sent).0)
  {
    if h in w.pending && answer.Failed? {
      PromptAgain(w.asked, w.ticks, w.draws, w.pending[h], answer.failure);
    }
    hide Prompt, NextHandle, Exceeded, Counted, Resent;
  }

  lemma SubmitOnTime(s: Setup, w: World, q: Query, sent: Sent)
    requires s.handles.Valid() && OnTime(w) && q.timeout > 0.0 && NextHandle(s, w) !in w.pending
    ensures OnTime(Submitted(s, w, q, sent))
  {
    var asked := w.asked + [Asked(q, w.ticks)];
    var p := Pending(q, 0, 0, Tally(|w.asked|, 1, w.ticks, w.draws, 0));
    SpanGrows(0, Ceiling(q.timeout));
    assert Prompt(asked, w.ticks, p);
    forall h | h in w.pending && h in w.cache
      ensures Prompt(asked, w.ticks, w.pending[h])
    {
      assert Prompt(w.asked, w.ticks, w.pending[h]);
    }
    hide Prompt, NextHandle;
  }

  /** A tick leaves a request that was not due at most a timeout behind its sending. */
  lemma TickOnTime(s: Setup, w: World)
    requires s.handles.Valid() && Stores(s, w) && OnTime(w) && NothingDue(w)
    ensures OnTime(w.(ticks := w.ticks + 1))
  {
    forall h | h in w.pending && h in w.cache
      ensures Prompt(w.asked, w.ticks + 1, w.pending[h])
    {
      assert Prompt(w.asked, w.ticks, w.pending[h]);
      AgreeMatches(w, h);
      assert w.ticks as real < w.cache[h].deadline;
    }
  }

  lemma StepOnTime(s: Setup, w: World, step: Step)
    requires s.handles.Valid() && Sound(s, w) && Legal(s, w, step) && OnTime(w)
    requires step.Submit? ==> step.query.timeout > 0.0
    requires step == Tick ==> NothingDue(w)
    ensures OnTime(Take(s, w, step))
  {
    hide Prompt, NextHandle, Process, Submitted, Due, Room, Stores, NothingDue;
    match step {
      case Submit(q, sent) =>
        Outstanding(s, w, 0);
        SubmitOnTime(s, w, q, sent);
      case Respond(h, answer, sent) =>
        if h in w.cache {
          TakenOnTime(s, w, h, answer, sent);
        }
      case Report(h, f, sent) =>
        if h in w.cache {
          TakenOnTime(s, w, h, Failed(f), sent);
        }
      case Next(sent) =>
        TodoCached(s, w);
        TakenOnTime(s, w, w.sweep.value.todo[0].handle, Failed(FailureFor(w.sweep.value.cause)), sent);
      case Tick => TickOnTime(s, w);
      case _ =>
    }
  }

  lemma TakenOnTime(s: Setup, w: World, h: Handle, answer: Answer, sent: Sent)
    requires s.handles.Valid() && Sound(s, w) && Room(s, w) && OnTime(w) && h in w.cache
    ensures OnTime(Process(s, Taken(w, h), h, w.cache[h].request, answer, sent).0)
  {
    hide Prompt, NextHandle, Process, Room, Sound;
    Outstanding(s, w, h);
    SameNext(s, Taken(w, h), w);
    ProcessOnTime(s, Taken(w, h), h, w.cache[h].request, answer, sent);
  }

  lemma {:induction false} RunOnTime(s: Setup, steps: seq<Step>)
    requires s.handles.Valid() && Run(s, steps) && PositiveTimeouts(steps) && Punctual(s, steps)
    ensures OnTime(After(s, steps))
  {
    hide Take, Legal, Sound, NothingDue;
    if steps != [] {
      var init, step := steps[..|steps| - 1], steps[|steps| - 1];
      PunctualPrefix(s, steps);
      RunOnTime(s, init);
      RunSound(s, init);
      NothingOverdue(s, init);
      StepOnTime(s, After(s, init), step);
    }
  }

  lemma PunctualPrefix(s: Setup, steps: seq<Step>)
    requires s.handles.Valid() && steps != [] && PositiveTimeouts(steps) && Punctual(s, steps)
    ensures PositiveTimeouts(steps[..|steps| - 1]) && Punctual(s, steps[..|steps| - 1])
    ensures steps[|steps| - 1] == Tick ==> !Owed(s, steps[..|steps| - 1])
  {
    var init := steps[..|steps| - 1];
    assert forall n :: 0 <= n < |init| ==> init[..n] == steps[..n] && init[n] == steps[n];
  }

  /** A request that has seen at most `most` discovery failures, and no interrupted response,
      whatever else it has seen, is no longer pending once that many timeouts as it has
      transmissions, each rounded up to a tick, have gone by since it was sent. */
  lemma PendingIsRecent(s: Setup, steps: seq<Step>, h: Handle, most: nat)
    requires s.handles.Valid() && Run(s, steps) && PositiveTimeouts(steps)
    requires Punctual(s, steps) && !Owed(s, steps)
    requires h in After(s, steps).pending && !Forsaken(After(s, steps), h)
    requires After(s, steps).pending[h].tally.learned <= most
    ensures var w := After(s, steps);
            var p := w.pending[h];
            p.tally.request < |w.asked|
            && w.ticks < w.asked[p.tally.request].tick
                         + Span(Budget(most, p.query.retryCount), Ceiling(p.query.timeout))
  {
    RunOnTime(s, steps);
    RunSound(s, steps);
    NothingOverdue(s, steps);
    TransmissionBound(s, steps, h, 0, most);
    var w := After(s, steps);
    hide After, Run, Budget, Span, Punctual, Owed;
    var p := w.pending[h];
    assert Prompt(w.asked, w.ticks, p);
    AgreeMatches(w, h);
    assert w.ticks as real < w.cache[h].deadline;
    var c := Ceiling(p.query.timeout);
    SpanGrows(p.tally.sent - 1, c);
    SpanMonotone(p.tally.sent, Budget(most, p.query.retryCount), c);
  }

  /** So by then it has had its one final callback, if it was not dropped or forsaken. */
  lemma ToldInTime(s: Setup, steps: seq<Step>, r: nat, most: nat)
    requires s.handles.Valid() && Run(s, steps) && PositiveTimeouts(steps)
    requires Punctual(s, steps) && !Owed(s, steps) && NeverDrops(s, steps) && NeverForsakes(s, steps)
    requires var w := After(s, steps);
             && r in w.accepted && r < |w.asked|
             && (forall h :: h in w.pending && w.pending[h].tally.request == r ==> w.pending[h].tally.learned <= most)
             && w.asked[r].tick + Span(Budget(most, w.asked[r].query.retryCount), Ceiling(w.asked[r].query.timeout))
                <= w.ticks
    ensures Calls(After(s, steps).told, r) == 1
  {
    OneFinalCallback(s, steps, r);
    NoneLostIff(s, steps);
    NoneForsakenIff(s, steps);
    RunFaithful(s, steps);
    var w := After(s, steps);
    hide After, Run, Punctual, Owed, NeverDrops, NeverForsakes, Budget, Span, Ceiling, Forsaken;
    forall h | h in w.pending
      ensures w.pending[h].tally.request != r
    {
      assert AskedFor(w.asked, w.pending[h].tally.request, w.pending[h].query);
      if w.pending[h].tally.request == r {
        PendingIsRecent(s, steps, h, most);
      }
    }
    assert (set h | h in w.pending && w.pending[h].tally.request == r) == {};
  }

  // ---------------------------------------------------- silent peers

  /** A run in which nothing comes back, nothing is reported, and every retry goes out. */
  predicate OnlyTimeouts(steps: seq<Step>) {
    forall n :: 0 <= n < |steps| ==> Quiet(steps[n])
  }

  predicate Quiet(step: Step) {
    && !step.Respond? && !step.Report?
    && (step.Begin? ==> step.cause == Clock) && (step.Next? ==> step.sent == Delivered)
  }

  ghost predicate Silent(w: World) {
    && (forall h :: h in w.pending ==> w.pending[h].tally.learned == 0)
    && (forall i :: 0 <= i < |w.told| ==> w.told[i].outcome == Error(TimedOut) && w.told[i].tally.learned == 0)
    && (w.sweep.Some? ==> w.sweep.value.cause == Clock)
  }

  lemma TimeoutSilent(s: Setup, w: World, h: Handle, request: nat)
    requires s.handles.Valid() && Silent(w)
    ensures Silent(Process(s, w, h, request, Failed(TimedOut), Delivered).0)
  {
    hide NextHandle, Exceeded;
  }

  lemma StepSilent(s: Setup, w: World, step: Step)
    requires s.handles.Valid() && Legal(s, w, step) && Silent(w) && Quiet(step)
    ensures Silent(Take(s, w, step))
  {
    hide NextHandle, Process, Due, Room, Cached;
    if step.Next? {
      var item := w.sweep.value.todo[0];
      TimeoutSilent(s, Taken(w, item.handle), item.handle, item.entry.request);
    }
  }

  lemma {:induction false} RunSilent(s: Setup, steps: seq<Step>)
    requires s.handles.Valid() && Run(s, steps) && OnlyTimeouts(steps)
    ensures Silent(After(s, steps)) && NeverDrops(s, steps) && NeverForsakes(s, steps)
  {
    hide Take, Legal;
    if steps != [] {
      var n := |steps| - 1;
      RunSilent(s, steps[..n]);
      StepSilent(s, After(s, steps[..n]), steps[n]);
    }
    forall n: nat | n < |steps|
      ensures !Drops(s, Prefix(s, steps, n), steps[n]) && !ForsakesNow(Prefix(s, steps, n), steps[n])
    {
      assert Quiet(steps[n]);
    }
  }

  /** A peer that never answers: once retryCount + 1 timeouts have gone by since it was
      sent, a request has been transmitted that often and its sender called back once, to
      be told that it timed out. */
  lemma SilentPeerTimesOut(s: Setup, steps: seq<Step>, r: nat)
    requires s.handles.Valid() && Run(s, steps) && PositiveTimeouts(steps)
    requires Punctual(s, steps) && !Owed(s, steps) && OnlyTimeouts(steps)
    requires var w := After(s, steps);
             && r in w.accepted && r < |w.asked|
             && w.asked[r].tick + (w.asked[r].query.retryCount + 1) * Ceiling(w.asked[r].query.timeout) <= w.ticks
    ensures var told := After(s, steps).told;
            && Calls(told, r) == 1
            && forall i :: 0 <= i < |told| && told[i].request == r ==>
                 told[i].outcome == Error(TimedOut) && told[i].tally.sent == told[i].query.retryCount + 1
  {
    RunSilent(s, steps);
    RunFair(s, steps);
    var w := After(s, steps);
    BudgetGrows(0, w.asked[r].query.retryCount);
    ToldInTime(s, steps, r, 0);
    hide After, Run, Budget, Ceiling;
    forall i | 0 <= i < |w.told| && w.told[i].request == r
      ensures w.told[i].outcome == Error(TimedOut) && w.told[i].tally.sent == w.told[i].query.retryCount + 1
    {
      assert FairlyTold(s, w.told[i]);
    }
  }
}
