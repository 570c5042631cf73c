/** How often a request is transmitted: the two retry counts of a pending request, the
    bound they give, and the runs for which they give none. */
module LifecycleRetries {
  import opened Wrappers
  import opened Lifecycle
  import opened LifecycleSafety
  import NextId

  /** The most transmissions of a request that has seen some discovery failures. */
  function Budget(learned: nat, retryCount: nat): nat {
    (learned + 1) * (retryCount + 1)
  }

  lemma BudgetGrows(learned: nat, retryCount: nat)
    ensures Budget(learned + 1, retryCount) == Budget(learned, retryCount) + retryCount + 1
    ensures Budget(0, retryCount) == retryCount + 1
  {
  }

  /** No kind of failure can reset a count the other kind then spends again. */
  predicate OneKind(s: Setup, q: Query) {
    q.retryCount == 0 || s.discoveryRetries == 0
  }

  /** A pending request's counts: at most one is above zero, neither is past its limit,
      and its transmissions are the budget's but for the retries left. */
  predicate Fair(s: Setup, p: Pending) {
    && (p.retries == 0 || p.discovery == 0)
    && p.retries <= p.query.retryCount && p.discovery <= s.discoveryRetries
    && p.tally.sent + (p.query.retryCount - p.retries) <= Budget(p.tally.learned, p.query.retryCount)
    && p.retries < p.tally.sent && p.discovery <= p.tally.learned
    && (p.tally.learned == 0 ==> p.tally.sent == p.retries + 1)
    && (OneKind(s, p.query) ==> p.tally.sent == p.retries + p.discovery + 1)
  }

  /** How often a request that has had its callback was transmitted, and that no kind of
      failure is reported before its retries are spent. */
  predicate FairlyTold(s: Setup, t: Told) {
    && t.tally.sent <= Budget(t.tally.learned, t.query.retryCount)
    && (t.outcome.Error? && t.tally.learned == 0 ==> t.tally.sent == t.query.retryCount + 1)
    && (t.outcome == Error(Discovery) ==> s.discoveryRetries < t.tally.learned)
    && (t.outcome.Error? && t.outcome != Error(Discovery) ==> t.query.retryCount < t.tally.sent)
    && (OneKind(s, t.query) ==> t.tally.sent <= t.query.retryCount + s.discoveryRetries + 1)
  }

  ghost predicate AllFair(s: Setup, w: World) {
    && (forall h :: h in w.pending ==> Fair(s, w.pending[h]))
    && (forall i :: 0 <= i < |w.told| ==> FairlyTold(s, w.told[i]))
  }

  lemma CountedFair(s: Setup, p: Pending, f: Failure, request: nat, ticks: nat, draws: nat)
    requires Fair(s, p)
    ensures var c := Counted(p, f);
            && (Exceeded(s, c) ==> FairlyTold(s, Told(request, Error(f), c.query, c.tally)))
            && (!Exceeded(s, c) ==>
                  Fair(s, Resent(c, ticks, draws)) && FairlyTold(s, Told(request, SendError, c.query, c.tally)))
  {
    BudgetGrows(p.tally.learned, p.query.retryCount);
    BudgetGrows(0, p.query.retryCount);
    hide Budget;
  }

  lemma RetryFair(s: Setup, w: World, request: nat, p: Pending, sent: Sent)
    requires s.handles.Valid() && AllFair(s, w)
    requires Fair(s, Resent(p, w.ticks, w.draws)) && FairlyTold(s, Told(request, SendError, p.query, p.tally))
    ensures AllFair(s, Retry(s, w, request, p, sent).0)
  {
    hide Fair, FairlyTold, NextHandle, Cached;
  }

  lemma ProcessFair(s: Setup, w: World, h: Handle, request: nat, answer: Answer, sent: Sent)
    requires s.handles.Valid() && AllFair(s, w)
    ensures AllFair(s, Process(s, w, h, request, answer, sent).0)
  {
    if h in w.pending {
      var p := w.pending[h];
      assert Fair(s, p);
      assert FairlyTold(s, Told(request, Response, p.query, p.tally));
      assert FairlyTold(s, Told(request, BadResponse, p.query, p.tally));
      if answer.Failed? {
        CountedFair(s, p, answer.failure, request, w.ticks, w.draws);
      }
      hide Fair, FairlyTold, Retry, Exceeded, Counted, Budget;
      if answer.Failed? && !Exceeded(s, Counted(p, answer.failure)) {
        RetryFair(s, Forget(w, h), request, Counted(p, answer.failure), sent);
      }
    }
  }

  lemma StepFair(s: Setup, w: World, step: Step)
    requires s.handles.Valid() && Legal(s, w, step) && AllFair(s, w)
    ensures AllFair(s, Take(s, w, step))
  {
    if step.Submit? {
      BudgetGrows(0, step.query.retryCount);
      assert Fair(s, Pending(step.query, 0, 0, Tally(|w.asked|, 1, w.ticks, w.draws, 0)));
    }
    hide Fair, FairlyTold, Process, Room, Due, NextHandle, Cached;
    match step {
      case Respond(h, answer, sent) =>
        if h in w.cache {
          ProcessFair(s, Taken(w, h), h, w.cache[h].request, answer, sent);
        }
      case Report(h, f, sent) =>
        if h in w.cache {
          ProcessFair(s, Taken(w, h), h, w.cache[h].request, Failed(f), sent);
        }
      case Next(sent) =>
        var item := w.sweep.value.todo[0];
        ProcessFair(s, Taken(w, item.handle), item.handle, item.entry.request,
                    Failed(FailureFor(w.sweep.value.cause)), sent);
      case _ =>
    }
  }

  /** In every reachable state each pending request's counts are within their limits, and
      every request told of was transmitted within its budget: with no discovery failure,
      exactly retryCount + 1 times if it failed. */
  lemma {:induction false} RunFair(s: Setup, steps: seq<Step>)
    requires s.handles.Valid() && Run(s, steps)
    ensures AllFair(s, After(s, steps))
  {
    hide Take, Legal;
    if steps != [] {
      RunFair(s, steps[..|steps| - 1]);
      StepFair(s, After(s, steps[..|steps| - 1]), steps[|steps| - 1]);
    }
  }

  // --------------------------------------------- alternating failures

  /** One request, sent once and then failed in turn as one kind and the other. */
  function Alternating(s: Setup, q: Query, n: nat): (steps: seq<Step>)
    requires s.handles.Valid()
    ensures |steps| == n + 1
  {
    if n == 0 then [Submit(q, Delivered)]
    else
      Alternating(s, q, n - 1)
      + [Report(NextId.Issued(s.handles, n - 1), if n % 2 == 1 then Discovery else Ordinary, Delivered)]
  }

  function Alternated(s: Setup, q: Query, n: nat): World
    requires s.handles.Valid()
  {
    var h := NextId.Issued(s.handles, n);
    var odd := n % 2;
    var p := Pending(q, if n == 0 then 0 else 1 - odd, odd, Tally(0, n + 1, 0, n, (n + 1) / 2));
    World(map[h := Entry(0, q.timeout, Some(q.peer), n)], map[h := p], 1, 0, n + 1, None, [Asked(q, 0)], [0], [], [])
  }

  /** Where both kinds have a retry to spend there is no bound: for every number there is a
      run in which a request has been transmitted that often and is still pending. */
  lemma {:induction false} AlternatingNeverEnds(s: Setup, q: Query, n: nat)
    requires s.handles.Valid() && !OneKind(s, q)
    ensures Run(s, Alternating(s, q, n)) && After(s, Alternating(s, q, n)) == Alternated(s, q, n)
  {
    var steps := Alternating(s, q, n);
    var init := steps[..n];
    if n == 0 {
      assert init == [];
      assert After(s, steps) == Take(s, Idle, steps[0]);
    } else {
      assert init == Alternating(s, q, n - 1);
      AlternatingNeverEnds(s, q, n - 1);
      AlternatingStep(s, q, n);
    }
  }

  lemma AlternatingStep(s: Setup, q: Query, n: nat)
    requires s.handles.Valid() && !OneKind(s, q) && 0 < n
    ensures var w := Alternated(s, q, n - 1);
            var step := Report(NextId.Issued(s.handles, n - 1), if n % 2 == 1 then Discovery else Ordinary, Delivered);
            Legal(s, w, step) && Take(s, w, step) == Alternated(s, q, n)
  {
    hide NextId.Issued;
  }

  ghost predicate SentAtMost(w: World, q: Query, bound: nat) {
    forall h :: h in w.pending && w.pending[h].query == q ==> w.pending[h].tally.sent <= bound
  }

  /** A bound on the transmissions of any request of this kind in any run. */
  ghost predicate Bounded(s: Setup, q: Query, bound: nat)
    requires s.handles.Valid()
  {
    forall steps: seq<Step> :: Run(s, steps) ==> SentAtMost(After(s, steps), q, bound)
  }

  /** The code bounds the transmissions of a request, however it fails, if and only if it
      allows no retries or no discovery retries. */
  lemma BoundedIff(s: Setup, q: Query)
    requires s.handles.Valid()
    ensures (exists bound: nat :: Bounded(s, q, bound)) <==> OneKind(s, q)
  {
    if OneKind(s, q) {
      var bound := q.retryCount + s.discoveryRetries + 1;
      forall steps: seq<Step> | Run(s, steps)
        ensures SentAtMost(After(s, steps), q, bound)
      {
        RunFair(s, steps);
        FairSentAtMost(s, After(s, steps), q);
      }
      assert Bounded(s, q, bound);
    } else {
      forall bound: nat
        ensures !Bounded(s, q, bound)
      {
        AlternatingNeverEnds(s, q, bound);
        assert NextId.Issued(s.handles, bound) in Alternated(s, q, bound).pending;
        assert !SentAtMost(After(s, Alternating(s, q, bound)), q, bound);
      }
    }
  }

  lemma FairSentAtMost(s: Setup, w: World, q: Query)
    requires AllFair(s, w) && OneKind(s, q)
    ensures SentAtMost(w, q, q.retryCount + s.discoveryRetries + 1)
  {
    forall h | h in w.pending && w.pending[h].query == q
      ensures w.pending[h].tally.sent <= q.retryCount + s.discoveryRetries + 1
    {
      assert Fair(s, w.pending[h]);
    }
  }

  lemma BudgetIsMonotone(learned: nat, most: nat, retryCount: nat)
    requires learned <= most
    ensures Budget(learned, retryCount) <= Budget(most, retryCount)
    decreases most - learned
  {
    if learned < most {
      BudgetGrows(learned, retryCount);
      BudgetIsMonotone(learned + 1, most, retryCount);
    }
  }

  /** A request that saw at most `most` discovery failures was transmitted at most
      (most + 1) * (retryCount + 1) times, pending or told of; and exactly retryCount + 1
      times if it failed having seen none. */
  lemma TransmissionBound(s: Setup, steps: seq<Step>, h: Handle, i: nat, most: nat)
    requires s.handles.Valid() && Run(s, steps)
    ensures var w := After(s, steps);
            && (h in w.pending && w.pending[h].tally.learned <= most ==>
                  w.pending[h].tally.sent <= Budget(most, w.pending[h].query.retryCount))
            && (i < |w.told| && w.told[i].tally.learned <= most ==>
                  w.told[i].tally.sent <= Budget(most, w.told[i].query.retryCount))
            && (i < |w.told| && w.told[i].outcome.Error? && w.told[i].tally.learned == 0 ==>
                  w.told[i].tally.sent == w.told[i].query.retryCount + 1)
  {
    RunFair(s, steps);
    hide Budget, After, Run;
    var w := After(s, steps);
    if h in w.pending && w.pending[h].tally.learned <= most {
      assert Fair(s, w.pending[h]);
      BudgetIsMonotone(w.pending[h].tally.learned, most, w.pending[h].query.retryCount);
    }
    if i < |w.told| {
      assert FairlyTold(s, w.told[i]);
      if w.told[i].tally.learned <= most {
        BudgetIsMonotone(w.told[i].tally.learned, most, w.told[i].query.retryCount);
      }
    }
  }
}
