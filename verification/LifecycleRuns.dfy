/** Whole runs of the request lifecycle: one final callback for each request, stores that
    agree, sweeps that take what is due and nothing else. */
module LifecycleRuns {
  import opened Wrappers
  import opened Lifecycle
  import opened LifecycleSafety
  import NextId

  function Prefix(s: Setup, steps: seq<Step>, n: nat): World
    requires s.handles.Valid() && n <= |steps|
  {
    After(s, steps[..n])
  }

  lemma PrefixStep(s: Setup, steps: seq<Step>, n: nat)
    requires s.handles.Valid() && Run(s, steps) && n < |steps|
    ensures Prefix(s, steps, n + 1) == Take(s, Prefix(s, steps, n), steps[n])
    ensures Legal(s, Prefix(s, steps, n), steps[n]) && Run(s, steps[..n])
  {
    hide Take, Legal;
    RunPrefix(s, steps, n + 1);
    assert steps[..n + 1][..n] == steps[..n];
  }

  lemma {:induction false} RunPrefix(s: Setup, steps: seq<Step>, n: nat)
    requires s.handles.Valid() && Run(s, steps) && n <= |steps|
    ensures Run(s, steps[..n])
    decreases |steps| - n
  {
    if n == |steps| {
      assert steps[..n] == steps;
    } else {
      RunPrefix(s, steps, n + 1);
      assert steps[..n + 1][..n] == steps[..n];
    }
  }

  // ------------------------------------------------- the stores agree

  ghost predicate AlwaysEven(s: Setup, steps: seq<Step>)
    requires s.handles.Valid()
  {
    forall n: nat :: n <= |steps| ==> Even(Prefix(s, steps, n))
  }

  ghost predicate NeverStrands(s: Setup, steps: seq<Step>)
    requires s.handles.Valid()
  {
    forall n: nat :: n < |steps| ==> !Strands(s, Prefix(s, steps, n), steps[n])
  }

  /** The cache's keys are the pending keys in every state of a run if and only if no send
      of it leaves its entry behind and no response is interrupted by an observer. */
  lemma StoresAgreeIff(s: Setup, steps: seq<Step>)
    requires s.handles.Valid() && Run(s, steps)
    ensures AlwaysEven(s, steps) <==> NeverStrands(s, steps)
  {
    hide Take, Legal, Strands, Even, Sound;
    forall n: nat | n < |steps|
      ensures Even(Prefix(s, steps, n)) ==>
                (Even(Prefix(s, steps, n + 1)) <==> !Strands(s, Prefix(s, steps, n), steps[n]))
    {
      PrefixStep(s, steps, n);
      RunSound(s, steps[..n]);
      StepSound(s, Prefix(s, steps, n), steps[n]);
    }
    if AlwaysEven(s, steps) {
      forall n: nat | n < |steps|
        ensures !Strands(s, Prefix(s, steps, n), steps[n])
      {
        assert Even(Prefix(s, steps, n)) && Even(Prefix(s, steps, n + 1));
      }
    }
    IdleSound(s);
    assert steps[..0] == [];
    if NeverStrands(s, steps) {
      for n := 0 to |steps|
        invariant forall k: nat :: k <= n ==> Even(Prefix(s, steps, k))
      {
        assert !Strands(s, Prefix(s, steps, n), steps[n]);
      }
    }
  }

  /** A job for each pending request, so the loop may exit exactly when none is left. */
  lemma JobsCountPending(s: Setup, steps: seq<Step>)
    requires s.handles.Valid() && Run(s, steps)
    ensures var w := After(s, steps); w.jobs == |w.pending| && (w.jobs == 0 <==> w.pending == map[])
  {
    RunSound(s, steps);
  }

  /** "Missing sendPduHandle" is not reached: whatever the dispatcher hands over is
      pending. */
  lemma NoHandleIsMissing(s: Setup, steps: seq<Step>)
    requires s.handles.Valid() && Run(s, steps) && NeverStrands(s, steps)
    ensures var w := After(s, steps);
            && (forall h :: h in w.cache <==> h in w.pending)
            && (w.sweep.Some? ==>
                  forall i :: 0 <= i < |w.sweep.value.todo| ==> w.sweep.value.todo[i].handle in w.pending)
  {
    StoresAgreeIff(s, steps);
    RunSound(s, steps);
    assert steps[..|steps|] == steps;
    var w := After(s, steps);
    assert Even(Prefix(s, steps, |steps|));
    assert forall h :: h in w.cache <==> h in w.cache.Keys;
  }

  // ----------------------------------------------- one final callback

  function Times(ids: seq<nat>, r: nat): nat {
    if ids == [] then 0
    else Times(ids[..|ids| - 1], r) + if ids[|ids| - 1] == r then 1 else 0
  }

  function Calls(told: seq<Told>, r: nat): nat {
    if told == [] then 0
    else Calls(told[..|told| - 1], r) + if told[|told| - 1].request == r then 1 else 0
  }

  ghost function InFlight(pending: map<Handle, Pending>, r: nat): nat {
    |set h | h in pending && pending[h].tally.request == r|
  }

  /** What has become of a request. */
  ghost predicate Settled(w: World, r: nat) {
    && InFlight(w.pending, r) + Calls(w.told, r) + Times(w.lost, r) == Times(w.accepted, r) <= 1
    && (|w.asked| <= r ==> Times(w.accepted, r) == 0)
  }

  lemma InFlightTracked(pending: map<Handle, Pending>, h: Handle, p: Pending, r: nat)
    requires h !in pending
    ensures InFlight(pending[h := p], r) == InFlight(pending, r) + if p.tally.request == r then 1 else 0
  {
    var before := set k | k in pending && pending[k].tally.request == r;
    var next := pending[h := p];
    var after := set k | k in next && next[k].tally.request == r;
    assert after == if p.tally.request == r then before + {h} else before;
  }

  lemma InFlightForgotten(pending: map<Handle, Pending>, h: Handle, r: nat)
    requires h in pending
    ensures InFlight(pending - {h}, r) + (if pending[h].tally.request == r then 1 else 0) == InFlight(pending, r)
  {
    InFlightTracked(pending - {h}, h, pending[h], r);
    assert (pending - {h})[h := pending[h]] == pending;
  }

  lemma CallsAdded(told: seq<Told>, t: Told, r: nat)
    ensures Calls(told + [t], r) == Calls(told, r) + if t.request == r then 1 else 0
  {
    assert (told + [t])[..|told|] == told;
  }

  lemma TimesAdded(ids: seq<nat>, id: nat, r: nat)
    ensures Times(ids + [id], r) == Times(ids, r) + if id == r then 1 else 0
  {
    assert (ids + [id])[..|ids|] == ids;
  }

  lemma SubmitSettles(s: Setup, w: World, q: Query, sent: Sent, r: nat)
    requires s.handles.Valid() && Settled(w, r) && NextHandle(s, w) !in w.pending
    ensures Settled(Submitted(s, w, q, sent), r)
  {
    hide NextHandle, InFlight, Calls, Times, Cached;
    var p := Pending(q, 0, 0, Tally(|w.asked|, 1, w.ticks, w.draws, 0));
    InFlightTracked(w.pending, NextHandle(s, w), p, r);
    TimesAdded(w.accepted, |w.asked|, r);
  }

  lemma RetrySettles(s: Setup, w: World, request: nat, p: Pending, sent: Sent, r: nat)
    requires s.handles.Valid() && NextHandle(s, w) !in w.pending && p.tally.request == request
    ensures var v := Retry(s, w, request, p, sent).0;
            InFlight(v.pending, r) + Calls(v.told, r) + Times(v.lost, r)
            == InFlight(w.pending, r) + Calls(w.told, r) + Times(w.lost, r) + if request == r then 1 else 0
  {
    hide NextHandle, InFlight, Calls, Times, Cached;
    InFlightTracked(w.pending, NextHandle(s, w), Resent(p, w.ticks, w.draws), r);
    CallsAdded(w.told, Told(request, SendError, p.query, p.tally), r);
    TimesAdded(w.lost, request, r);
  }

  lemma ProcessSettles(s: Setup, w: World, h: Handle, request: nat, answer: Answer, sent: Sent, r: nat)
    requires s.handles.Valid() && Settled(w, r) && NextHandle(s, w) !in w.pending
    requires h in w.pending ==> w.pending[h].tally.request == request
    ensures Settled(Process(s, w, h, request, answer, sent).0, r)
  {
    hide NextHandle, InFlight, Calls, Times, Retry, Exceeded;
    ProcessRest(s, w, h, request, answer, sent);
    if h in w.pending {
      InFlightForgotten(w.pending, h, r);
      var p, v := w.pending[h], Forget(w, h);
      CallsAdded(w.told, Told(request, Response, p.query, p.tally), r);
      CallsAdded(w.told, Told(request, BadResponse, p.query, p.tally), r);
      TimesAdded(w.lost, request, r);
      if answer.Failed? {
        var c := Counted(p, answer.failure);
        CallsAdded(w.told, Told(request, Error(answer.failure), c.query, c.tally), r);
        SameNext(s, v, w);
        RetrySettles(s, v, request, c, sent, r);
      }
    }
  }

  /** The next handle is nobody's, and a cached request's entry and pending entry are for
      the same request. */
  lemma Outstanding(s: Setup, w: World, h: Handle)
    requires s.handles.Valid() && Sound(s, w) && Room(s, w)
    ensures NextHandle(s, w) !in w.pending
    ensures h in w.pending && h in w.cache ==> w.cache[h].request == w.pending[h].tally.request
  {
    hide NextId.Issued;
    FreshHandle(s, w);
  }

  lemma StepSettles(s: Setup, w: World, step: Step, r: nat)
    requires s.handles.Valid() && Sound(s, w) && Legal(s, w, step) && Settled(w, r)
    ensures Settled(Take(s, w, step), r)
  {
    hide Sound, Room, Process, Submitted, InFlight, Calls, Times, Due, NextHandle;
    match step {
      case Submit(q, sent) =>
        Outstanding(s, w, 0);
        SubmitSettles(s, w, q, sent, r);
      case Respond(h, answer, sent) =>
        AnswerSettles(s, w, h, answer, sent, r);
      case Report(h, f, sent) =>
        AnswerSettles(s, w, h, Failed(f), sent, r);
      case Next(sent) =>
        var item := w.sweep.value.todo[0];
        Outstanding(s, w, item.handle);
        TodoCached(s, w);
        var t := Taken(w, item.handle);
        SameNext(s, t, w);
        ProcessSettles(s, t, item.handle, item.entry.request, Failed(FailureFor(w.sweep.value.cause)), sent, r);
      case _ =>
    }
  }

  lemma AnswerSettles(s: Setup, w: World, h: Handle, answer: Answer, sent: Sent, r: nat)
    requires s.handles.Valid() && Sound(s, w) && Room(s, w) && Settled(w, r)
    ensures Settled(Answered(s, w, h, answer, sent).0, r)
  {
    hide Sound, Room, Process, Settled, NextHandle;
    if h in w.cache {
      Outstanding(s, w, h);
      var t := Taken(w, h);
      assert Settled(t, r) by { SettledTaken(w, h, r); }
      SameNext(s, t, w);
      ProcessSettles(s, t, h, w.cache[h].request, answer, sent, r);
    }
  }

  lemma SettledTaken(w: World, h: Handle, r: nat)
    requires Settled(w, r)
    ensures Settled(Taken(w, h), r)
  {
  }

  lemma {:induction false} RunSettles(s: Setup, steps: seq<Step>, r: nat)
    requires s.handles.Valid() && Run(s, steps)
    ensures Settled(After(s, steps), r)
  {
    hide Take, Legal, Sound;
    if steps != [] {
      var init := steps[..|steps| - 1];
      RunSettles(s, init, r);
      RunSound(s, init);
      StepSettles(s, After(s, init), steps[|steps| - 1], r);
    }
  }

  /** Whatever happens and in whatever order, a request that was accepted is pending under
      one handle, or has had one final callback, or was lost; and one that was not accepted
      is none of these. */
  lemma OneFinalCallback(s: Setup, steps: seq<Step>, r: nat)
    requires s.handles.Valid() && Run(s, steps)
    ensures var w := After(s, steps);
            var outcomes := InFlight(w.pending, r) + Calls(w.told, r);
            && outcomes + Times(w.lost, r) == (if r in w.accepted then 1 else 0)
            && (w.lost == [] ==> outcomes == if r in w.accepted then 1 else 0)
  {
    RunSettles(s, steps, r);
    InAccepted(After(s, steps).accepted, r);
  }

  lemma {:induction false} InAccepted(ids: seq<nat>, r: nat)
    ensures r in ids <==> Times(ids, r) > 0
  {
    if ids != [] {
      var n := |ids| - 1;
      InAccepted(ids[..n], r);
      assert ids == ids[..n] + [ids[n]];
    }
  }

  // ------------------------------------------- what was asked is sent

  ghost predicate AskedFor(asked: seq<Asked>, request: nat, q: Query) {
    request < |asked| && asked[request].query == q
  }

  /** Every pending request and every request told of still is what its sender asked. */
  ghost predicate Faithful(w: World) {
    && (forall h :: h in w.pending ==> AskedFor(w.asked, w.pending[h].tally.request, w.pending[h].query))
    && (forall i :: 0 <= i < |w.told| ==> AskedFor(w.asked, w.told[i].request, w.told[i].query))
  }

  lemma ProcessFaithful(s: Setup, w: World, h: Handle, request: nat, answer: Answer, sent: Sent)
    requires s.handles.Valid() && Faithful(w)
    requires h in w.pending ==> w.pending[h].tally.request == request
    ensures Faithful(Process(s, w, h, request, answer, sent).0)
  {
    if h in w.pending {
      assert AskedFor(w.asked, request, w.pending[h].query);
    }
    hide AskedFor, NextHandle, Cached, Exceeded;
  }

  lemma SubmitFaithful(s: Setup, w: World, q: Query, sent: Sent)
    requires s.handles.Valid() && Faithful(w)
    ensures Faithful(Submitted(s, w, q, sent))
  {
    hide NextHandle, Cached;
    var asked := w.asked + [Asked(q, w.ticks)];
    forall request: nat, p: Query | AskedFor(w.asked, request, p)
      ensures AskedFor(asked, request, p)
    {
    }
    assert AskedFor(asked, |w.asked|, q);
  }

  lemma StepFaithful(s: Setup, w: World, step: Step)
    requires s.handles.Valid() && Sound(s, w) && Legal(s, w, step) && Faithful(w)
    ensures Faithful(Take(s, w, step))
  {
    hide Sound, Room, Process, Submitted, Due, NextHandle, AskedFor;
    match step {
      case Submit(q, sent) =>
        SubmitFaithful(s, w, q, sent);
      case Respond(h, answer, sent) =>
        if h in w.cache {
          Outstanding(s, w, h);
          ProcessFaithful(s, Taken(w, h), h, w.cache[h].request, answer, sent);
        }
      case Report(h, f, sent) =>
        if h in w.cache {
          Outstanding(s, w, h);
          ProcessFaithful(s, Taken(w, h), h, w.cache[h].request, Failed(f), sent);
        }
      case Next(sent) =>
        var item := w.sweep.value.todo[0];
        Outstanding(s, w, item.handle);
        TodoCached(s, w);
        ProcessFaithful(s, Taken(w, item.handle), item.handle, item.entry.request,
                        Failed(FailureFor(w.sweep.value.cause)), sent);
      case _ =>
    }
  }

  /** However often it is sent again, a request goes to the peer and under the timeout and
      retry count it was first sent with, and the callback told of it is its sender's. */
  lemma {:induction false} RunFaithful(s: Setup, steps: seq<Step>)
    requires s.handles.Valid() && Run(s, steps)
    ensures Faithful(After(s, steps))
  {
    hide Take, Legal, Sound;
    if steps != [] {
      var init := steps[..|steps| - 1];
      RunFaithful(s, init);
      RunSound(s, init);
      StepFaithful(s, After(s, init), steps[|steps| - 1]);
    }
  }

  /** As many failures of this kind have come one after another as there are retries for. */
  predicate Spent(s: Setup, p: Pending, f: Failure) {
    if f == Discovery then p.discovery >= s.discoveryRetries else p.retries >= p.query.retryCount
  }

  /** What an answer has a pending request's sender told. A failure is told as itself once
      its retries are spent; before that, a retry that cannot be sent is told instead; and
      nothing of a failure that cannot be read. */
  function Notice(s: Setup, p: Pending, answer: Answer, sent: Sent): Option<Outcome> {
    match answer
    case Good => Some(Response)
    case Mismatched => Some(BadResponse)
    case Interrupted => None
    case Failed(Blank) => None
    case Failed(f) =>
      if Spent(s, p, f) then Some(Error(f))
      else if sent.Fails? && sent.exc == Status then Some(SendError)
      else None
  }

  /** The request a step answers or fails, and with what: a sweep fails what is due, as timed
      out if it is the clock's and as unreachable if a transport lost the peer. */
  function Strikes(w: World, step: Step): Option<(Handle, Answer, Sent)> {
    match step
    case Respond(h, answer, sent) => if h in w.cache then Some((h, answer, sent)) else None
    case Report(h, f, sent) => if h in w.cache then Some((h, Failed(f), sent)) else None
    case Next(sent) =>
      if w.sweep.None? || w.sweep.value.todo == [] then None
      else
        var cause, item := w.sweep.value.cause, w.sweep.value.todo[0];
        if Due(cause, item.entry, w.ticks) then
          Some((item.handle, Failed(if cause == Clock then TimedOut else Unreachable), sent))
        else None
    case _ => None
  }

  /** The request whose sender a step calls back, if it does, and what it is told. */
  function Callback(s: Setup, w: World, step: Step): Option<(nat, Query, Outcome)> {
    match Strikes(w, step)
    case None => None
    case Some((h, answer, sent)) =>
      if h !in w.pending then None
      else
        var p := w.pending[h];
        match Notice(s, p, answer, sent)
        case None => None
        case Some(outcome) => Some((p.tally.request, p.query, outcome))
  }

  /** How one step extends what has been told. */
  predicate Tells(before: seq<Told>, after: seq<Told>, call: Option<(nat, Query, Outcome)>) {
    match call
    case None => after == before
    case Some((request, query, outcome)) =>
      && |after| == |before| + 1 && after[..|before|] == before
      && var t := after[|before|];
         t.request == request && t.query == query && t.outcome == outcome
  }

  lemma SpentIsExceeded(s: Setup, p: Pending, f: Failure)
    ensures Exceeded(s, Counted(p, f)) <==> Spent(s, p, f)
    ensures Counted(p, f).query == p.query
  {
  }

  lemma ProcessTells(s: Setup, w: World, h: Handle, request: nat, answer: Answer, sent: Sent)
    requires s.handles.Valid() && (h in w.pending ==> w.pending[h].tally.request == request)
    ensures Tells(w.told, Process(s, w, h, request, answer, sent).0.told,
                  if h !in w.pending then None
                  else match Notice(s, w.pending[h], answer, sent)
                       case None => None
                       case Some(outcome) => Some((request, w.pending[h].query, outcome)))
  {
    if h in w.pending && answer.Failed? {
      SpentIsExceeded(s, w.pending[h], answer.failure);
    }
    hide NextHandle, Cached, Exceeded, Spent, Counted;
  }

  /** A step makes at most one final callback, to the sender of the request it strikes, and
      it says why: a failure is told as itself if and only if the retries for it are spent,
      and as a send that failed if and only if they are not and the retry raised a
      `StatusInformation`. */
  lemma CallbackSaysWhy(s: Setup, w: World, step: Step)
    requires s.handles.Valid() && Sound(s, w) && Legal(s, w, step)
    ensures Tells(w.told, Take(s, w, step).told, Callback(s, w, step))
  {
    hide Process, Due, Room, Sound, NextHandle, Cached, Notice, Tells;
    match step {
      case Respond(h, answer, sent) =>
        if h in w.cache {
          Outstanding(s, w, h);
          ProcessTells(s, Taken(w, h), h, w.cache[h].request, answer, sent);
        }
      case Report(h, f, sent) =>
        if h in w.cache {
          Outstanding(s, w, h);
          ProcessTells(s, Taken(w, h), h, w.cache[h].request, Failed(f), sent);
        }
      case Next(sent) =>
        var item := w.sweep.value.todo[0];
        TodoCached(s, w);
        Outstanding(s, w, item.handle);
        ProcessTells(s, Taken(w, item.handle), item.handle, item.entry.request,
                     Failed(FailureFor(w.sweep.value.cause)), sent);
      case _ =>
    }
    TellsNothing(w.told);
  }

  lemma TellsNothing(told: seq<Told>)
    ensures Tells(told, told, None)
  {
  }

  /** A failure that can be read and whose retries are not spent sends the request again,
      under the next handle, for the same sender and with that kind of failure counted, the
      other kind's count starting over. */
  lemma FailureSendsAgain(s: Setup, w: World, h: Handle, f: Failure)
    requires s.handles.Valid() && Sound(s, w) && Room(s, w) && h in w.cache && h in w.pending
    requires f != Blank && !Spent(s, w.pending[h], f)
    ensures var p, v := w.pending[h], Take(s, w, Report(h, f, Delivered));
            && v.pending.Keys == w.pending.Keys - {h} + {NextHandle(s, w)}
            && v.cache.Keys == w.cache.Keys - {h} + {NextHandle(s, w)}
            && v.jobs == w.jobs && v.told == w.told && v.lost == w.lost
            && var q := v.pending[NextHandle(s, w)];
               && q.query == p.query && q.tally.request == p.tally.request
               && q.tally.sent == p.tally.sent + 1 && q.tally.at == w.ticks
               && q.discovery == (if f == Discovery then p.discovery + 1 else 0)
               && q.retries == (if f == Discovery then 0 else p.retries + 1)
  {
    Outstanding(s, w, h);
    FreshHandle(s, w);
    hide NextId.Issued, Sound, Room;
    SpentIsExceeded(s, w.pending[h], f);
  }

  // --------------------------------------------------- late responses

  lemma ProcessCaches(s: Setup, w: World, h: Handle, request: nat, answer: Answer, sent: Sent, k: Handle)
    requires s.handles.Valid()
    ensures var v := Process(s, w, h, request, answer, sent).0;
            && w.draws <= v.draws
            && (k in v.cache ==> k in w.cache || (k == NextHandle(s, w) && w.draws < v.draws))
  {
    hide NextId.Issued;
  }

  lemma StepCaches(s: Setup, w: World, step: Step, k: Handle)
    requires s.handles.Valid()
    ensures var v := Take(s, w, step);
            && w.draws <= v.draws
            && (k in v.cache ==> k in w.cache || (k == NextHandle(s, w) && w.draws < v.draws))
  {
    hide NextHandle, Process, Due;
    match step {
      case Submit(q, sent) =>
        SameNext(s, w.(asked := w.asked + [Asked(q, w.ticks)]), w);
      case Respond(h, answer, sent) =>
        AnswerCaches(s, w, h, answer, sent, k);
      case Report(h, f, sent) =>
        AnswerCaches(s, w, h, Failed(f), sent, k);
      case Next(sent) =>
        if w.sweep.Some? && w.sweep.value.todo != [] {
          var item, t := w.sweep.value.todo[0], Taken(w, w.sweep.value.todo[0].handle);
          SameNext(s, t, w);
          ProcessCaches(s, t, item.handle, item.entry.request, Failed(FailureFor(w.sweep.value.cause)), sent, k);
        }
      case _ =>
    }
  }

  lemma AnswerCaches(s: Setup, w: World, h: Handle, answer: Answer, sent: Sent, k: Handle)
    requires s.handles.Valid()
    ensures var v := Answered(s, w, h, answer, sent).0;
            && w.draws <= v.draws
            && (k in v.cache ==> k in w.cache || (k == NextHandle(s, w) && w.draws < v.draws))
  {
    hide NextHandle, Process;
    if h in w.cache {
      SameNext(s, Taken(w, h), w);
      ProcessCaches(s, Taken(w, h), h, w.cache[h].request, answer, sent, k);
    }
  }

  /** A handle that has been given up is not cached again while the generator has issued
      no more than it issues without repeating itself. */
  lemma {:induction false} RetiredStaysRetired(s: Setup, steps: seq<Step>, from: nat, index: nat)
    requires s.handles.Valid() && from <= |steps|
    requires index < Prefix(s, steps, from).draws && NextId.Issued(s.handles, index) !in Prefix(s, steps, from).cache
    requires After(s, steps).draws <= index + s.handles.maximum + 1
    ensures NextId.Issued(s.handles, index) !in After(s, steps).cache
    ensures index < After(s, steps).draws
  {
    var n: nat := |steps|;
    if from == n {
      assert steps[..from] == steps;
    } else {
      var init, step := steps[..n - 1], steps[n - 1];
      var w := After(s, init);
      assert init[..from] == steps[..from];
      StepCaches(s, w, step, NextId.Issued(s.handles, index));
      RetiredStaysRetired(s, init, from, index);
      if w.draws <= index + s.handles.maximum {
        NextId.ConsecutiveValuesDistinct(s.handles, index, w.draws);
      }
    }
  }

  /** So a late or second response, whatever it says, is not taken for an answer to
      another request: it changes nothing. */
  lemma LateResponseIgnored(s: Setup, steps: seq<Step>, from: nat, index: nat, answer: Answer, sent: Sent)
    requires s.handles.Valid() && from <= |steps|
    requires index < Prefix(s, steps, from).draws && NextId.Issued(s.handles, index) !in Prefix(s, steps, from).cache
    requires After(s, steps).draws <= index + s.handles.maximum + 1
    ensures Take(s, After(s, steps), Respond(NextId.Issued(s.handles, index), answer, sent)) == After(s, steps)
  {
    RetiredStaysRetired(s, steps, from, index);
    hide NextId.Issued, After;
  }

  /** A response in time that is heard out ends its own request, with what it says, and
      touches no other. */
  lemma ResponseEndsItsRequest(s: Setup, steps: seq<Step>, h: Handle, good: bool, sent: Sent)
    requires s.handles.Valid() && Run(s, steps) && h in After(s, steps).pending && h in After(s, steps).cache
    ensures var w, answer := After(s, steps), if good then Good else Mismatched;
            var p := w.pending[h];
            var v := Take(s, w, Respond(h, answer, sent));
            && v.cache == w.cache - {h} && v.pending == w.pending - {h} && v.jobs == w.jobs - 1
            && v.told == w.told + [Told(p.tally.request, if good then Response else BadResponse, p.query, p.tally)]
            && v.lost == w.lost && v.draws == w.draws && h !in v.cache
  {
    RunSound(s, steps);
    AgreeMatches(After(s, steps), h);
    hide After, Run, Sound, NextId.Issued;
  }

  // -------------------------------------------------- lost requests

  /** A failure that costs a request its callback: one the command generator cannot read,
      or a retry that fails with an error that is not a `StatusInformation`. */
  predicate Forfeits(s: Setup, w: World, h: Handle, answer: Answer, sent: Sent) {
    || (h in w.pending && answer == Failed(Blank))
    || (Retries(s, w, h, answer) && sent.Fails? && sent.exc != Status)
  }

  predicate Drops(s: Setup, w: World, step: Step) {
    match step
    case Respond(h, answer, sent) => h in w.cache && Forfeits(s, w, h, answer, sent)
    case Report(h, f, sent) => h in w.cache && Forfeits(s, w, h, Failed(f), sent)
    case Next(sent) =>
      && w.sweep.Some? && w.sweep.value.todo != []
      && var sw := w.sweep.value;
         Due(sw.cause, sw.todo[0].entry, w.ticks)
         && Forfeits(s, w, sw.todo[0].handle, Failed(FailureFor(sw.cause)), sent)
    case _ => false
  }

  lemma ProcessLoses(s: Setup, w: World, h: Handle, request: nat, answer: Answer, sent: Sent)
    requires s.handles.Valid()
    ensures var lost := Process(s, w, h, request, answer, sent).0.lost;
            if Forfeits(s, w, h, answer, sent) then |lost| == |w.lost| + 1 else lost == w.lost
  {
  }

  lemma StepLoses(s: Setup, w: World, step: Step)
    requires s.handles.Valid() && Legal(s, w, step)
    ensures var lost := Take(s, w, step).lost;
            if Drops(s, w, step) then |lost| == |w.lost| + 1 else lost == w.lost
  {
    hide Process, Forfeits, Due, Room, NextHandle;
    match step {
      case Respond(h, answer, sent) =>
        if h in w.cache {
          AnswerLoses(s, w, h, answer, sent);
        }
      case Report(h, f, sent) =>
        if h in w.cache {
          AnswerLoses(s, w, h, Failed(f), sent);
        }
      case Next(sent) =>
        var item := w.sweep.value.todo[0];
        AnswerLoses(s, w, item.handle, Failed(FailureFor(w.sweep.value.cause)), sent);
        ProcessLoses(s, Taken(w, item.handle), item.handle, item.entry.request,
                     Failed(FailureFor(w.sweep.value.cause)), sent);
      case _ =>
    }
  }

  lemma AnswerLoses(s: Setup, w: World, h: Handle, answer: Answer, sent: Sent)
    requires s.handles.Valid()
    ensures Forfeits(s, Taken(w, h), h, answer, sent) == Forfeits(s, w, h, answer, sent)
    ensures h in w.cache ==>
              var lost := Answered(s, w, h, answer, sent).0.lost;
              if Forfeits(s, w, h, answer, sent) then |lost| == |w.lost| + 1 else lost == w.lost
  {
    hide Process;
    if h in w.cache {
      ProcessLoses(s, Taken(w, h), h, w.cache[h].request, answer, sent);
    }
  }

  ghost predicate NeverDrops(s: Setup, steps: seq<Step>)
    requires s.handles.Valid()
  {
    forall n: nat :: n < |steps| ==> !Drops(s, Prefix(s, steps, n), steps[n])
  }

  /** No request is dropped without its callback if and only if no failure of the run is
      one the command generator cannot read and no retry fails with an error other than a
      `StatusInformation`. */
  lemma {:induction false} NoneLostIff(s: Setup, steps: seq<Step>)
    requires s.handles.Valid() && Run(s, steps)
    ensures After(s, steps).lost == [] <==> NeverDrops(s, steps)
  {
    hide Take, Legal, Drops;
    if steps != [] {
      var n: nat := |steps| - 1;
      var init := steps[..n];
      NoneLostIff(s, init);
      StepLoses(s, After(s, init), steps[n]);
      assert forall k: nat :: k < n ==> init[..k] == steps[..k] && init[k] == steps[k];
      if NeverDrops(s, steps) {
        forall k: nat | k < n
          ensures !Drops(s, Prefix(s, init, k), init[k])
        {
          assert !Drops(s, Prefix(s, steps, k), steps[k]);
        }
        assert !Drops(s, Prefix(s, steps, n), steps[n]);
      } else {
        var k: nat :| k < |steps| && Drops(s, Prefix(s, steps, k), steps[k]);
        assert k < n ==> Drops(s, Prefix(s, init, k), init[k]);
      }
    }
  }

  // --------------------------------------------- forsaken requests

  /** A request still pending that nothing will ever answer, sweep or fail. */
  ghost predicate Forsaken(w: World, h: Handle) {
    h in w.pending && h !in w.cache
  }

  /** A response to `h` that an observer interrupts. */
  predicate ForsakesAt(w: World, step: Step, h: Handle) {
    step.Respond? && step.answer == Interrupted && step.handle == h && h in w.cache && h in w.pending
  }

  lemma ProcessForsakes(s: Setup, w: World, h: Handle, request: nat, answer: Answer, sent: Sent, k: Handle)
    requires s.handles.Valid() && NextHandle(s, w) !in w.pending && NextHandle(s, w) !in w.cache
    requires answer != Interrupted && h !in w.cache
    ensures Forsaken(Process(s, w, h, request, answer, sent).0, k) <==> Forsaken(w, k) && k != h
  {
    hide NextId.Issued, Exceeded;
  }

  /** A request is forsaken by an interrupted response and by nothing else, and for good. */
  lemma StepForsakes(s: Setup, w: World, step: Step, k: Handle)
    requires s.handles.Valid() && Sound(s, w) && Legal(s, w, step)
    ensures Forsaken(Take(s, w, step), k)
            <==> Forsaken(w, k) || ForsakesAt(w, step, k)
  {
    hide Sound, Room, Process, Due, NextHandle, Cached;
    match step {
      case Submit(q, sent) =>
        FreshStores(s, w);
        SameNext(s, w.(asked := w.asked + [Asked(q, w.ticks)]), w);
        SubmitForsakes(s, w, q, sent, k);
      case Respond(h, answer, sent) =>
        AnswerForsakes(s, w, h, answer, sent, k);
      case Report(h, f, sent) =>
        AnswerForsakes(s, w, h, Failed(f), sent, k);
      case Next(sent) =>
        var item := w.sweep.value.todo[0];
        TodoCached(s, w);
        FreshStores(s, w);
        var t := Taken(w, item.handle);
        SameNext(s, t, w);
        ProcessForsakes(s, t, item.handle, item.entry.request, Failed(FailureFor(w.sweep.value.cause)), sent, k);
      case Finish =>
        FinishSound(s, w);
      case _ =>
    }
  }

  lemma FreshStores(s: Setup, w: World)
    requires s.handles.Valid() && Sound(s, w) && Room(s, w)
    ensures NextHandle(s, w) !in w.cache && NextHandle(s, w) !in w.pending
  {
    FreshHandle(s, w);
  }

  lemma SubmitForsakes(s: Setup, w: World, q: Query, sent: Sent, k: Handle)
    requires s.handles.Valid() && NextHandle(s, w) !in w.pending && NextHandle(s, w) !in w.cache
    ensures Forsaken(Submitted(s, w, q, sent), k) <==> Forsaken(w, k)
  {
    hide NextId.Issued;
  }

  lemma AnswerForsakes(s: Setup, w: World, h: Handle, answer: Answer, sent: Sent, k: Handle)
    requires s.handles.Valid() && Sound(s, w) && Room(s, w)
    ensures Forsaken(Answered(s, w, h, answer, sent).0, k)
            <==> Forsaken(w, k) || (answer == Interrupted && h in w.cache && h == k && k in w.pending)
  {
    hide Sound, Room, Process, NextHandle;
    if h in w.cache {
      FreshStores(s, w);
      SameNext(s, Taken(w, h), w);
      if answer != Interrupted {
        ProcessForsakes(s, Taken(w, h), h, w.cache[h].request, answer, sent, k);
      } else {
        InterruptedTakes(s, w, h, sent);
      }
    }
  }

  lemma InterruptedTakes(s: Setup, w: World, h: Handle, sent: Sent)
    requires s.handles.Valid() && h in w.cache
    ensures Answered(s, w, h, Interrupted, sent) == (Taken(w, h), true)
  {
  }

  ghost predicate ForsakesNow(w: World, step: Step) {
    step.Respond? && ForsakesAt(w, step, step.handle)
  }

  ghost predicate NeverForsakes(s: Setup, steps: seq<Step>)
    requires s.handles.Valid()
  {
    forall n: nat :: n < |steps| ==> !ForsakesNow(Prefix(s, steps, n), steps[n])
  }

  ghost predicate NoneForsaken(w: World) {
    forall h :: !Forsaken(w, h)
  }

  /** Every pending request can still be answered or timed out if and only if no observer
      has interrupted the response to one. */
  lemma {:induction false} NoneForsakenIff(s: Setup, steps: seq<Step>)
    requires s.handles.Valid() && Run(s, steps)
    ensures NoneForsaken(After(s, steps)) <==> NeverForsakes(s, steps)
  {
    hide Take, Legal, Sound, ForsakesNow, Forsaken;
    if steps == [] {
      NoneForsakenIdle();
    } else {
      var n: nat := |steps| - 1;
      var init := steps[..n];
      NoneForsakenIff(s, init);
      RunSound(s, init);
      LastForsakes(s, After(s, init), steps[n]);
      assert forall k: nat :: k < n ==> init[..k] == steps[..k] && init[k] == steps[k];
      if NeverForsakes(s, steps) {
        forall k: nat | k < n
          ensures !ForsakesNow(Prefix(s, init, k), init[k])
        {
          assert !ForsakesNow(Prefix(s, steps, k), steps[k]);
        }
        assert !ForsakesNow(Prefix(s, steps, n), steps[n]);
      } else {
        var k: nat :| k < |steps| && ForsakesNow(Prefix(s, steps, k), steps[k]);
        assert k < n ==> ForsakesNow(Prefix(s, init, k), init[k]);
      }
    }
  }

  lemma NoneForsakenIdle()
    ensures NoneForsaken(Idle)
  {
  }

  lemma LastForsakes(s: Setup, w: World, step: Step)
    requires s.handles.Valid() && Sound(s, w) && Legal(s, w, step)
    ensures NoneForsaken(Take(s, w, step)) <==> NoneForsaken(w) && !ForsakesNow(w, step)
  {
    hide Take, Legal, Sound, Forsaken;
    forall h
      ensures Forsaken(Take(s, w, step), h) <==> Forsaken(w, h) || ForsakesAt(w, step, h)
    {
      StepForsakes(s, w, step, h);
    }
    if ForsakesNow(w, step) {
      assert Forsaken(Take(s, w, step), step.handle);
    }
  }

  /** A forsaken request stays so whatever happens: it is never called back, and its job
      never finishes. */
  lemma {:induction false} ForsakenForGood(s: Setup, steps: seq<Step>, from: nat, h: Handle)
    requires s.handles.Valid() && Run(s, steps) && from <= |steps|
    requires Forsaken(Prefix(s, steps, from), h)
    ensures Forsaken(After(s, steps), h) && 1 <= After(s, steps).jobs
    decreases |steps|
  {
    hide Take, Legal, Sound;
    if from == |steps| {
      assert steps[..from] == steps;
    } else {
      var n := |steps| - 1;
      assert steps[..n][..from] == steps[..from];
      ForsakenForGood(s, steps[..n], from, h);
      RunSound(s, steps[..n]);
      StepForsakes(s, After(s, steps[..n]), steps[n], h);
    }
    JobsCountPending(s, steps);
  }

  // ------------------------------------------------- such runs

  lemma FirstStep(s: Setup, q: Query, sent: Sent)
    requires s.handles.Valid()
    ensures Run(s, [Submit(q, sent)]) && After(s, [Submit(q, sent)]) == Take(s, Idle, Submit(q, sent))
  {
    assert [Submit(q, sent)][..0] == [];
    hide NextId.Issued;
  }

  /** One request, sent and then met by one thing more. */
  lemma TwoSteps(s: Setup, q: Query, step: Step)
    requires s.handles.Valid()
    requires (step.Respond? && step.handle == NextId.Issued(s.handles, 0))
             || (step.Report? && step.handle == NextId.Issued(s.handles, 0))
    ensures var w := Take(s, Idle, Submit(q, Delivered));
            Run(s, [Submit(q, Delivered), step]) && After(s, [Submit(q, Delivered), step]) == Take(s, w, step)
  {
    var steps := [Submit(q, Delivered), step];
    FirstStep(s, q, Delivered);
    assert steps[..1] == [Submit(q, Delivered)];
    hide NextId.Issued;
  }

  /** The first retry meets a transport error that is no `StatusInformation`. */
  lemma BrokenRetryLosesRequest(s: Setup, q: Query)
    requires s.handles.Valid() && q.retryCount > 0
    ensures var steps := [Submit(q, Delivered),
                          Report(NextId.Issued(s.handles, 0), Ordinary, Fails(Transport, PySnmp))];
            var w := After(s, steps);
            Run(s, steps) && w.accepted == [0] && w.lost == [0] && w.told == [] && w.pending == map[]
  {
    TwoSteps(s, q, Report(NextId.Issued(s.handles, 0), Ordinary, Fails(Transport, PySnmp)));
    hide NextId.Issued, After, Run;
  }

  /** A report without bindings comes back. */
  lemma BlankReportLosesRequest(s: Setup, q: Query, sent: Sent)
    requires s.handles.Valid()
    ensures var steps := [Submit(q, Delivered), Report(NextId.Issued(s.handles, 0), Blank, sent)];
            var w := After(s, steps);
            Run(s, steps) && w.accepted == [0] && w.lost == [0] && w.told == [] && w.pending == map[]
  {
    TwoSteps(s, q, Report(NextId.Issued(s.handles, 0), Blank, sent));
    hide NextId.Issued, After, Run;
  }

  /** A send that its entry outlives: an observer raises anything at `rfc3412.sendPdu`, or
      preparing or the transport raises what is not a `PySnmpError`. */
  lemma StrayingSendStrandsEntry(s: Setup, q: Query, sent: Sent)
    requires s.handles.Valid() && sent.Strays()
    ensures var w := After(s, [Submit(q, sent)]);
            var h := NextId.Issued(s.handles, 0);
            && Run(s, [Submit(q, sent)]) && w.pending == map[] && w.accepted == []
            && w.cache.Keys == {h} && w.cache[h].peer == None
  {
    FirstStep(s, q, sent);
    hide NextId.Issued, After, Run;
  }

  /** An observer raises a `StatusInformation` at `rfc3412.sendPdu` on a retry: the sender is
      told that it failed while the entry of the retry stays. */
  lemma ObservedRetryToldAndStranded(s: Setup, q: Query)
    requires s.handles.Valid() && q.retryCount > 0
    ensures var steps := [Submit(q, Delivered), Report(NextId.Issued(s.handles, 0), Ordinary, Fails(Observer, Status))];
            var w := After(s, steps);
            && Run(s, steps) && w.pending == map[] && w.lost == []
            && |w.told| == 1 && w.told[0].request == 0 && w.told[0].outcome == SendError
            && NextId.Issued(s.handles, 1) in w.cache
  {
    TwoSteps(s, q, Report(NextId.Issued(s.handles, 0), Ordinary, Fails(Observer, Status)));
    hide NextId.Issued, After, Run;
  }

  /** An observer raises at `rfc3412.receiveMessage:response`: the request is pending for
      good, out of the cache, with its job never finished. */
  lemma InterruptedResponseForsakes(s: Setup, q: Query, sent: Sent)
    requires s.handles.Valid()
    ensures var steps := [Submit(q, Delivered), Respond(NextId.Issued(s.handles, 0), Interrupted, sent)];
            var w := After(s, steps);
            && Run(s, steps) && w.accepted == [0] && w.lost == [] && w.told == [] && w.jobs == 1
            && w.cache == map[] && Forsaken(w, NextId.Issued(s.handles, 0))
  {
    TwoSteps(s, q, Respond(NextId.Issued(s.handles, 0), Interrupted, sent));
    hide NextId.Issued, After, Run;
  }

  // ---------------------------------------------------------- sweeps

  /** A request that the sweep under way has no business with. */
  ghost predicate Spared(s: Setup, w: World, h: Handle)
  {
    && w.sweep.Some? && (h in w.cache || h in w.pending)
    && (h in w.cache ==> !Due(w.sweep.value.cause, w.cache[h], w.ticks))
  }

  ghost predicate Same(v: World, w: World, h: Handle) {
    && (h in v.cache <==> h in w.cache) && (h in v.cache ==> v.cache[h] == w.cache[h])
    && (h in v.pending <==> h in w.pending) && (h in v.pending ==> v.pending[h] == w.pending[h])
    && v.ticks == w.ticks
  }

  lemma ProcessSpares(s: Setup, w: World, h: Handle, request: nat, answer: Answer, sent: Sent, k: Handle)
    requires s.handles.Valid() && k != h && k != NextHandle(s, w)
    ensures Same(Process(s, w, h, request, answer, sent).0, w, k)
  {
    hide NextId.Issued;
  }

  lemma StepSpares(s: Setup, w: World, step: Step, h: Handle)
    requires s.handles.Valid() && Sound(s, w) && Legal(s, w, step) && Spared(s, w, h)
    ensures var v := Take(s, w, step);
            && Same(v, w, h)
            && (v.sweep.Some? ==>
                  v.sweep.value.cause == w.sweep.value.cause && v.sweep.value.since == w.sweep.value.since)
  {
    hide Known, KnownPending, Agree, Ahead, NextHandle, Process, Due, Room;
    match step {
      case Submit(q, sent) =>
        FreshHandle(s, w);
        SameNext(s, w.(asked := w.asked + [Asked(q, w.ticks)]), w);
      case Next(sent) =>
        var item := w.sweep.value.todo[0];
        TodoCached(s, w);
        if Due(w.sweep.value.cause, item.entry, w.ticks) {
          FreshHandle(s, w);
          var t := Taken(w, item.handle);
          SameNext(s, t, w);
          var f := Failed(FailureFor(w.sweep.value.cause));
          ProcessSpares(s, t, item.handle, item.entry.request, f, sent, h);
        }
      case Finish =>
        FinishSound(s, w);
      case _ =>
    }
  }

  /** From `Begin` on, for as long as the sweep goes on and to the state it ends in. */
  ghost predicate WithinSweep(s: Setup, steps: seq<Step>, from: nat)
    requires s.handles.Valid() && from <= |steps|
  {
    forall n: nat :: from <= n < |steps| ==> Prefix(s, steps, n).sweep.Some?
  }

  /** No sweep touches a request before its timeout has passed, or one that is bound for
      another peer than the one lost, whatever callbacks send or raise meanwhile. */
  lemma {:induction false} SweepSparesTheRest(s: Setup, steps: seq<Step>, from: nat, h: Handle)
    requires s.handles.Valid() && Run(s, steps) && from <= |steps| && WithinSweep(s, steps, from)
    requires Spared(s, Prefix(s, steps, from), h)
    ensures Same(After(s, steps), Prefix(s, steps, from), h)
    ensures After(s, steps).sweep.Some? ==> Spared(s, After(s, steps), h)
    decreases |steps| - from
  {
    hide Take, Legal, Sound, Due;
    if from == |steps| {
      assert steps[..from] == steps;
    } else {
      var w := Prefix(s, steps, from);
      PrefixStep(s, steps, from);
      RunSound(s, steps[..from]);
      StepSpares(s, w, steps[from], h);
      var v := Prefix(s, steps, from + 1);
      if from + 1 < |steps| {
        assert v.sweep.Some?;
        SweepSparesTheRest(s, steps, from + 1, h);
      } else {
        assert steps[..from + 1] == steps;
      }
    }
  }

  /** In the command generator's terms: no clock sweep fails a request while the timeout
      of its last transmission still runs. */
  lemma NoEarlyTimeout(s: Setup, steps: seq<Step>, from: nat, h: Handle)
    requires s.handles.Valid() && Run(s, steps) && from <= |steps| && WithinSweep(s, steps, from)
    requires var w := Prefix(s, steps, from);
             && w.sweep.Some? && w.sweep.value.cause == Clock && h in w.pending
             && w.ticks as real < w.pending[h].query.timeout + w.pending[h].tally.at as real
    ensures h in After(s, steps).pending && After(s, steps).pending[h] == Prefix(s, steps, from).pending[h]
  {
    var w := Prefix(s, steps, from);
    RunPrefix(s, steps, from);
    RunSound(s, steps[..from]);
    if h in w.cache {
      AgreeMatches(w, h);
    }
    SweepSparesTheRest(s, steps, from, h);
  }

  /** And a transport that lost a peer fails only that peer's requests. */
  lemma OtherPeersUntouched(s: Setup, steps: seq<Step>, from: nat, h: Handle)
    requires s.handles.Valid() && Run(s, steps) && from <= |steps| && WithinSweep(s, steps, from)
    requires var w := Prefix(s, steps, from);
             && w.sweep.Some? && w.sweep.value.cause.PeerLost? && h in w.pending
             && w.sweep.value.cause.peer != w.pending[h].query.peer
    ensures h in After(s, steps).pending && After(s, steps).pending[h] == Prefix(s, steps, from).pending[h]
  {
    var w := Prefix(s, steps, from);
    RunPrefix(s, steps, from);
    RunSound(s, steps[..from]);
    if h in w.cache {
      AgreeMatches(w, h);
    }
    SweepSparesTheRest(s, steps, from, h);
  }

  /** A sweep that comes to its end has failed everything due that was outstanding when it
      began: what is due now was sent by its own callbacks and retries. */
  lemma SweepIsThorough(s: Setup, steps: seq<Step>, h: Handle)
    requires s.handles.Valid() && Run(s, steps) && Legal(s, After(s, steps), End)
    ensures var w := After(s, steps);
            h in w.cache && w.cache[h].drawn < w.sweep.value.since ==>
              match w.sweep.value.cause
              case Clock => w.ticks as real < w.cache[h].deadline
              case PeerLost(peer) => w.cache[h].peer != Some(peer)
  {
    RunSound(s, steps);
    hide NextId.Issued;
    var w := After(s, steps);
    assert !Remains(h, w.sweep.value.todo);
  }
}
