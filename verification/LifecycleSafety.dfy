/** What holds in every reachable state of the request lifecycle. */
module LifecycleSafety {
  import opened Wrappers
  import opened Lifecycle
  import NextId

  // ------------------------------------------------------ the two stores

  predicate Matches(e: Entry, p: Pending) {
    && e.request == p.tally.request && e.peer == Some(p.query.peer) && e.drawn == p.tally.drawn
    && e.deadline == p.query.timeout + p.tally.at as real
  }

  predicate Drawn(s: Setup, draws: nat, h: Handle, drawn: nat)
    requires s.handles.Valid()
  {
    drawn < draws && h == NextId.Issued(s.handles, drawn)
  }

  /** Every handle in the cache is the generator's. */
  ghost predicate Known(s: Setup, cache: map<Handle, Entry>, draws: nat)
    requires s.handles.Valid()
  {
    forall h :: h in cache ==> Drawn(s, draws, h, cache[h].drawn)
  }

  /** So is every pending one. */
  ghost predicate KnownPending(s: Setup, pending: map<Handle, Pending>, draws: nat)
    requires s.handles.Valid()
  {
    forall h :: h in pending ==> Drawn(s, draws, h, pending[h].tally.drawn)
  }

  /** Every pending request is one job, and if it is cached it is for the same request and
      peer, until its timeout has passed since it was last sent. */
  ghost predicate Agree(cache: map<Handle, Entry>, pending: map<Handle, Pending>, jobs: int) {
    && jobs == |pending|
    && (forall h :: h in pending && h in cache ==> Matches(cache[h], pending[h]))
  }

  lemma AgreeTaken(cache: map<Handle, Entry>, pending: map<Handle, Pending>, jobs: int, h: Handle)
    requires Agree(cache, pending, jobs)
    ensures Agree(cache - {h}, pending, jobs)
    ensures h in pending ==> Agree(cache - {h}, pending - {h}, jobs - 1)
  {
  }

  /** What was cached stays as it was, and anything else is newly drawn. */
  ghost predicate Grown(before: map<Handle, Entry>, after: map<Handle, Entry>, draws: nat) {
    && (forall h :: h in before ==> h in after && after[h] == before[h])
    && (forall h :: h in after && h !in before ==> draws <= after[h].drawn)
  }

  /** With room, the next handle is not one outstanding. */
  lemma FreshHandle(s: Setup, w: World)
    requires s.handles.Valid() && Stores(s, w) && Room(s, w)
    ensures NextHandle(s, w) !in w.cache && NextHandle(s, w) !in w.pending
  {
    forall h | h in w.cache
      ensures h != NextHandle(s, w)
    {
      assert Drawn(s, w.draws, h, w.cache[h].drawn) && Recent(s, w, w.cache[h].drawn);
      NextId.ConsecutiveValuesDistinct(s.handles, w.cache[h].drawn, w.draws);
    }
    forall h | h in w.pending
      ensures h != NextHandle(s, w)
    {
      assert Drawn(s, w.draws, h, w.pending[h].tally.drawn) && Recent(s, w, w.pending[h].tally.drawn);
      NextId.ConsecutiveValuesDistinct(s.handles, w.pending[h].tally.drawn, w.draws);
    }
  }

  lemma FreshInSweep(s: Setup, w: World, item: Item)
    requires s.handles.Valid() && Room(s, w)
    requires w.sweep.Some? && w.sweep.value.current == Some(item) && Drawn(s, w.draws, item.handle, item.entry.drawn)
    ensures NextHandle(s, w) != item.handle
  {
    NextId.ConsecutiveValuesDistinct(s.handles, item.entry.drawn, w.draws);
  }

  ghost predicate Stores(s: Setup, w: World)
    requires s.handles.Valid()
  {
    Known(s, w.cache, w.draws) && KnownPending(s, w.pending, w.draws) && Agree(w.cache, w.pending, w.jobs)
  }

  lemma CachedKeeps(s: Setup, cache: map<Handle, Entry>, draws: nat, h: Handle, e: Entry, sent: Sent)
    requires s.handles.Valid() && Known(s, cache, draws)
    requires h !in cache && h == NextId.Issued(s.handles, draws) && e.drawn == draws
    ensures var after := Cached(cache, h, e, sent);
            && Known(s, after, draws + 1) && (!sent.Draws() ==> Known(s, after, draws))
            && Grown(cache, after, draws)
            && after.Keys == if sent == Delivered || sent.Strays() then cache.Keys + {h} else cache.Keys
  {
    hide NextId.Issued;
  }

  lemma CachedAgrees(cache: map<Handle, Entry>, pending: map<Handle, Pending>, jobs: int,
                     h: Handle, e: Entry, p: Pending, sent: Sent)
    requires Agree(cache, pending, jobs) && h !in cache && h !in pending && Matches(e, p)
    ensures Agree(Cached(cache, h, e, sent), pending, jobs)
    ensures sent == Delivered ==> Agree(Cached(cache, h, e, sent), pending[h := p], jobs + 1)
  {
  }

  lemma PendingKeeps(s: Setup, pending: map<Handle, Pending>, draws: nat, h: Handle, p: Pending)
    requires s.handles.Valid() && KnownPending(s, pending, draws)
    requires h == NextId.Issued(s.handles, draws) && p.tally.drawn == draws
    ensures KnownPending(s, pending, draws + 1) && KnownPending(s, pending[h := p], draws + 1)
  {
    hide NextId.Issued;
  }

  /** The dispatcher and the command generator know of the same requests. */
  ghost predicate Even(w: World) {
    w.cache.Keys == w.pending.Keys
  }

  /** A failure that sends the request again. */
  predicate Retries(s: Setup, w: World, h: Handle, answer: Answer) {
    h in w.pending && answer.Failed? && answer.failure != Blank && !Exceeded(s, Counted(w.pending[h], answer.failure))
  }

  lemma DispatchKeeps(s: Setup, w: World, q: Query, request: nat, sent: Sent, p: Pending)
    requires s.handles.Valid() && Stores(s, w) && NextHandle(s, w) !in w.cache && NextHandle(s, w) !in w.pending
    requires p.query == q && p.tally.request == request && p.tally.at == w.ticks && p.tally.drawn == w.draws
    ensures var v, h := Dispatch(s, w, q, request, sent), NextHandle(s, w);
            && Stores(s, v) && Grown(w.cache, v.cache, w.draws)
            && (sent == Delivered ==> Stores(s, Track(v, h, p)))
            && v.cache.Keys == if sent == Delivered || sent.Strays() then w.cache.Keys + {h} else w.cache.Keys
  {
    hide Known, KnownPending, Agree, Grown, Cached, NextId.Issued;
    var h := NextHandle(s, w);
    var e := Entry(request, q.timeout + w.ticks as real, Some(q.peer), w.draws);
    CachedKeeps(s, w.cache, w.draws, h, e, sent);
    CachedAgrees(w.cache, w.pending, w.jobs, h, e, p, sent);
    PendingKeeps(s, w.pending, w.draws, h, p);
  }

  lemma ForgetKeeps(s: Setup, w: World, h: Handle)
    requires s.handles.Valid() && Stores(s, w) && h in w.cache
    ensures Stores(s, Taken(w, h)) && (h in w.pending ==> Stores(s, Forget(Taken(w, h), h)))
    ensures Even(w) && h in w.pending ==> Even(Forget(Taken(w, h), h))
  {
    AgreeTaken(w.cache, w.pending, w.jobs, h);
    hide NextId.Issued;
  }

  lemma RetryKeeps(s: Setup, w: World, request: nat, p: Pending, sent: Sent)
    requires s.handles.Valid() && Stores(s, w) && NextHandle(s, w) !in w.cache && NextHandle(s, w) !in w.pending
    requires p.tally.request == request
    ensures var v := Retry(s, w, request, p, sent).0;
            && Stores(s, v) && Grown(w.cache, v.cache, w.draws)
            && (Even(w) ==> (Even(v) <==> !sent.Strays()))
            && v.cache.Keys <= w.cache.Keys + {NextHandle(s, w)}
  {
    hide Known, KnownPending, Agree, Grown, Dispatch, NextHandle;
    DispatchKeeps(s, w, p.query, request, sent, Resent(p, w.ticks, w.draws));
    DispatchPending(s, w, p.query, request, sent);
  }

  lemma DispatchPending(s: Setup, w: World, q: Query, request: nat, sent: Sent)
    requires s.handles.Valid()
    ensures Dispatch(s, w, q, request, sent).pending == w.pending
  {
  }

  lemma ProcessKeeps(s: Setup, w: World, h: Handle, request: nat, answer: Answer, sent: Sent)
    requires s.handles.Valid() && Stores(s, w) && NextHandle(s, w) !in w.cache && NextHandle(s, w) !in w.pending
    requires h in w.cache && request == w.cache[h].request
    ensures var t := Taken(w, h);
            var v := Process(s, t, h, request, answer, sent).0;
            Stores(s, v) && Grown(t.cache, v.cache, w.draws) && h !in v.cache
    ensures Even(w) ==> (Even(Process(s, Taken(w, h), h, request, answer, sent).0)
                         <==> answer != Interrupted && !(sent.Strays() && Retries(s, w, h, answer)))
  {
    hide Known, KnownPending, Agree, Grown, Retry, NextHandle, Exceeded;
    ForgetKeeps(s, w, h);
    var t := Taken(w, h);
    assert Grown(t.cache, t.cache, w.draws) by { GrownSame(t.cache, w.draws); }
    if h in w.pending && answer.Failed? && answer.failure != Blank {
      var c := Counted(w.pending[h], answer.failure);
      assert c.tally.request == request by { AgreeMatches(w, h); }
      var v := Forget(t, h);
      assert NextHandle(s, v) == NextHandle(s, w) by { SameNext(s, v, w); }
      RetryKeeps(s, v, request, c, sent);
    }
  }

  lemma GrownSame(cache: map<Handle, Entry>, draws: nat)
    ensures Grown(cache, cache, draws)
  {
  }

  lemma SameNext(s: Setup, v: World, w: World)
    requires s.handles.Valid() && v.draws == w.draws
    ensures NextHandle(s, v) == NextHandle(s, w)
  {
  }

  lemma AgreeMatches(w: World, h: Handle)
    requires Agree(w.cache, w.pending, w.jobs) && h in w.pending && h in w.cache
    ensures Matches(w.cache[h], w.pending[h])
  {
  }

  // ------------------------------------------------------------ sweeps

  /** A snapshot's remaining items are all different, and still cached as they were. */
  ghost predicate Standing(cache: map<Handle, Entry>, todo: seq<Item>) {
    && (forall i, j :: 0 <= i < j < |todo| ==> todo[i].handle != todo[j].handle)
    && (forall i :: 0 <= i < |todo| ==> todo[i].handle in cache && cache[todo[i].handle] == todo[i].entry)
  }

  ghost predicate Remains(h: Handle, todo: seq<Item>) {
    exists i :: 0 <= i < |todo| && todo[i].handle == h
  }

  /** Whatever was due when the sweep began and is cached has yet to be swept. */
  ghost predicate Ahead(cache: map<Handle, Entry>, sw: Sweep, ticks: nat) {
    forall h :: h in cache && cache[h].drawn < sw.since && Due(sw.cause, cache[h], ticks) ==> Remains(h, sw.todo)
  }

  predicate Popped(s: Setup, cache: map<Handle, Entry>, draws: nat, item: Item)
    requires s.handles.Valid()
  {
    Drawn(s, draws, item.handle, item.entry.drawn) && item.handle !in cache
  }

  ghost predicate SweepOk(s: Setup, cache: map<Handle, Entry>, draws: nat, sw: Sweep, ticks: nat)
    requires s.handles.Valid()
  {
    && Standing(cache, sw.todo) && Ahead(cache, sw, ticks) && sw.since <= draws
    && (sw.current.Some? ==> Popped(s, cache, draws, sw.current.value))
  }

  ghost predicate Sound(s: Setup, w: World)
    requires s.handles.Valid()
  {
    && Stores(s, w)
    && (w.sweep.Some? ==> SweepOk(s, w.cache, w.draws, w.sweep.value, w.ticks))
  }

  lemma GrownSweep(s: Setup, before: map<Handle, Entry>, after: map<Handle, Entry>, draws: nat, later: nat,
                   sw: Sweep, ticks: nat)
    requires s.handles.Valid() && SweepOk(s, before, draws, sw, ticks)
    requires Grown(before, after, draws) && draws <= later
    requires sw.current.Some? ==> sw.current.value.handle !in after
    ensures SweepOk(s, after, later, sw, ticks)
  {
    hide NextId.Issued, Due;
  }

  lemma SkipItem(s: Setup, cache: map<Handle, Entry>, draws: nat, sw: Sweep, ticks: nat)
    requires s.handles.Valid() && SweepOk(s, cache, draws, sw, ticks)
    requires sw.current == None && sw.todo != []
    ensures !Due(sw.cause, sw.todo[0].entry, ticks) ==> SweepOk(s, cache, draws, sw.(todo := sw.todo[1..]), ticks)
    ensures SweepOk(s, cache - {sw.todo[0].handle}, draws, sw.(todo := sw.todo[1..]), ticks)
  {
    hide NextId.Issued, Due;
    var rest := sw.todo[1..];
    forall h | Remains(h, sw.todo) && h != sw.todo[0].handle
      ensures Remains(h, rest)
    {
      var i :| 0 <= i < |sw.todo| && sw.todo[i].handle == h;
      assert rest[i - 1].handle == h;
    }
    forall i, j | 0 <= i < j < |rest|
      ensures rest[i].handle != rest[j].handle
    {
      assert sw.todo[i + 1].handle != sw.todo[j + 1].handle;
    }
    forall i | 0 <= i < |rest|
      ensures rest[i].handle in cache - {sw.todo[0].handle} && cache[rest[i].handle] == rest[i].entry
    {
      assert rest[i] == sw.todo[i + 1] && sw.todo[0].handle != sw.todo[i + 1].handle;
    }
  }

  lemma {:induction false} SnapshotItems(cache: map<Handle, Entry>, order: seq<Handle>)
    requires forall i :: 0 <= i < |order| ==> order[i] in cache
    ensures |Snapshot(cache, order)| == |order|
    ensures forall i :: 0 <= i < |order| ==> Snapshot(cache, order)[i] == Item(order[i], cache[order[i]])
  {
    if order != [] {
      SnapshotItems(cache, order[1..]);
    }
  }

  lemma BeginSweep(s: Setup, cache: map<Handle, Entry>, draws: nat, order: seq<Handle>, cause: Cause, ticks: nat)
    requires s.handles.Valid() && Enumerates(order, cache.Keys)
    ensures SweepOk(s, cache, draws, Sweep(cause, Snapshot(cache, order), None, draws), ticks)
  {
    forall i | 0 <= i < |order|
      ensures order[i] in cache
    {
      assert order[i] in order;
    }
    SnapshotItems(cache, order);
    var todo := Snapshot(cache, order);
    forall h | h in cache
      ensures Remains(h, todo)
    {
      var i :| 0 <= i < |order| && order[i] == h;
      assert todo[i].handle == h;
    }
  }

  // ------------------------------------------------------- every step

  /** How a step's retry goes, if it makes one. */
  function RetryOf(s: Setup, w: World, step: Step): Option<Sent> {
    match step
    case Respond(h, answer, sent) => if h in w.cache && Retries(s, w, h, answer) then Some(sent) else None
    case Report(h, f, sent) => if h in w.cache && Retries(s, w, h, Failed(f)) then Some(sent) else None
    case Next(sent) =>
      if w.sweep.Some? && w.sweep.value.todo != [] then
        var sw := w.sweep.value;
        if Due(sw.cause, sw.todo[0].entry, w.ticks)
           && Retries(s, w, sw.todo[0].handle, Failed(FailureFor(sw.cause))) then Some(sent) else None
      else None
    case _ => None
  }

  /** A response whose observers raise: it is out of the cache and goes no further. */
  predicate Interrupts(w: World, step: Step) {
    step.Respond? && step.answer == Interrupted && step.handle in w.cache
  }

  /** A step that parts the dispatcher's cache from the pending requests: a send that
      leaves its entry behind, or an interrupted response. */
  predicate Strands(s: Setup, w: World, step: Step) {
    var retry := RetryOf(s, w, step);
    (step.Submit? && step.sent.Strays()) || (retry.Some? && retry.value.Strays()) || Interrupts(w, step)
  }

  lemma SubmitSound(s: Setup, w: World, q: Query, sent: Sent)
    requires s.handles.Valid() && Sound(s, w) && Room(s, w)
    ensures var v := Submitted(s, w, q, sent);
            Sound(s, v) && (Even(w) ==> (Even(v) <==> !sent.Strays()))
  {
    hide Known, KnownPending, Agree, Grown, SweepOk, Room, NextHandle, Dispatch;
    FreshHandle(s, w);
    var u := w.(asked := w.asked + [Asked(q, w.ticks)]);
    SameNext(s, u, w);
    var p := Pending(q, 0, 0, Tally(|w.asked|, 1, w.ticks, w.draws, 0));
    DispatchKeeps(s, u, q, |w.asked|, sent, p);
    DispatchRest(s, u, q, |w.asked|, sent);
    var v := Dispatch(s, u, q, |w.asked|, sent);
    if w.sweep.Some? {
      var sw := w.sweep.value;
      if sw.current.Some? {
        CurrentStaysOut(s, w, v.cache);
      }
      GrownSweep(s, w.cache, v.cache, w.draws, v.draws, sw, w.ticks);
    }
  }

  lemma DispatchRest(s: Setup, w: World, q: Query, request: nat, sent: Sent)
    requires s.handles.Valid()
    ensures var v := Dispatch(s, w, q, request, sent);
            && v.pending == w.pending && v.jobs == w.jobs && v.sweep == w.sweep && v.ticks == w.ticks
            && w.draws <= v.draws
  {
  }

  lemma CurrentStaysOut(s: Setup, w: World, after: map<Handle, Entry>)
    requires s.handles.Valid() && Sound(s, w) && Room(s, w)
    requires w.sweep.Some? && w.sweep.value.current.Some?
    requires after.Keys <= w.cache.Keys + {NextHandle(s, w)}
    ensures w.sweep.value.current.value.handle !in after
  {
    var item := w.sweep.value.current.value;
    assert Popped(s, w.cache, w.draws, item);
    FreshInSweep(s, w, item);
  }

  lemma AnswerSound(s: Setup, w: World, h: Handle, answer: Answer, sent: Sent)
    requires s.handles.Valid() && Sound(s, w) && Room(s, w) && w.sweep == None
    ensures var v := Answered(s, w, h, answer, sent).0;
            && Sound(s, v)
            && (Even(w) && h in w.cache ==>
                  (Even(v) <==> answer != Interrupted && !(sent.Strays() && Retries(s, w, h, answer))))
            && (h !in w.cache ==> v == w)
  {
    hide Known, KnownPending, Agree, Grown, Room, NextHandle, Process, Retries;
    FreshHandle(s, w);
    if h in w.cache {
      ProcessKeeps(s, w, h, w.cache[h].request, answer, sent);
      ProcessRest(s, Taken(w, h), h, w.cache[h].request, answer, sent);
    }
  }

  lemma ProcessRest(s: Setup, w: World, h: Handle, request: nat, answer: Answer, sent: Sent)
    requires s.handles.Valid()
    ensures var v := Process(s, w, h, request, answer, sent).0;
            v.sweep == w.sweep && v.ticks == w.ticks && w.draws <= v.draws && v.asked == w.asked
            && v.accepted == w.accepted
  {
  }

  lemma NextSound(s: Setup, w: World, sent: Sent)
    requires s.handles.Valid() && Sound(s, w) && Legal(s, w, Next(sent))
    ensures var v := Swept(s, w, sent);
            Sound(s, v) && (Even(w) ==> (Even(v) <==> !Strands(s, w, Next(sent))))
  {
    hide Known, KnownPending, Agree, Grown, SweepOk, Room, NextHandle, Process, Retries, Due, Popped, FailureFor;
    var sw := w.sweep.value;
    var item := sw.todo[0];
    SkipItem(s, w.cache, w.draws, sw, w.ticks);
    if Due(sw.cause, item.entry, w.ticks) {
      var f := Failed(FailureFor(sw.cause));
      TodoCached(s, w);
      FreshHandle(s, w);
      ProcessKeeps(s, w, item.handle, item.entry.request, f, sent);
      var t := Taken(w, item.handle);
      ProcessRest(s, t, item.handle, item.entry.request, f, sent);
      var v := Process(s, t, item.handle, item.entry.request, f, sent).0;
      var rest := sw.(todo := sw.todo[1..]);
      GrownSweep(s, t.cache, v.cache, w.draws, v.draws, rest, w.ticks);
      NowCurrent(s, v.cache, w.draws, v.draws, rest, w.ticks, item);
    }
  }

  lemma TodoCached(s: Setup, w: World)
    requires s.handles.Valid() && Sound(s, w) && w.sweep.Some? && w.sweep.value.todo != []
    ensures var item := w.sweep.value.todo[0];
            item.handle in w.cache && w.cache[item.handle] == item.entry
            && Drawn(s, w.draws, item.handle, item.entry.drawn)
  {
    hide NextId.Issued;
    assert w.sweep.value.todo[0].handle in w.cache;
  }

  lemma NowCurrent(s: Setup, cache: map<Handle, Entry>, draws: nat, later: nat, sw: Sweep, ticks: nat, item: Item)
    requires s.handles.Valid() && SweepOk(s, cache, later, sw, ticks)
    requires Drawn(s, draws, item.handle, item.entry.drawn) && draws <= later && item.handle !in cache
    ensures SweepOk(s, cache, later, sw.(current := Some(item)), ticks)
  {
    hide NextId.Issued;
    var now := sw.(current := Some(item));
    assert Ahead(cache, now, ticks);
  }

  lemma FinishSound(s: Setup, w: World)
    requires s.handles.Valid() && Sound(s, w) && Legal(s, w, Finish)
    ensures Take(s, w, Finish) == w.(sweep := Some(w.sweep.value.(current := None)))
    ensures Sound(s, Take(s, w, Finish))
  {
    hide NextId.Issued;
    var sw := w.sweep.value;
    assert Popped(s, w.cache, w.draws, sw.current.value);
    assert w.cache - {sw.current.value.handle} == w.cache;
    assert Ahead(w.cache, sw.(current := None), w.ticks);
  }

  /** No step breaks the stores, and only one that strands a request leaves them uneven. */
  lemma StepSound(s: Setup, w: World, step: Step)
    requires s.handles.Valid() && Sound(s, w) && Legal(s, w, step)
    ensures Sound(s, Take(s, w, step))
    ensures Even(w) ==> (Even(Take(s, w, step)) <==> !Strands(s, w, step))
  {
    hide Known, KnownPending, Agree, SweepOk, Room, Answered, Submitted, Swept, Retries;
    match step {
      case Submit(q, sent) => SubmitSound(s, w, q, sent);
      case Draw => DrawSound(s, w);
      case Respond(h, answer, sent) => AnswerSound(s, w, h, answer, sent);
      case Report(h, f, sent) => AnswerSound(s, w, h, Failed(f), sent);
      case Tick =>
      case Begin(order, cause) => BeginSweep(s, w.cache, w.draws, order, cause, w.ticks);
      case Next(sent) => NextSound(s, w, sent);
      case Finish => FinishSound(s, w);
      case Escape =>
      case End =>
    }
  }

  lemma DrawSound(s: Setup, w: World)
    requires s.handles.Valid() && Sound(s, w)
    ensures Sound(s, w.(draws := w.draws + 1))
  {
    hide NextId.Issued;
    if w.sweep.Some? {
      GrownSame(w.cache, w.draws);
      GrownSweep(s, w.cache, w.cache, w.draws, w.draws + 1, w.sweep.value, w.ticks);
    }
  }

  lemma {:induction false} RunSound(s: Setup, steps: seq<Step>)
    requires s.handles.Valid() && Run(s, steps)
    ensures Sound(s, After(s, steps))
  {
    hide Sound, Take;
    if steps == [] {
      IdleSound(s);
    } else {
      RunSound(s, steps[..|steps| - 1]);
      StepSound(s, After(s, steps[..|steps| - 1]), steps[|steps| - 1]);
    }
  }

  lemma IdleSound(s: Setup)
    requires s.handles.Valid()
    ensures Sound(s, Idle) && Even(Idle)
  {
  }
}
