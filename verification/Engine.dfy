/** The objects that keep the request lifecycle's state, each method proved to take the
    step of the machine that its name says. */
module Engine {
  import opened Wrappers
  import opened Lifecycle
  import LifecycleSafety
  import LifecycleRuns
  import NextId

  /** The dispatcher's record of requests sent and not yet answered. */
  class Cache {
    var repository: map<Handle, Entry>

    constructor ()
      ensures repository == map[]
    {
      repository := map[];
    }

    method Add(index: Handle, params: Entry)
      modifies this
      ensures repository == old(repository)[index := params]
    {
      repository := repository[index := params];
    }

    /** `None` where the handle is unknown. */
    method Pop(index: Handle) returns (params: Option<Entry>)
      modifies this
      ensures repository == old(repository) - {index}
      ensures params == if index in old(repository) then Some(old(repository)[index]) else None
    {
      if index !in repository {
        assert repository - {index} == repository;
        return None;
      }
      params := Some(repository[index]);
      repository := repository - {index};
    }

    /** Adds the peer to what is remembered; true is a `ProtocolError`. */
    method Update(index: Handle, peer: nat) returns (missed: bool)
      modifies this
      ensures missed <==> index !in old(repository)
      ensures missed ==> repository == old(repository)
      ensures !missed ==> repository == old(repository)[index := old(repository)[index].(peer := Some(peer))]
    {
      if index !in repository {
        return true;
      }
      repository := repository[index := repository[index].(peer := Some(peer))];
      return false;
    }
  }

  /** What one swept request meets: how its retry goes, and otherwise what its callback
      sends and whether it raises. */
  datatype Reply = Reply(sent: Sent, sends: seq<(Query, Sent)>, raises: bool)

  /** Steps taken one after the other. */
  function Follow(s: Setup, w: World, steps: seq<Step>): World
    requires s.handles.Valid()
    decreases |steps|
  {
    if steps == [] then w else Follow(s, Take(s, w, steps[0]), steps[1..])
  }

  ghost predicate Lawful(s: Setup, w: World, steps: seq<Step>)
    requires s.handles.Valid()
    decreases |steps|
  {
    steps != [] ==> Legal(s, w, steps[0]) && Lawful(s, Take(s, w, steps[0]), steps[1..])
  }

  lemma {:induction false} FollowOn(s: Setup, w: World, a: seq<Step>, b: seq<Step>)
    requires s.handles.Valid()
    ensures Follow(s, w, a + b) == Follow(s, Follow(s, w, a), b)
    ensures Lawful(s, w, a + b) <==> Lawful(s, w, a) && Lawful(s, Follow(s, w, a), b)
    decreases |a|
  {
    hide Take, Legal;
    if a == [] {
      assert a + b == b;
    } else {
      FollowOn(s, Take(s, w, a[0]), a[1..], b);
      assert (a + b)[0] == a[0] && (a + b)[1..] == a[1..] + b;
    }
  }

  /** An application's sends, one after the other. */
  function SendSteps(sends: seq<(Query, Sent)>): seq<Step> {
    if sends == [] then [] else [Submit(sends[0].0, sends[0].1)] + SendSteps(sends[1..])
  }

  /** One turn of the loop of `Cache.expire`: the callback, if there is one, sends and
      perhaps raises. */
  function ItemSteps(s: Setup, w: World, r: Reply): seq<Step>
    requires s.handles.Valid()
  {
    var v := Take(s, w, Next(r.sent));
    if v.sweep == None || v.sweep.value.current == None then [Next(r.sent)]
    else if |v.told| == |w.told| then [Next(r.sent), Finish]
    else [Next(r.sent)] + SendSteps(r.sends) + [if r.raises then Escape else Finish]
  }

  /** The whole loop, to its end or to the first exception. */
  function SweepSteps(s: Setup, w: World, replies: seq<Reply>): seq<Step>
    requires s.handles.Valid()
    decreases |replies|
  {
    if replies == [] then [End]
    else
      var item := ItemSteps(s, w, replies[0]);
      var v := Follow(s, w, item);
      if v.sweep == None then item else item + SweepSteps(s, v, replies[1..])
  }

  /** A sweep's next turn, and what is then left of it. */
  lemma SweepTurn(s: Setup, w: World, replies: seq<Reply>, i: nat)
    requires s.handles.Valid() && i < |replies|
    ensures var item := ItemSteps(s, w, replies[i]);
            var v := Follow(s, w, item);
            var left := if v.sweep == None then [] else SweepSteps(s, v, replies[i + 1..]);
            var all := SweepSteps(s, w, replies[i..]);
            && all == item + left && Follow(s, w, all) == Follow(s, v, left)
            && (Lawful(s, w, all) <==> Lawful(s, w, item) && Lawful(s, v, left))
            && Follow(s, v, []) == v
  {
    hide Take, Legal, ItemSteps;
    var item := ItemSteps(s, w, replies[i]);
    var v := Follow(s, w, item);
    FollowOn(s, w, item, if v.sweep == None then [] else SweepSteps(s, v, replies[i + 1..]));
    assert replies[i..][0] == replies[i] && replies[i..][1..] == replies[i + 1..];
    assert item + [] == item;
  }

  lemma SweepEnds(s: Setup, w: World, replies: seq<Reply>)
    requires s.handles.Valid() && replies == []
    ensures SweepSteps(s, w, replies) == [End]
    ensures Follow(s, w, [End]) == Take(s, w, End) && (Lawful(s, w, [End]) <==> Legal(s, w, End))
  {
    hide Take, Legal;
  }

  lemma NothingToSend(s: Setup, w: World, sends: seq<(Query, Sent)>)
    requires s.handles.Valid() && sends == []
    ensures SendSteps(sends) == [] && Follow(s, w, []) == w
  {
  }

  lemma OneStep(s: Setup, w: World, step: Step)
    requires s.handles.Valid()
    ensures Follow(s, w, [step]) == Take(s, w, step) && (Lawful(s, w, [step]) <==> Legal(s, w, step))
    ensures Follow(s, w, []) == w && Lawful(s, w, [])
  {
    hide Take, Legal;
  }

  /** A turn whose request has been dealt with: the callback's sends, if it was called,
      and its end. */
  lemma ItemInParts(s: Setup, w: World, v: World, r: Reply, sends: seq<Step>, last: Step)
    requires s.handles.Valid() && v == Take(s, w, Next(r.sent)) && v.sweep.Some? && v.sweep.value.current.Some?
    requires sends == if |v.told| == |w.told| then [] else SendSteps(r.sends)
    requires last == if |v.told| != |w.told| && r.raises then Escape else Finish
    ensures var u, steps := Follow(s, v, sends), ItemSteps(s, w, r);
            && steps == [Next(r.sent)] + sends + [last] && Follow(s, w, steps) == Take(s, u, last)
            && (Lawful(s, w, steps) <==>
                  Legal(s, w, Next(r.sent)) && Lawful(s, v, sends) && Legal(s, u, last))
  {
    hide Take, Legal, SendSteps;
    OneStep(s, w, Next(r.sent));
    FollowOn(s, w, [Next(r.sent)], sends);
    FollowOn(s, w, [Next(r.sent)] + sends, [last]);
    OneStep(s, Follow(s, v, sends), last);
    assert [Next(r.sent), Finish] == [Next(r.sent)] + [] + [Finish];
  }

  lemma SendTurn(s: Setup, w: World, sends: seq<(Query, Sent)>, i: nat)
    requires s.handles.Valid() && i < |sends|
    ensures var step, left := Submit(sends[i].0, sends[i].1), SendSteps(sends[i + 1..]);
            var v := Take(s, w, step);
            && SendSteps(sends[i..]) == [step] + left
            && Follow(s, w, SendSteps(sends[i..])) == Follow(s, v, left)
            && (Lawful(s, w, SendSteps(sends[i..])) <==> Room(s, w) && Lawful(s, v, left))
  {
    hide Take, Room;
    var step, left := Submit(sends[i].0, sends[i].1), SendSteps(sends[i + 1..]);
    assert sends[i..][0] == sends[i] && sends[i..][1..] == sends[i + 1..];
    assert ([step] + left)[1..] == left;
  }

  lemma {:induction false} SendsKeepSweep(s: Setup, w: World, sends: seq<(Query, Sent)>)
    requires s.handles.Valid()
    ensures Follow(s, w, SendSteps(sends)).sweep == w.sweep
    decreases |sends|
  {
    hide NextHandle, Cached;
    if sends != [] {
      var step := Submit(sends[0].0, sends[0].1);
      assert SendSteps(sends)[1..] == SendSteps(sends[1..]);
      SendsKeepSweep(s, Take(s, w, step), sends[1..]);
    }
  }

  /** The message and PDU dispatcher and the command generator above it. */
  class Manager {
    const setup: Setup
    const cache: Cache
    const handles: NextId.Integer
    var draws: nat
    var pendingReqs: map<Handle, Pending>
    var jobs: int
    var ticks: nat
    // History.
    var sweep: Option<Sweep>
    var asked: seq<Asked>
    var accepted: seq<nat>
    var told: seq<Told>
    var lost: seq<nat>
    ghost var trace: seq<Step>
    ghost var roomy: bool

    function Now(): World
      reads this, cache
    {
      World(cache.repository, pendingReqs, jobs, ticks, draws, sweep, asked, accepted, told, lost)
    }

    ghost predicate Ready()
      reads this, handles
    {
      && setup.handles.Valid() && handles.Valid()
      && setup.handles == handles.config && draws == handles.issued
    }

    /** What has happened is a run of the machine, as long as every send found room. */
    ghost predicate Valid()
      reads this, cache, handles
    {
      Ready() && Now() == After(setup, trace) && (roomy ==> Run(setup, trace))
    }

    /** `start` is the generator's first draw. */
    constructor (maximum: nat, increment: nat, start: nat, discoveryRetries: nat)
      requires NextId.Config(maximum, increment, start).Valid()
      ensures Valid() && Now() == Idle && trace == [] && roomy
      ensures setup == Setup(NextId.Config(maximum, increment, start), discoveryRetries)
      ensures fresh(cache) && fresh(handles)
    {
      setup := Setup(NextId.Config(maximum, increment, start), discoveryRetries);
      cache := new Cache();
      handles := new NextId.Integer(maximum, increment, start);
      draws, pendingReqs, jobs, ticks, sweep := 0, map[], 0, 0, None;
      asked, accepted, told, lost := [], [], [], [];
      trace, roomy := [], true;
    }

    /** A step that is legal given room has been taken. */
    ghost method Record(before: World, step: Step)
      requires setup.handles.Valid() && before == After(setup, trace) && (roomy ==> Run(setup, trace))
      requires Now() == Take(setup, before, step)
      requires Room(setup, before) ==> Legal(setup, before, step)
      modifies this`trace, this`roomy
      ensures trace == old(trace) + [step] && Now() == After(setup, trace) && (roomy ==> Run(setup, trace))
      ensures old(roomy) && Legal(setup, before, step) ==> roomy
    {
      hide Take, Legal, Room;
      roomy := roomy && Legal(setup, before, step);
      trace := trace + [step];
      assert trace[..|trace| - 1] == old(trace);
    }

    /** So what holds of every run holds of these objects. */
    lemma Consistent(r: nat)
      requires Valid() && roomy
      ensures jobs == |pendingReqs|
      ensures LifecycleRuns.NeverForsakes(setup, trace) ==> pendingReqs.Keys <= cache.repository.Keys
      ensures LifecycleRuns.NeverStrands(setup, trace) ==> pendingReqs.Keys == cache.repository.Keys
      ensures LifecycleRuns.InFlight(pendingReqs, r) + LifecycleRuns.Calls(told, r) + LifecycleRuns.Times(lost, r)
           == if r in accepted then 1 else 0
    {
      hide After, LifecycleRuns.NeverForsakes, LifecycleRuns.NeverStrands;
      LifecycleRuns.JobsCountPending(setup, trace);
      LifecycleRuns.NoneForsakenIff(setup, trace);
      if LifecycleRuns.NeverForsakes(setup, trace) {
        forall h | h in pendingReqs
          ensures h in cache.repository
        {
          assert !LifecycleRuns.Forsaken(Now(), h);
        }
      }
      if LifecycleRuns.NeverStrands(setup, trace) {
        LifecycleRuns.NoHandleIsMissing(setup, trace);
        assert Now().cache == cache.repository && Now().pending == pendingReqs;
        assert forall h :: h in pendingReqs.Keys <==> h in cache.repository.Keys;
      }
      LifecycleRuns.OneFinalCallback(setup, trace, r);
    }

    // ----------------------------------------- the message dispatcher

    /** `sendPdu`, for a confirmed PDU. */
    method DispatchPdu(q: Query, request: nat, sent: Sent) returns (handle: Handle)
      requires Ready()
      modifies this`draws, cache, handles
      ensures Ready() && Now() == Dispatch(setup, old(Now()), q, request, sent)
      ensures sent.Draws() ==> handle == NextHandle(setup, old(Now()))
    {
      hide NextId.Integer.Valid, NextId.Issued;
      if sent.Fails? && sent.place == Lookup {
        return 0;
      }
      handle := handles.Next();
      var deadline := q.timeout + ticks as real;
      cache.Add(handle, Entry(request, deadline, None, draws));
      draws := draws + 1;
      if sent.Fails? {
        var caught := sent.place != Observer && sent.exc != Foreign;
        if caught {
          var _ := cache.Pop(handle);
          assert cache.repository == old(cache.repository) - {handle};
        }
        return;
      }
      var missed := cache.Update(handle, q.peer);
      assert cache.repository == old(cache.repository)[handle := Entry(request, deadline, Some(q.peer), old(draws))];
    }

    /** A handle drawn for an unconfirmed PDU. */
    method DrawHandle()
      requires Valid()
      modifies this`draws, this`trace, this`roomy, handles
      ensures Valid() && Now() == Take(setup, old(Now()), Draw) && trace == old(trace) + [Draw]
      ensures old(roomy) ==> roomy
    {
      hide NextId.Integer.Valid, NextId.Issued, Run, After;
      var _ := handles.Next();
      draws := draws + 1;
      Record(old(Now()), Draw);
    }

    lemma InterruptedIs(w: World, h: Handle, sent: Sent)
      requires setup.handles.Valid() && h in w.cache
      ensures Answered(setup, w, h, Interrupted, sent) == (Taken(w, h), true)
    {
    }

    /** The response branch of `receiveMessage`; its observers may raise once the request is
        out of the cache. */
    method ReceiveResponse(h: Handle, answer: Answer, sent: Sent) returns (raised: bool)
      requires Valid() && sweep == None
      modifies this, cache, handles
      ensures Valid() && trace == old(trace) + [Respond(h, answer, sent)]
      ensures Now() == Take(setup, old(Now()), Respond(h, answer, sent))
      ensures raised == Answered(setup, old(Now()), h, answer, sent).1
      ensures old(roomy) && Room(setup, old(Now())) ==> roomy
    {
      hide NextId.Integer.Valid, NextId.Issued, Process, Room, Run, After;
      var params := cache.Pop(h);
      raised := false;
      if params == None {
        assert cache.repository == old(cache.repository);
      } else if answer == Interrupted {
        InterruptedIs(old(Now()), h, sent);
        raised := true;
      } else {
        raised := ProcessResponsePdu(h, params.value.request, answer, sent);
      }
      Record(old(Now()), Respond(h, answer, sent));
    }

    /** A dropped report in `receiveMessage`: an unknown handle is a `TypeError`. */
    method ReceiveReport(h: Handle, failure: Failure, sent: Sent) returns (raised: bool)
      requires Valid() && sweep == None
      modifies this, cache, handles
      ensures Valid() && trace == old(trace) + [Report(h, failure, sent)]
      ensures Now() == Take(setup, old(Now()), Report(h, failure, sent))
      ensures raised <==> h !in old(Now()).cache || Answered(setup, old(Now()), h, Failed(failure), sent).1
      ensures old(roomy) && Room(setup, old(Now())) ==> roomy
    {
      hide NextId.Integer.Valid, NextId.Issued, Process, Room, Run, After;
      var params := cache.Pop(h);
      if params == None {
        assert cache.repository == old(cache.repository);
        raised := true;
      } else {
        var _ := cache.Pop(h);
        assert cache.repository == old(cache.repository) - {h};
        raised := ProcessResponsePdu(h, params.value.request, Failed(failure), sent);
      }
      Record(old(Now()), Report(h, failure, sent));
    }

    // ------------------------------------------ the command generator

    /** `sendPdu` for a target; true where the dispatcher raised. */
    method SendPdu(q: Query, sent: Sent) returns (raised: bool)
      requires Valid()
      modifies this, cache, handles
      ensures Valid() && Now() == Take(setup, old(Now()), Submit(q, sent))
      ensures trace == old(trace) + [Submit(q, sent)] && (raised <==> sent != Delivered)
      ensures old(roomy) && Room(setup, old(Now())) ==> roomy
    {
      hide NextId.Integer.Valid, NextId.Issued, Cached, Room, Run, After;
      var request := |asked|;
      var drawn := draws;
      asked := asked + [Asked(q, ticks)];
      ghost var w := Now();
      var handle := DispatchPdu(q, request, sent);
      assert NextHandle(setup, w) == NextHandle(setup, old(Now()));
      raised := sent != Delivered;
      if !raised {
        jobs := jobs + 1;
        pendingReqs := pendingReqs[handle := Pending(q, 0, 0, Tally(request, 1, ticks, drawn, 0))];
        accepted := accepted + [request];
      }
      Record(old(Now()), Submit(q, sent));
    }

    /** `processResponsePdu`; true is an exception. */
    method ProcessResponsePdu(h: Handle, request: nat, answer: Answer, sent: Sent) returns (raised: bool)
      requires Ready() && answer != Interrupted
      modifies this`draws, this`pendingReqs, this`jobs, this`told, this`lost, cache, handles
      ensures Ready() && (Now(), raised) == Process(setup, old(Now()), h, request, answer, sent)
    {
      hide NextId.Integer.Valid, NextId.Issued, Cached;
      if h !in pendingReqs {
        return true;
      }
      var p := pendingReqs[h];
      pendingReqs, jobs := pendingReqs - {h}, jobs - 1;
      raised := false;
      match answer
      case Good =>
        told := told + [Told(request, Response, p.query, p.tally)];
      case Mismatched =>
        told := told + [Told(request, BadResponse, p.query, p.tally)];
      case Failed(f) =>
        if f == Blank {
          lost := lost + [request];
          return true;
        }
        if f == Discovery {
          p := p.(discovery := p.discovery + 1, retries := 0, tally := p.tally.(learned := p.tally.learned + 1));
        } else {
          p := p.(discovery := 0, retries := p.retries + 1);
        }
        if p.retries > p.query.retryCount || p.discovery > setup.discoveryRetries {
          told := told + [Told(request, Error(f), p.query, p.tally)];
          return;
        }
        var drawn := draws;
        var handle := DispatchPdu(p.query, request, sent);
        if sent == Delivered {
          jobs := jobs + 1;
          pendingReqs :=
            pendingReqs[handle := p.(tally := p.tally.(sent := p.tally.sent + 1, at := ticks, drawn := drawn))];
        } else if sent.exc == Status {
          told := told + [Told(request, SendError, p.query, p.tally)];
        } else {
          lost := lost + [request];
          raised := true;
        }
    }

    // ------------------------------------------------ ticks and sweeps

    method AdvanceClock()
      requires Valid() && sweep == None
      modifies this`ticks, this`trace, this`roomy
      ensures Valid() && Now() == Take(setup, old(Now()), Tick) && trace == old(trace) + [Tick]
      ensures old(roomy) ==> roomy
    {
      hide NextId.Integer.Valid, Run, After;
      ticks := ticks + 1;
      Record(old(Now()), Tick);
    }

    /** One item of the snapshot; the cached parameters are released even if they are gone. */
    method SweepNext(sent: Sent) returns (raised: bool)
      requires Valid() && sweep.Some? && sweep.value.current == None && sweep.value.todo != []
      modifies this, cache, handles
      ensures Valid() && Now() == Take(setup, old(Now()), Next(sent)) && trace == old(trace) + [Next(sent)]
      ensures old(roomy) && Room(setup, old(Now())) ==> roomy
      ensures raised <==> sweep == None
      ensures !raised ==> sweep.value.todo == old(sweep).value.todo[1..]
    {
      hide NextId.Integer.Valid, NextId.Issued, Process, Room, Run, After, Due;
      var item := sweep.value.todo[0];
      var rest := sweep.value.(todo := sweep.value.todo[1..]);
      raised := false;
      if !Due(rest.cause, item.entry, ticks) {
        sweep := Some(rest);
      } else {
        var _ := cache.Pop(item.handle);
        raised := ProcessResponsePdu(item.handle, item.entry.request, Failed(FailureFor(rest.cause)), sent);
        sweep := if raised then None else Some(rest.(current := Some(item)));
      }
      Record(old(Now()), Next(sent));
    }

    /** `if index in cache: del`, after the callback. */
    method SweepFinish()
      requires Valid() && sweep.Some? && sweep.value.current.Some?
      modifies this`sweep, this`trace, this`roomy, cache
      ensures Valid() && Now() == Take(setup, old(Now()), Finish) && trace == old(trace) + [Finish]
      ensures old(roomy) ==> roomy
    {
      hide NextId.Integer.Valid, NextId.Issued, Room, Run, After;
      var _ := cache.Pop(sweep.value.current.value.handle);
      sweep := Some(sweep.value.(current := None));
      Record(old(Now()), Finish);
    }

    /** What a callback sends. */
    method SendAll(sends: seq<(Query, Sent)>)
      requires Valid()
      modifies this, cache, handles
      ensures Valid() && Now() == Follow(setup, old(Now()), SendSteps(sends))
      ensures trace == old(trace) + SendSteps(sends) && sweep == old(sweep)
      ensures old(roomy) && Lawful(setup, old(Now()), SendSteps(sends)) ==> roomy
    {
      hide NextId.Integer.Valid, NextId.Issued, Take, Run, After, Legal, Room, Follow, Lawful, SendSteps;
      SendsKeepSweep(setup, Now(), sends);
      ghost var target := Follow(setup, Now(), SendSteps(sends));
      ghost var lawful := roomy && Lawful(setup, Now(), SendSteps(sends));
      assert sends[0..] == sends;
      for i := 0 to |sends|
        invariant Valid() && target == Follow(setup, Now(), SendSteps(sends[i..]))
        invariant trace + SendSteps(sends[i..]) == old(trace) + SendSteps(sends)
        invariant lawful ==> roomy && Lawful(setup, Now(), SendSteps(sends[i..]))
      {
        SendTurn(setup, Now(), sends, i);
        ghost var before := trace;
        var _ := SendPdu(sends[i].0, sends[i].1);
        assert before + ([Submit(sends[i].0, sends[i].1)] + SendSteps(sends[i + 1..]))
            == trace + SendSteps(sends[i + 1..]);
      }
      NothingToSend(setup, Now(), sends[|sends|..]);
      assert trace + [] == trace;
    }

    lemma SnapshotLength(entries: map<Handle, Entry>, order: seq<Handle>)
      requires Enumerates(order, entries.Keys)
      ensures |Snapshot(entries, order)| == |order|
    {
      forall i | 0 <= i < |order|
        ensures order[i] in entries
      {
        assert order[i] in order;
      }
      LifecycleSafety.SnapshotItems(entries, order);
    }

    method SweepItem(r: Reply)
      requires Valid() && sweep.Some? && sweep.value.current == None && sweep.value.todo != []
      modifies this, cache, handles
      ensures var steps := ItemSteps(setup, old(Now()), r);
              && Valid() && Now() == Follow(setup, old(Now()), steps) && trace == old(trace) + steps
              && (old(roomy) && Lawful(setup, old(Now()), steps) ==> roomy)
      ensures sweep.Some? ==> sweep.value.current == None && sweep.value.todo == old(sweep).value.todo[1..]
    {
      hide NextId.Integer.Valid, NextId.Issued, Run, After, Room, Swept, SendSteps, Follow, Lawful;
      var before := |told|;
      ghost var begin := Now();
      OneStep(setup, begin, Next(r.sent));
      var raised := SweepNext(r.sent);
      if raised || sweep.value.current == None {
        return;
      }
      ghost var v, start := Now(), trace;
      var called := |told| != before;
      ghost var sends := if called then SendSteps(r.sends) else [];
      ghost var last := if called && r.raises then Escape else Finish;
      ItemInParts(setup, begin, v, r, sends, last);
      OneStep(setup, v, last);
      if called {
        SendAll(r.sends);
      }
      assert trace == start + sends;
      if called && r.raises {
        ghost var u := Now();
        sweep := None;
        Record(u, Escape);
      } else {
        SweepFinish();
      }
      assert trace == old(trace) + ([Next(r.sent)] + sends + [last]);
    }

    /** Room enough before a sweep is room throughout. */
    lemma RoomToSweep(w: World, begun: World, order: seq<Handle>, cause: Cause, replies: seq<Reply>)
      requires Valid() && w.sweep == None && Enumerates(order, w.cache.Keys) && |replies| == |order|
      requires begun == Take(setup, w, Begin(order, cause)) && begun == Now()
      ensures roomy && Ample(setup, w, Uses(replies)) ==> Lawful(setup, begun, SweepSteps(setup, begun, replies))
    {
      if roomy && Ample(setup, w, Uses(replies)) {
        LifecycleSafety.RunSound(setup, trace);
        SnapshotLength(w.cache, order);
        hide NextId.Issued, After, Run, Uses, LifecycleSafety.Sound, Enumerates;
        AmpleSweepIsLawful(setup, begun, replies);
      }
    }

    /** `receiveTimerTick` and `receiveTransportError`: `Cache.expire` over a snapshot in
        the dictionary's order, whatever its callbacks do. */
    method Expire(cause: Cause, order: seq<Handle>, replies: seq<Reply>)
      requires Valid() && sweep == None
      requires Enumerates(order, cache.repository.Keys) && |replies| == |order|
      modifies this, cache, handles
      ensures Valid() && sweep == None
      ensures var begun := Take(setup, old(Now()), Begin(order, cause));
              var steps := SweepSteps(setup, begun, replies);
              && Now() == Follow(setup, begun, steps) && trace == old(trace) + [Begin(order, cause)] + steps
              && (old(roomy) && Lawful(setup, begun, steps) ==> roomy)
      ensures old(roomy) && Ample(setup, old(Now()), Uses(replies)) ==> roomy
    {
      hide NextId.Integer.Valid, NextId.Issued, Run, After, Room, ItemSteps, SweepSteps, Enumerates, Follow, Lawful;
      SnapshotLength(cache.repository, order);
      sweep := Some(Sweep(cause, Snapshot(cache.repository, order), None, draws));
      Record(old(Now()), Begin(order, cause));
      ghost var begun, start := Now(), trace;
      ghost var all := SweepSteps(setup, begun, replies);
      ghost var target, lawful := Follow(setup, begun, all), roomy && Lawful(setup, begun, all);
      RoomToSweep(old(Now()), begun, order, cause, replies);
      var i := 0;
      assert replies[0..] == replies;
      while i < |replies|
        invariant 0 <= i <= |replies| && Valid()
        invariant sweep.Some? && sweep.value.current == None && |sweep.value.todo| == |replies| - i
        invariant start + all == trace + SweepSteps(setup, Now(), replies[i..])
        invariant target == Follow(setup, Now(), SweepSteps(setup, Now(), replies[i..]))
        invariant lawful ==> roomy && Lawful(setup, Now(), SweepSteps(setup, Now(), replies[i..]))
      {
        hide Take, Legal;
        SweepTurn(setup, Now(), replies, i);
        ghost var item, before := ItemSteps(setup, Now(), replies[i]), trace;
        SweepItem(replies[i]);
        ghost var left := if sweep == None then [] else SweepSteps(setup, Now(), replies[i + 1..]);
        assert before + (item + left) == trace + left;
        if sweep == None {
          assert trace + [] == trace;
          return;
        }
        i := i + 1;
      }
      SweepEnds(setup, Now(), replies[i..]);
      ghost var u := Now();
      sweep := None;
      Record(u, End);
    }
  }

  // ------------------------------------------------------ room for a sweep

  /** Room for `n` more handles while what is outstanding stays so. */
  ghost predicate Ample(s: Setup, w: World, n: nat) {
    && n <= s.handles.maximum
    && (forall h :: h in w.cache ==> w.draws + n <= w.cache[h].drawn + s.handles.maximum)
    && (forall h :: h in w.pending ==> w.draws + n <= w.pending[h].tally.drawn + s.handles.maximum)
    && (w.sweep.Some? && w.sweep.value.current.Some? ==>
          w.draws + n <= w.sweep.value.current.value.entry.drawn + s.handles.maximum)
  }

  /** The handles a sweep may draw: one for each retry and one for each callback's send. */
  function Uses(replies: seq<Reply>): nat {
    if replies == [] then 0 else 1 + |replies[0].sends| + Uses(replies[1..])
  }

  /** A step draws at most one handle, and what it adds to the stores it drew. */
  predicate DrawsOne(w: World, v: World) {
    && w.draws <= v.draws <= w.draws + 1
    && (forall h :: h in v.cache ==> (h in w.cache && v.cache[h] == w.cache[h]) || v.cache[h].drawn == w.draws)
    && (forall h :: h in v.pending ==>
          (h in w.pending && v.pending[h] == w.pending[h]) || v.pending[h].tally.drawn == w.draws)
  }

  lemma SubmitDraws(s: Setup, w: World, q: Query, sent: Sent)
    requires s.handles.Valid()
    ensures DrawsOne(w, Take(s, w, Submit(q, sent))) && Take(s, w, Submit(q, sent)).sweep == w.sweep
  {
    hide NextId.Issued;
  }

  lemma ProcessDraws(s: Setup, w: World, h: Handle, request: nat, answer: Answer, sent: Sent)
    requires s.handles.Valid()
    ensures DrawsOne(w, Process(s, w, h, request, answer, sent).0)
  {
    hide NextId.Issued, Exceeded;
  }

  lemma AmpleAfterSubmit(s: Setup, w: World, q: Query, sent: Sent, n: nat)
    requires s.handles.Valid() && Ample(s, w, n + 1)
    ensures Legal(s, w, Submit(q, sent)) && Ample(s, Take(s, w, Submit(q, sent)), n)
  {
    SubmitDraws(s, w, q, sent);
    hide Take, NextId.Issued;
  }

  lemma AmpleAfterNext(s: Setup, w: World, sent: Sent, n: nat)
    requires s.handles.Valid() && Ample(s, w, n + 1) && LifecycleSafety.Sound(s, w)
    requires w.sweep.Some? && w.sweep.value.current == None && w.sweep.value.todo != []
    ensures Legal(s, w, Next(sent)) && Ample(s, Take(s, w, Next(sent)), n)
  {
    LifecycleSafety.TodoCached(s, w);
    var sw := w.sweep.value;
    var item := sw.todo[0];
    ProcessDraws(s, Taken(w, item.handle), item.handle, item.entry.request, Failed(FailureFor(sw.cause)), sent);
    hide Process, NextId.Issued, Due, LifecycleSafety.Sound;
  }

  lemma {:induction false} AmpleForSends(s: Setup, w: World, sends: seq<(Query, Sent)>, n: nat)
    requires s.handles.Valid() && Ample(s, w, |sends| + n)
    ensures Lawful(s, w, SendSteps(sends)) && Ample(s, Follow(s, w, SendSteps(sends)), n)
    decreases |sends|
  {
    if sends != [] {
      AmpleAfterSubmit(s, w, sends[0].0, sends[0].1, |sends| - 1 + n);
      hide Take, Legal, Ample;
      assert SendSteps(sends)[1..] == SendSteps(sends[1..]);
      AmpleForSends(s, Take(s, w, SendSteps(sends)[0]), sends[1..], n);
    }
  }

  lemma {:induction false} LawfulSound(s: Setup, w: World, steps: seq<Step>)
    requires s.handles.Valid() && LifecycleSafety.Sound(s, w) && Lawful(s, w, steps)
    ensures LifecycleSafety.Sound(s, Follow(s, w, steps))
    decreases |steps|
  {
    hide Take, Legal, LifecycleSafety.Sound;
    if steps != [] {
      LifecycleSafety.StepSound(s, w, steps[0]);
      LawfulSound(s, Take(s, w, steps[0]), steps[1..]);
    }
  }

  /** What a turn leaves of a sweep that goes on. */
  ghost predicate GoesOn(s: Setup, w: World, v: World, n: nat)
    requires w.sweep.Some? && w.sweep.value.todo != []
  {
    v.sweep.Some? ==> v.sweep.value.current == None && v.sweep.value.todo == w.sweep.value.todo[1..] && Ample(s, v, n)
  }

  lemma AmpleAtLast(s: Setup, u: World, last: Step, n: nat)
    requires s.handles.Valid() && Ample(s, u, n) && u.sweep.Some? && u.sweep.value.current.Some?
    requires last == Finish || last == Escape
    ensures var v := Take(s, u, last);
            && Legal(s, u, last)
            && (v.sweep.Some? ==>
                  v.sweep.value.current == None && v.sweep.value.todo == u.sweep.value.todo && Ample(s, v, n))
  {
    hide NextId.Issued;
  }

  lemma AmpleFewer(s: Setup, w: World, n: nat, m: nat)
    requires Ample(s, w, n) && m <= n
    ensures Ample(s, w, m)
  {
  }

  lemma NextLeaves(s: Setup, w: World, sent: Sent)
    requires s.handles.Valid() && w.sweep.Some? && w.sweep.value.todo != [] && w.sweep.value.current == None
    ensures var v := Take(s, w, Next(sent));
            v.sweep.Some? ==> v.sweep.value.todo == w.sweep.value.todo[1..]
  {
    hide Process, NextId.Issued, Due;
  }

  lemma AmpleForItem(s: Setup, w: World, r: Reply, n: nat)
    requires s.handles.Valid() && LifecycleSafety.Sound(s, w) && Ample(s, w, 1 + |r.sends| + n)
    requires w.sweep.Some? && w.sweep.value.current == None && w.sweep.value.todo != []
    ensures Lawful(s, w, ItemSteps(s, w, r)) && GoesOn(s, w, Follow(s, w, ItemSteps(s, w, r)), n)
  {
    AmpleAfterNext(s, w, r.sent, |r.sends| + n);
    NextLeaves(s, w, r.sent);
    var v := Take(s, w, Next(r.sent));
    AmpleFewer(s, v, |r.sends| + n, n);
    OneStep(s, w, Next(r.sent));
    if v.sweep.Some? && v.sweep.value.current.Some? {
      var called := |v.told| != |w.told|;
      var sends := if called then SendSteps(r.sends) else [];
      var last := if called && r.raises then Escape else Finish;
      ItemInParts(s, w, v, r, sends, last);
      AmpleForSends(s, v, r.sends, n);
      SendsKeepSweep(s, v, r.sends);
      NothingToSend(s, v, []);
      OneStep(s, v, last);
      AmpleAtLast(s, Follow(s, v, sends), last, n);
    }
    hide Take, Legal, Ample, Follow, Lawful, SendSteps, LifecycleSafety.Sound;
  }

  /** A sweep whose retries and callbacks together draw no more handles than there is room
      for is lawful throughout, whatever they meet. */
  lemma {:induction false} AmpleSweepIsLawful(s: Setup, w: World, replies: seq<Reply>)
    requires s.handles.Valid() && LifecycleSafety.Sound(s, w) && Ample(s, w, Uses(replies))
    requires w.sweep.Some? && w.sweep.value.current == None && |replies| == |w.sweep.value.todo|
    ensures Lawful(s, w, SweepSteps(s, w, replies))
    decreases |replies|
  {
    if replies == [] {
      SweepEnds(s, w, replies);
    } else {
      var item := ItemSteps(s, w, replies[0]);
      AmpleForItem(s, w, replies[0], Uses(replies[1..]));
      assert replies[0..] == replies;
      SweepTurn(s, w, replies, 0);
      LawfulSound(s, w, item);
      hide Take, Legal, Ample, Follow, Lawful, LifecycleSafety.Sound, ItemSteps;
      var v := Follow(s, w, item);
      if v.sweep.Some? {
        AmpleSweepIsLawful(s, v, replies[1..]);
      } else {
        OneStep(s, v, End);
      }
    }
  }
}
