/** Requests from send to final callback: the dispatcher's cache of outstanding requests
    (`proto/cache.py`, `proto/rfc3412.py`), the command generator's pending requests and
    retries (`entity/rfc3413/cmdgen.py`) and the transport dispatcher's jobs and ticks
    (`carrier/base.py`), as a machine whose steps are what runs between two callbacks. */
module Lifecycle {
  import opened Wrappers
  import NextId

  type Handle = int

  /** The dispatcher's handle generator and the command generator's retry option. */
  datatype Setup = Setup(handles: NextId.Config, discoveryRetries: nat)

  /** What a target asks for: a timeout in ticks and a number of retries. */
  datatype Query = Query(peer: nat, timeout: real, retryCount: nat)

  /** History: what an attempt to send asked for, and when. */
  datatype Asked = Asked(query: Query, tick: nat)

  /** Cached parameters. The peer is unknown until `update`; `drawn` is history: which of
      the generator's values the handle is. */
  datatype Entry = Entry(request: nat, deadline: real, peer: Option<nat>, drawn: nat)

  /** History: the request a pending entry is for, how often it has been transmitted, when
      last and under which of the generator's values, and how many of its failures were
      discovery failures. */
  datatype Tally = Tally(request: nat, sent: nat, at: nat, drawn: nat, learned: nat)

  datatype Pending = Pending(query: Query, retries: nat, discovery: nat, tally: Tally)

  /** `Discovery` is `notInTimeWindow` or `unknownEngineID`. `Blank` is what the command
      generator cannot read: a status without an error indication, as a report without
      bindings brings, or a response it cannot translate. */
  datatype Failure = Discovery | TimedOut | Unreachable | Ordinary | Blank

  /** `Interrupted`: an observer of the response's execution point raises. */
  datatype Answer = Good | Mismatched | Interrupted | Failed(failure: Failure)

  /** A `StatusInformation`, another `PySnmpError`, any other exception. */
  datatype Exc = Status | PySnmp | Foreign

  /** Where the dispatcher's `sendPdu` raises: looking the message processing model up,
      before a handle is drawn; preparing the message; at the execution point
      `rfc3412.sendPdu`, in an observer; handing the message to the transport. */
  datatype Place = Lookup | Prepare | Observer | Transport

  datatype Sent = Delivered | Fails(place: Place, exc: Exc) {
    predicate Draws() {
      Fails? ==> place != Lookup
    }

    /** Only what preparing and the transport raise, and only a `PySnmpError`, is caught to
        take the request out of the cache again. */
    predicate Strays() {
      Fails? && place != Lookup && (place == Observer || exc == Foreign)
    }
  }

  datatype Outcome = Response | BadResponse | Error(failure: Failure) | SendError

  datatype Told = Told(request: nat, outcome: Outcome, query: Query, tally: Tally)

  /** Why a sweep runs: the clock, or a transport that lost a peer. */
  datatype Cause = Clock | PeerLost(peer: nat)

  datatype Item = Item(handle: Handle, entry: Entry)

  /** A sweep under way: the rest of its snapshot, the request whose callback runs, and,
      as history, how many handles had been drawn when it began. */
  datatype Sweep = Sweep(cause: Cause, todo: seq<Item>, current: Option<Item>, since: nat)

  /** The stores; then history: what each attempt to send asked, requests accepted, final
      callbacks, and requests dropped without one. */
  datatype World = World(cache: map<Handle, Entry>, pending: map<Handle, Pending>, jobs: int,
                         ticks: nat, draws: nat, sweep: Option<Sweep>,
                         asked: seq<Asked>, accepted: seq<nat>, told: seq<Told>, lost: seq<nat>)

  const Idle := World(map[], map[], 0, 0, 0, None, [], [], [], [])

  // ------------------------------------------------------------- sending

  function NextHandle(s: Setup, w: World): Handle
    requires s.handles.Valid()
  {
    NextId.Issued(s.handles, w.draws)
  }

  /** What the message dispatcher's `sendPdu` leaves in the cache, drawing `h`. */
  function Cached(cache: map<Handle, Entry>, h: Handle, e: Entry, sent: Sent): map<Handle, Entry> {
    if sent == Delivered then cache[h := e]
    else if sent.Strays() then cache[h := e.(peer := None)]
    else if sent.Draws() then cache - {h}
    else cache
  }

  /** `sendPdu` for a confirmed PDU. */
  function Dispatch(s: Setup, w: World, q: Query, request: nat, sent: Sent): World
    requires s.handles.Valid()
  {
    var e := Entry(request, q.timeout + w.ticks as real, Some(q.peer), w.draws);
    w.(cache := Cached(w.cache, NextHandle(s, w), e, sent),
       draws := if sent.Draws() then w.draws + 1 else w.draws)
  }

  function Track(w: World, h: Handle, p: Pending): World {
    w.(pending := w.pending[h := p], jobs := w.jobs + 1)
  }

  function Submitted(s: Setup, w: World, q: Query, sent: Sent): World
    requires s.handles.Valid()
  {
    var r := |w.asked|;
    var v := Dispatch(s, w.(asked := w.asked + [Asked(q, w.ticks)]), q, r, sent);
    if sent == Delivered then
      Track(v, NextHandle(s, w), Pending(q, 0, 0, Tally(r, 1, w.ticks, w.draws, 0))).(accepted := w.accepted + [r])
    else v
  }

  // --------------------------------------------- an answer, or a failure

  function Forget(w: World, h: Handle): World {
    w.(pending := w.pending - {h}, jobs := w.jobs - 1)
  }

  function Call(w: World, request: nat, outcome: Outcome, p: Pending): World {
    w.(told := w.told + [Told(request, outcome, p.query, p.tally)])
  }

  /** A discovery failure is counted apart, and each kind resets the other's count. */
  function Counted(p: Pending, f: Failure): Pending {
    if f == Discovery then
      p.(discovery := p.discovery + 1, retries := 0, tally := p.tally.(learned := p.tally.learned + 1))
    else p.(discovery := 0, retries := p.retries + 1)
  }

  predicate Exceeded(s: Setup, p: Pending) {
    p.retries > p.query.retryCount || p.discovery > s.discoveryRetries
  }

  function Resent(p: Pending, ticks: nat, draws: nat): Pending {
    p.(tally := p.tally.(sent := p.tally.sent + 1, at := ticks, drawn := draws))
  }

  function Lose(w: World, request: nat): World {
    w.(lost := w.lost + [request])
  }

  function Retry(s: Setup, w: World, request: nat, p: Pending, sent: Sent): (World, bool)
    requires s.handles.Valid()
  {
    var v := Dispatch(s, w, p.query, request, sent);
    match sent
    case Delivered => (Track(v, NextHandle(s, w), Resent(p, w.ticks, w.draws)), false)
    case Fails(_, exc) => if exc == Status then (Call(v, request, SendError, p), false) else (Lose(v, request), true)
  }

  /** `processResponsePdu`, the handle gone from the cache; true is an exception. An observer
      that raises keeps it from being called at all. */
  function Process(s: Setup, w: World, h: Handle, request: nat, answer: Answer, sent: Sent): (World, bool)
    requires s.handles.Valid()
  {
    if answer == Interrupted || h !in w.pending then (w, true)
    else
      var p := w.pending[h];
      var v := Forget(w, h);
      match answer
      case Good => (Call(v, request, Response, p), false)
      case Mismatched => (Call(v, request, BadResponse, p), false)
      case Failed(f) =>
        var c := Counted(p, f);
        if f == Blank then (Lose(v, request), true)
        else if Exceeded(s, c) then (Call(v, request, Error(f), c), false)
        else Retry(s, v, request, c, sent)
  }

  function Taken(w: World, h: Handle): World {
    w.(cache := w.cache - {h})
  }

  /** A response or a dropped report; a handle that is not cached changes nothing, though
      for a report that is a `TypeError`. */
  function Answered(s: Setup, w: World, h: Handle, answer: Answer, sent: Sent): (World, bool)
    requires s.handles.Valid()
  {
    if h in w.cache then Process(s, Taken(w, h), h, w.cache[h].request, answer, sent) else (w, false)
  }

  // ------------------------------------------------------------- sweeping

  function Snapshot(cache: map<Handle, Entry>, order: seq<Handle>): seq<Item> {
    if order == [] then []
    else (if order[0] in cache then [Item(order[0], cache[order[0]])] else []) + Snapshot(cache, order[1..])
  }

  predicate Due(cause: Cause, e: Entry, ticks: nat) {
    match cause
    case Clock => ticks as real >= e.deadline
    case PeerLost(peer) => e.peer == Some(peer)
  }

  function FailureFor(cause: Cause): Failure {
    if cause == Clock then TimedOut else Unreachable
  }

  /** The sweep's next item. Its cached parameters are those of the snapshot, and they are
      released whether or not they are still there. */
  function Swept(s: Setup, w: World, sent: Sent): World
    requires s.handles.Valid()
    requires w.sweep.Some? && w.sweep.value.todo != []
  {
    var sw := w.sweep.value;
    var item := sw.todo[0];
    if !Due(sw.cause, item.entry, w.ticks) then w.(sweep := Some(sw.(todo := sw.todo[1..])))
    else
      var x := Process(s, Taken(w, item.handle), item.handle, item.entry.request,
                       Failed(FailureFor(sw.cause)), sent);
      x.0.(sweep := if x.1 then None else Some(sw.(todo := sw.todo[1..], current := Some(item))))
  }

  // ------------------------------------------------------------- the steps

  /** `Submit`: an application's send, also from inside a callback. `Draw`: a handle drawn
      for an unconfirmed PDU. `Begin` to `End`: a sweep; `Next` takes an item, and `Finish`
      or `Escape` follows its callback, which returned or raised. */
  datatype Step =
    | Submit(query: Query, sent: Sent)
    | Draw
    | Respond(handle: Handle, answer: Answer, sent: Sent)
    | Report(handle: Handle, failure: Failure, sent: Sent)
    | Tick
    | Begin(order: seq<Handle>, cause: Cause)
    | Next(sent: Sent)
    | Finish
    | Escape
    | End

  function Take(s: Setup, w: World, step: Step): World
    requires s.handles.Valid()
  {
    match step
    case Submit(q, sent) => Submitted(s, w, q, sent)
    case Draw => w.(draws := w.draws + 1)
    case Respond(h, answer, sent) => Answered(s, w, h, answer, sent).0
    case Report(h, f, sent) => Answered(s, w, h, Failed(f), sent).0
    case Tick => w.(ticks := w.ticks + 1)
    case Begin(order, cause) => w.(sweep := Some(Sweep(cause, Snapshot(w.cache, order), None, w.draws)))
    case Next(sent) => if w.sweep.Some? && w.sweep.value.todo != [] then Swept(s, w, sent) else w
    case Finish =>
      if w.sweep.Some? && w.sweep.value.current.Some? then
        Taken(w, w.sweep.value.current.value.handle).(sweep := Some(w.sweep.value.(current := None)))
      else w
    case Escape => w.(sweep := None)
    case End => w.(sweep := None)
  }

  function After(s: Setup, steps: seq<Step>): World
    requires s.handles.Valid()
  {
    if steps == [] then Idle else Take(s, After(s, steps[..|steps| - 1]), steps[|steps| - 1])
  }

  /** A snapshot's order: every key of the dictionary once. */
  ghost predicate Enumerates(order: seq<Handle>, keys: set<Handle>) {
    && (forall i, j :: 0 <= i < j < |order| ==> order[i] != order[j])
    && (forall h :: h in order <==> h in keys)
  }

  predicate Recent(s: Setup, w: World, drawn: nat) {
    w.draws <= drawn + s.handles.maximum
  }

  /** Fewer handles have been drawn since the oldest outstanding request was sent than the
      generator issues before it may repeat itself. */
  ghost predicate Room(s: Setup, w: World) {
    && (forall h :: h in w.cache ==> Recent(s, w, w.cache[h].drawn))
    && (forall h :: h in w.pending ==> Recent(s, w, w.pending[h].tally.drawn))
    && (w.sweep.Some? && w.sweep.value.current.Some? ==> Recent(s, w, w.sweep.value.current.value.entry.drawn))
  }

  /** The loop is one thread: while a sweep runs, only its callbacks act, and they send. */
  ghost predicate Legal(s: Setup, w: World, step: Step) {
    match step
    case Submit(_, _) => Room(s, w)
    case Draw => true
    case Respond(_, _, _) => w.sweep == None && Room(s, w)
    case Report(_, _, _) => w.sweep == None && Room(s, w)
    case Tick => w.sweep == None
    case Begin(order, _) => w.sweep == None && Enumerates(order, w.cache.Keys)
    case Next(_) => w.sweep.Some? && w.sweep.value.current == None && w.sweep.value.todo != [] && Room(s, w)
    case Finish => w.sweep.Some? && w.sweep.value.current.Some?
    case Escape => w.sweep.Some? && w.sweep.value.current.Some?
    case End => w.sweep.Some? && w.sweep.value.current == None && w.sweep.value.todo == []
  }

  ghost predicate Run(s: Setup, steps: seq<Step>)
    requires s.handles.Valid()
  {
    steps != [] ==>
      && Run(s, steps[..|steps| - 1])
      && Legal(s, After(s, steps[..|steps| - 1]), steps[|steps| - 1])
  }
}
