/** One notification to many targets, one callback: `NotificationOriginator.sendVarBinds`
    and `processResponseVarBinds`. */
module InformFanIn {
  import opened Wrappers

  /** A notify type: a trap, an INFORM, or a number that is neither. */
  datatype Kind = Trap | Inform | Unknown

  /** What comes of one target: rejected by its filter or by access control, a send that
      raised `StatusInformation`, anything else raised on the way, or a request under a
      handle. */
  datatype Target = Filtered | Denied | Fails(error: nat) | Crashes | Sends(handle: nat)

  /** Why the user was called back. */
  datatype Why = NothingSent | SendFailed(error: nat) | Settled(handle: nat, outcome: Option<nat>)

  datatype Call = Call(notification: nat, why: Why)

  datatype Book = Book(pending: map<nat, set<nat>>, calls: seq<Call>)

  /** The targets from `i` on, `sent` of them having been sent to. */
  function Fan(b: Book, n: nat, kind: Kind, targets: seq<Target>, i: nat, sent: nat): Book
    requires i <= |targets|
    decreases |targets| - i
  {
    if i == |targets| then
      if kind == Inform && sent == 0 then b.(calls := b.calls + [Call(n, NothingSent)]) else b
    else
      match targets[i]
      case Filtered => Fan(b, n, kind, targets, i + 1, sent)
      case Denied => Fan(b, n, kind, targets, i + 1, sent)
      case Crashes => b
      case Fails(e) =>
        if kind == Unknown then b
        else if n !in b.pending || b.pending[n] == {} then Book(b.pending - {n}, b.calls + [Call(n, SendFailed(e))])
        else b
      case Sends(h) =>
        if kind == Unknown then b
        else Fan(if kind == Inform then Adding(b, n, h) else b, n, kind, targets, i + 1, sent + 1)
  }

  /** Whether an exception comes out of the fan-out. */
  function Escapes(kind: Kind, targets: seq<Target>, i: nat): bool
    requires i <= |targets|
    decreases |targets| - i
  {
    i < |targets| &&
      match targets[i]
      case Crashes => true
      case Fails(_) => kind == Unknown
      case Sends(_) => kind == Unknown || Escapes(kind, targets, i + 1)
      case _ => Escapes(kind, targets, i + 1)
  }

  function Adding(b: Book, n: nat, h: nat): Book {
    b.(pending := b.pending[n := (if n in b.pending then b.pending[n] else {}) + {h}])
  }

  /** One target's final answer; `None` is the `KeyError` of a handle not outstanding. */
  function Settle(b: Book, n: nat, h: nat, error: Option<nat>): Option<Book> {
    if n !in b.pending || h !in b.pending[n] then None
    else
      var left := b.pending[n] - {h};
      Some(if left == {} then Book(b.pending - {n}, b.calls + [Call(n, Settled(h, error))])
           else b.(pending := b.pending[n := left]))
  }

  class NotificationOriginator {
    var pendingNotifications: map<nat, set<nat>>
    var calls: seq<Call>  // what the user's callback has heard

    function State(): Book
      reads this
    {
      Book(pendingNotifications, calls)
    }

    constructor ()
      ensures State() == Book(map[], [])
    {
      pendingNotifications, calls := map[], [];
    }

    method SendVarBinds(notificationHandle: nat, notifyType: Kind, targets: seq<Target>) returns (raised: bool)
      modifies this
      ensures State() == Fan(old(State()), notificationHandle, notifyType, targets, 0, 0)
      ensures raised == Escapes(notifyType, targets, 0)
    {
      var notificationsSent := 0;
      for i := 0 to |targets|
        invariant Fan(State(), notificationHandle, notifyType, targets, i, notificationsSent)
               == Fan(old(State()), notificationHandle, notifyType, targets, 0, 0)
        invariant Escapes(notifyType, targets, i) == Escapes(notifyType, targets, 0)
      {
        match targets[i] {
          case Filtered => continue;
          case Denied => continue;
          case Crashes => return true;
          case Fails(error) =>
            if notifyType == Unknown {
              return true;
            }
            if notificationHandle !in pendingNotifications || pendingNotifications[notificationHandle] == {} {
              if notificationHandle in pendingNotifications {
                pendingNotifications := pendingNotifications - {notificationHandle};
              } else {
                assert pendingNotifications - {notificationHandle} == pendingNotifications;
              }
              calls := calls + [Call(notificationHandle, SendFailed(error))];
            }
            return false;
          case Sends(handle) =>
            if notifyType == Unknown {
              return true;
            }
            if notifyType == Inform {
              ghost var grown := Adding(State(), notificationHandle, handle);
              if notificationHandle !in pendingNotifications {
                pendingNotifications := pendingNotifications[notificationHandle := {}];
              }
              pendingNotifications :=
                pendingNotifications[notificationHandle := pendingNotifications[notificationHandle] + {handle}];
              assert pendingNotifications == grown.pending;
            }
            notificationsSent := notificationsSent + 1;
        }
      }
      if notifyType == Inform && notificationsSent == 0 {
        calls := calls + [Call(notificationHandle, NothingSent)];
      }
      return false;
    }

    method ProcessResponseVarBinds(notificationHandle: nat, sendRequestHandle: nat, error: Option<nat>)
      returns (known: bool)
      modifies this
      ensures var next := Settle(old(State()), notificationHandle, sendRequestHandle, error);
              known == next.Some? && State() == if next.Some? then next.value else old(State())
    {
      if notificationHandle !in pendingNotifications
         || sendRequestHandle !in pendingNotifications[notificationHandle] {
        return false;
      }
      var left := pendingNotifications[notificationHandle] - {sendRequestHandle};
      pendingNotifications := pendingNotifications[notificationHandle := left];
      if left == {} {
        ghost var before := old(pendingNotifications);
        pendingNotifications := pendingNotifications - {notificationHandle};
        assert pendingNotifications == before - {notificationHandle};
        calls := calls + [Call(notificationHandle, Settled(sendRequestHandle, error))];
      }
      return true;
    }
  }

  // ------------------------------------------------------- whole runs

  /** An INFORM is sent out, or one of its targets settles for good. */
  datatype Event = Notify(n: nat, targets: seq<Target>) | Answer(n: nat, handle: nat, error: Option<nat>)

  /** The targets from `i` on that are reached before a send fails. */
  function SentFrom(targets: seq<Target>, i: nat): set<nat>
    requires i <= |targets|
    decreases |targets| - i
  {
    if i == |targets| then {}
    else
      match targets[i]
      case Fails(_) => {}
      case Crashes => {}
      case Sends(h) => {h} + SentFrom(targets, i + 1)
      case _ => SentFrom(targets, i + 1)
  }

  /** An exception that is not `StatusInformation` before anything was sent. */
  function Abandons(targets: seq<Target>): bool {
    SentFrom(targets, 0) == {} && Escapes(Inform, targets, 0)
  }

  /** What is known of each notification: what was sent for it, what has settled, and
      whether it was abandoned. */
  datatype World = World(book: Book, sent: map<nat, set<nat>>, settled: map<nat, set<nat>>, abandoned: set<nat>)

  const EMPTY := World(Book(map[], []), map[], map[], {})

  /** Handles come from generators, so a notification's is new; each send settles once, as
      the lifecycle of requests has it. */
  predicate Allowed(w: World, e: Event) {
    match e
    case Notify(n, _) => n !in w.sent
    case Answer(n, h, _) => n in w.sent && n in w.settled && h in w.sent[n] - w.settled[n]
  }

  function Step(w: World, e: Event): World {
    match e
    case Notify(n, targets) =>
      World(Fan(w.book, n, Inform, targets, 0, 0), w.sent[n := SentFrom(targets, 0)], w.settled[n := {}],
            w.abandoned + if Abandons(targets) then {n} else {})
    case Answer(n, h, error) =>
      var next := Settle(w.book, n, h, error);
      w.(book := if next.Some? then next.value else w.book,
         settled := w.settled[n := (if n in w.settled then w.settled[n] else {}) + {h}])
  }

  function CallsFor(calls: seq<Call>, n: nat): nat {
    if calls == [] then 0
    else CallsFor(calls[..|calls| - 1], n) + if calls[|calls| - 1].notification == n then 1 else 0
  }

  /** Each notification is pending on exactly its unsettled targets, or has been called
      back exactly once, or was abandoned. */
  ghost predicate OneCallEach(w: World) {
    && w.sent.Keys == w.settled.Keys
    && w.book.pending.Keys <= w.sent.Keys && w.abandoned <= w.sent.Keys
    && (forall n :: n in w.sent ==>
          var open := w.sent[n] - w.settled[n];
          && (n in w.book.pending <==> open != {})
          && (open != {} ==> w.book.pending[n] == open)
          && (n in w.abandoned ==> open == {})
          && CallsFor(w.book.calls, n) == if open == {} && n !in w.abandoned then 1 else 0)
    && (forall n :: n !in w.sent ==> CallsFor(w.book.calls, n) == 0)
  }

  lemma CallAppended(calls: seq<Call>, c: Call, n: nat)
    ensures CallsFor(calls + [c], n) == CallsFor(calls, n) + if c.notification == n then 1 else 0
  {
    assert (calls + [c])[..|calls|] == calls;
  }

  /** The fan-out, with `open` the targets already sent to. */
  lemma {:induction false} FanOut(b: Book, n: nat, targets: seq<Target>, i: nat, sent: nat, open: set<nat>)
    requires i <= |targets|
    requires if open == {} then n !in b.pending else n in b.pending && b.pending[n] == open
    requires sent == 0 <==> open == {}
    ensures var r, all := Fan(b, n, Inform, targets, i, sent), open + SentFrom(targets, i);
            && (if all == {} then n !in r.pending else n in r.pending && r.pending[n] == all)
            && r.pending - {n} == b.pending - {n}
            && (forall m :: CallsFor(r.calls, m) ==
                  CallsFor(b.calls, m) + if m == n && all == {} && !Escapes(Inform, targets, i) then 1 else 0)
    decreases |targets| - i
  {
    if i == |targets| {
      forall m {
        CallAppended(b.calls, Call(n, NothingSent), m);
      }
    } else {
      match targets[i] {
        case Fails(e) =>
          forall m {
            CallAppended(b.calls, Call(n, SendFailed(e)), m);
          }
        case Crashes =>
        case Sends(h) =>
          FanOut(Adding(b, n, h), n, targets, i + 1, sent + 1, open + {h});
          assert open + {h} + SentFrom(targets, i + 1) == open + ({h} + SentFrom(targets, i + 1));
          assert Adding(b, n, h).pending - {n} == b.pending - {n};
        case _ => FanOut(b, n, targets, i + 1, sent, open);
      }
    }
  }

  /** Where the loop stops short: the first target from `i` on that fails, or that meets an
      exception, and any at all that is not rejected where the notify type is neither. */
  function StopsAt(kind: Kind, targets: seq<Target>, i: nat): Option<Target>
    requires i <= |targets|
    decreases |targets| - i
  {
    if i == |targets| then None
    else if targets[i].Crashes? || targets[i].Fails? then Some(targets[i])
    else if kind == Unknown && targets[i].Sends? then Some(targets[i])
    else StopsAt(kind, targets, i + 1)
  }

  /** What a notification's user is told by the sending itself, when `open` targets have
      been sent to by then: of a trap only that a send failed; of an INFORM that, if it is
      open on none, or that there was nobody to send to. */
  function ToldAtOnce(n: nat, kind: Kind, stop: Option<Target>, open: set<nat>): seq<Call> {
    match stop
    case Some(Fails(e)) => if kind == Trap || (kind == Inform && open == {}) then [Call(n, SendFailed(e))] else []
    case Some(_) => []
    case None => if kind == Inform && open == {} then [Call(n, NothingSent)] else []
  }

  lemma {:induction false} FanSaysFrom(b: Book, n: nat, kind: Kind, targets: seq<Target>, i: nat, sent: nat,
                                       open: set<nat>)
    requires i <= |targets|
    requires if open == {} then n !in b.pending else n in b.pending && b.pending[n] == open
    requires kind == Inform ==> (sent == 0 <==> open == {})
    requires kind != Inform ==> open == {}
    ensures var r := Fan(b, n, kind, targets, i, sent);
            var all := if kind == Inform then open + SentFrom(targets, i) else {};
            && r.calls == b.calls + ToldAtOnce(n, kind, StopsAt(kind, targets, i), all)
            && r.pending == (if all == {} then b.pending else b.pending[n := all])
            && (Escapes(kind, targets, i) <==>
                  StopsAt(kind, targets, i).Some? && (StopsAt(kind, targets, i).value.Crashes? || kind == Unknown))
    decreases |targets| - i
  {
    if i == |targets| {
      assert open + {} == open;
      assert b.calls + [] == b.calls;
    } else {
      match targets[i] {
        case Fails(e) =>
          assert open + {} == open && b.calls + [] == b.calls;
          assert open == {} ==> b.pending - {n} == b.pending;
        case Crashes =>
          assert open + {} == open && b.calls + [] == b.calls;
        case Sends(h) =>
          assert b.calls + [] == b.calls;
          if kind == Inform {
            FanSaysFrom(Adding(b, n, h), n, kind, targets, i + 1, sent + 1, open + {h});
            assert open + {h} + SentFrom(targets, i + 1) == open + ({h} + SentFrom(targets, i + 1));
          } else if kind == Trap {
            FanSaysFrom(b, n, kind, targets, i + 1, sent + 1, {});
          }
        case _ => FanSaysFrom(b, n, kind, targets, i + 1, sent, open);
      }
    }
  }

  /** Sending a notification out, whatever its type: an INFORM stays open on exactly the
      targets it reached, and a trap on none; what the user is told at once; and when an
      exception comes out. */
  lemma FanSays(b: Book, n: nat, kind: Kind, targets: seq<Target>)
    requires n !in b.pending
    ensures var r := Fan(b, n, kind, targets, 0, 0);
            var open := if kind == Inform then SentFrom(targets, 0) else {};
            && r.calls == b.calls + ToldAtOnce(n, kind, StopsAt(kind, targets, 0), open)
            && r.pending == (if open == {} then b.pending else b.pending[n := open])
            && (Escapes(kind, targets, 0) <==>
                  StopsAt(kind, targets, 0).Some? && (StopsAt(kind, targets, 0).value.Crashes? || kind == Unknown))
  {
    FanSaysFrom(b, n, kind, targets, 0, 0, {});
    assert {} + SentFrom(targets, 0) == SentFrom(targets, 0);
  }

  lemma StepKeepsOneCall(w: World, e: Event)
    requires OneCallEach(w) && Allowed(w, e)
    ensures OneCallEach(Step(w, e))
  {
    var v := Step(w, e);
    match e {
      case Notify(n, targets) =>
        FanOut(w.book, n, targets, 0, 0, {});
        assert {} + SentFrom(targets, 0) == SentFrom(targets, 0);
        assert SentFrom(targets, 0) - {} == SentFrom(targets, 0);
        forall m | m != n ensures m in v.book.pending <==> m in w.book.pending
          ensures m in w.book.pending ==> v.book.pending[m] == w.book.pending[m]
        {
          assert m in v.book.pending - {n} <==> m in w.book.pending - {n};
          assert m in w.book.pending ==> (v.book.pending - {n})[m] == (w.book.pending - {n})[m];
        }
      case Answer(n, h, error) =>
        var open := w.sent[n] - w.settled[n];
        assert w.sent[n] - v.settled[n] == open - {h};
        forall m {
          CallAppended(w.book.calls, Call(n, Settled(h, error)), m);
        }
    }
  }

  function After(events: seq<Event>): World {
    if events == [] then EMPTY else Step(After(events[..|events| - 1]), events[|events| - 1])
  }

  ghost predicate ValidRun(events: seq<Event>) {
    forall i :: 0 <= i < |events| ==> Allowed(After(events[..i]), events[i])
  }

  /** In every reachable state of any run of INFORMs and settling targets, in any
      interleaving, a notification has had its one callback exactly when nothing sent for
      it is still open: at once if nothing was sent, else when the last target settles.
      It never has one if and only if an exception other than `StatusInformation` came out
      before anything was sent. */
  lemma {:induction false} CalledBackExactlyOnce(events: seq<Event>)
    requires ValidRun(events)
    ensures OneCallEach(After(events))
  {
    if events != [] {
      ValidPrefix(events);
      CalledBackExactlyOnce(events[..|events| - 1]);
      StepKeepsOneCall(After(events[..|events| - 1]), events[|events| - 1]);
    }
  }

  lemma ValidPrefix(events: seq<Event>)
    requires events != [] && ValidRun(events)
    ensures ValidRun(events[..|events| - 1]) && Allowed(After(events[..|events| - 1]), events[|events| - 1])
  {
    var init := events[..|events| - 1];
    forall i | 0 <= i < |init| ensures Allowed(After(init[..i]), init[i]) {
      assert init[..i] == events[..i];
    }
  }

  /** What the last event does to the notifications known and abandoned. */
  lemma LastAbandons(events: seq<Event>)
    requires events != [] && ValidRun(events)
    ensures var e, w, v := events[|events| - 1], After(events[..|events| - 1]), After(events);
            && v.sent.Keys == (if e.Notify? then w.sent.Keys + {e.n} else w.sent.Keys)
            && v.abandoned == (if e.Notify? && Abandons(e.targets) then w.abandoned + {e.n} else w.abandoned)
            && w.abandoned <= w.sent.Keys && (e.Notify? ==> e.n !in w.sent)
  {
    ValidPrefix(events);
    CalledBackExactlyOnce(events[..|events| - 1]);
    hide Fan, Settle, SentFrom, Abandons, CallsFor, ValidRun;
  }

  lemma {:induction false} AbandonedIs(events: seq<Event>, k: nat, n: nat, targets: seq<Target>)
    requires ValidRun(events) && k < |events| && events[k] == Notify(n, targets)
    ensures n in After(events).sent && (n in After(events).abandoned <==> Abandons(targets))
  {
    hide *;
    var last := |events| - 1;
    LastAbandons(events);
    if k < last {
      ValidPrefix(events);
      assert events[..last][k] == events[k];
      AbandonedIs(events[..last], k, n, targets);
    }
  }

  /** A notification whose every target has settled was called back once, unless it was
      abandoned; then never. */
  lemma CalledBackIff(events: seq<Event>, k: nat, n: nat, targets: seq<Target>)
    requires ValidRun(events) && k < |events| && events[k] == Notify(n, targets)
    ensures var w := After(events);
            n in w.sent && n in w.settled
            && (w.sent[n] - w.settled[n] == {} ==> CallsFor(w.book.calls, n) == if Abandons(targets) then 0 else 1)
  {
    CalledBackExactlyOnce(events);
    AbandonedIs(events, k, n, targets);
    hide After, Abandons;
  }

  /** The callback for a notification that was sent comes with its last target. */
  lemma LastTargetCallsBack(w: World, n: nat, h: nat, error: Option<nat>)
    requires OneCallEach(w) && Allowed(w, Answer(n, h, error))
    ensures var v := Step(w, Answer(n, h, error));
            if w.sent[n] - w.settled[n] == {h} then v.book.calls == w.book.calls + [Call(n, Settled(h, error))]
            else v.book.calls == w.book.calls
  {
    assert w.book.pending[n] == w.sent[n] - w.settled[n];
    if w.book.pending[n] - {h} == {} {
      assert w.book.pending[n] == {h};
    } else {
      assert w.book.pending[n] != {h};
    }
  }
}
