/** The transport dispatcher's clock (`carrier/base.py`): ticks, which timeouts are counted
    in, and the timers that run on them, of which the request sweep is one. */
module Ticks {

  /** `calls` is history: when the timer has run. */
  datatype Timer = Timer(nextCall: real, interval: real, calls: seq<real>)

  datatype Clock = Clock(ticks: nat, nextTime: real, timers: seq<Timer>)

  /** The least time between two ticks: the resolution less the delta. */
  function Period(resolution: real): real {
    resolution - resolution * 0.05
  }

  /** `TimerCallable.__call__`. */
  function Called(t: Timer, now: real): Timer {
    if t.nextCall <= now then Timer(now + t.interval, t.interval, t.calls + [now]) else t
  }

  function AllCalled(timers: seq<Timer>, now: real): (r: seq<Timer>)
    ensures |r| == |timers| && forall i :: 0 <= i < |r| ==> r[i] == Called(timers[i], now)
  {
    if timers == [] then [] else [Called(timers[0], now)] + AllCalled(timers[1..], now)
  }

  function Handled(resolution: real, c: Clock, now: real): (d: Clock)
    ensures |d.timers| == |c.timers|
  {
    var due := if c.nextTime == 0.0 then now + Period(resolution) else c.nextTime;
    if due >= now then c.(nextTime := due)
    else Clock(c.ticks + 1, now + Period(resolution), AllCalled(c.timers, now))
  }

  function Started(intervals: seq<real>): (c: Clock)
    ensures |c.timers| == |intervals|
  {
    Clock(0, 0.0, seq(|intervals|, i requires 0 <= i < |intervals| => Timer(0.0, intervals[i], [])))
  }

  function After(resolution: real, intervals: seq<real>, times: seq<real>): (c: Clock)
    ensures |c.timers| == |intervals|
  {
    if times == [] then Started(intervals)
    else Handled(resolution, After(resolution, intervals, times[..|times| - 1]), times[|times| - 1])
  }

  /** The loop's time: positive, and never back. */
  ghost predicate Forward(times: seq<real>) {
    && (forall i :: 0 <= i < |times| ==> times[i] > 0.0)
    && (forall i, j :: 0 <= i < j < |times| ==> times[i] <= times[j])
  }

  /** `n` periods. */
  function Span(resolution: real, n: nat): real {
    if n == 0 then 0.0 else Span(resolution, n - 1) + Period(resolution)
  }

  /** Ticks do not outrun the clock: `n` of them take more than `n` periods, however
      often the loop polls. */
  lemma {:induction false} TicksTakeTime(resolution: real, intervals: seq<real>, times: seq<real>)
    requires resolution > 0.0 && times != [] && Forward(times)
    ensures var c := After(resolution, intervals, times);
            && c.nextTime >= times[0] + Span(resolution, c.ticks) + Period(resolution)
            && (c.ticks > 0 ==> times[|times| - 1] > times[0] + Span(resolution, c.ticks))
  {
    var n := |times| - 1;
    var init := times[..n];
    if n == 0 {
      assert After(resolution, intervals, init) == Started(intervals);
    } else {
      TicksTakeTime(resolution, intervals, init);
      SpanGrows(resolution, After(resolution, intervals, init).ticks);
    }
  }

  lemma {:induction false} SpanGrows(resolution: real, n: nat)
    requires resolution > 0.0
    ensures 0.0 <= Span(resolution, n)
  {
    if n > 0 {
      SpanGrows(resolution, n - 1);
    }
  }

  /** When the clock last ticked, or was first polled. */
  function LastTick(resolution: real, intervals: seq<real>, times: seq<real>): real
    requires times != []
  {
    var n := |times| - 1;
    var c, d := After(resolution, intervals, times[..n]), After(resolution, intervals, times);
    if n == 0 || d.ticks > c.ticks then times[n] else LastTick(resolution, intervals, times[..n])
  }

  lemma {:induction false} NextIsPeriodOn(resolution: real, intervals: seq<real>, times: seq<real>)
    requires resolution > 0.0 && times != [] && Forward(times)
    ensures After(resolution, intervals, times).nextTime == LastTick(resolution, intervals, times) + Period(resolution)
    ensures LastTick(resolution, intervals, times) > 0.0
  {
    var n := |times| - 1;
    if n > 0 {
      NextIsPeriodOn(resolution, intervals, times[..n]);
    } else {
      assert After(resolution, intervals, times[..n]) == Started(intervals);
    }
  }

  /** The first poll starts the clock, and a later one ticks, once, if and only if more than
      the resolution less a twentieth has passed since the clock last ticked or was started. */
  lemma PollTicksIff(resolution: real, intervals: seq<real>, times: seq<real>, now: real)
    requires resolution > 0.0 && Forward(times + [now])
    ensures var c := After(resolution, intervals, times);
            var d := Handled(resolution, c, now);
            var due := times != [] && now - LastTick(resolution, intervals, times) > 0.95 * resolution;
            d.ticks == c.ticks + if due then 1 else 0
  {
    if times != [] {
      assert forall i :: 0 <= i < |times| ==> (times + [now])[i] == times[i];
      NextIsPeriodOn(resolution, intervals, times);
    }
  }

  /** A timer is next due an interval after it last ran, and has run no oftener. */
  predicate Spaced(t: Timer) {
    && t.nextCall == (if t.calls == [] then 0.0 else t.calls[|t.calls| - 1] + t.interval)
    && forall i :: 0 <= i < |t.calls| - 1 ==> t.calls[i] + t.interval <= t.calls[i + 1]
  }

  lemma {:induction false} TimersAreSpaced(resolution: real, intervals: seq<real>, times: seq<real>, i: nat)
    requires i < |intervals|
    ensures var c := After(resolution, intervals, times);
            c.timers[i].interval == intervals[i] && Spaced(c.timers[i])
  {
    if times != [] {
      TimersAreSpaced(resolution, intervals, times[..|times| - 1], i);
    }
  }

  /** A tick runs a timer for the first time at once, and one that has run before exactly
      when its whole interval has passed; between ticks none runs.
      So one registered without an interval, which is then the resolution, is held back
      a tick whenever two ticks are closer than that, as the delta lets them be. */
  lemma TickRunsTimerIff(resolution: real, intervals: seq<real>, times: seq<real>, now: real, i: nat)
    requires i < |intervals|
    ensures var c := After(resolution, intervals, times);
            var d := Handled(resolution, c, now);
            var calls := c.timers[i].calls;
            var due := if calls == [] then 0.0 else calls[|calls| - 1] + intervals[i];
            && (d.ticks > c.ticks ==>
                  (d.timers[i].calls == calls + [now] <==> due <= now) && (d.timers[i].calls == calls <==> now < due))
            && (d.ticks == c.ticks ==> d.timers == c.timers)
  {
    TimersAreSpaced(resolution, intervals, times, i);
  }

  /** Polled at 1, 1.48, 1.96 and 2.44 seconds, the default half-second clock ticks three
      times and runs a default timer twice. Such polls come from a dispatcher of one's own:
      the asyncio one sleeps a whole resolution between two. */
  lemma DefaultTimerMissesTick()
    ensures var c := After(0.5, [0.5], [1.0, 1.48, 1.96, 2.44]);
            c.ticks == 3 && c.timers[0].calls == [1.48, 2.44]
  {
    var times := [1.0, 1.48, 1.96, 2.44];
    assert times[..3] == [1.0, 1.48, 1.96];
    assert [1.0, 1.48, 1.96][..2] == [1.0, 1.48] && [1.0, 1.48][..1] == [1.0] && [1.0][..0] == [];
    var unrun, once, twice := Timer(0.0, 0.5, []), Timer(1.98, 0.5, [1.48]), Timer(2.94, 0.5, [1.48, 2.44]);
    assert Started([0.5]).timers == [unrun];
    assert After(0.5, [0.5], [1.0]) == Clock(0, 1.475, [unrun]);
    OneTimer(unrun, 1.48, once);
    assert After(0.5, [0.5], [1.0, 1.48]) == Clock(1, 1.955, [once]);
    OneTimer(once, 1.96, once);
    assert After(0.5, [0.5], [1.0, 1.48, 1.96]) == Clock(2, 2.435, [once]);
    OneTimer(once, 2.44, twice);
  }

  lemma OneTimer(t: Timer, now: real, next: Timer)
    requires Called(t, now) == next
    ensures AllCalled([t], now) == [next]
  {
  }

  /** The dispatcher itself. */
  class TransportDispatcher {
    const resolution: real
    var ticks: nat
    var nextTime: real
    var timers: seq<Timer>

    ghost function Now(): Clock
      reads this
    {
      Clock(ticks, nextTime, timers)
    }

    constructor (resolution: real)
      ensures Now() == Started([]) && this.resolution == resolution
    {
      this.resolution := resolution;
      ticks, nextTime, timers := 0, 0.0, [];
    }

    /** Without an interval, or with a zero one, a timer gets the resolution. */
    method RegisterTimerCbFun(tickInterval: real)
      modifies this`timers
      ensures timers == old(timers) + [Timer(0.0, if tickInterval == 0.0 then resolution else tickInterval, [])]
    {
      timers := timers + [Timer(0.0, if tickInterval == 0.0 then resolution else tickInterval, [])];
    }

    method HandleTimerTick(timeNow: real)
      modifies this
      ensures Now() == Handled(resolution, old(Now()), timeNow)
    {
      if nextTime == 0.0 {
        nextTime := timeNow + resolution - resolution * 0.05;
      }
      if nextTime >= timeNow {
        return;
      }
      ticks := ticks + 1;
      nextTime := timeNow + resolution - resolution * 0.05;
      for i := 0 to |timers|
        invariant ticks == old(ticks) + 1 && nextTime == timeNow + Period(resolution)
        invariant |timers| == |old(timers)|
        invariant forall k :: 0 <= k < |timers| ==>
                    timers[k] == if k < i then Called(old(timers)[k], timeNow) else old(timers)[k]
      {
        var t := timers[i];
        if t.nextCall <= timeNow {
          timers := timers[i := Timer(timeNow + t.interval, t.interval, t.calls + [timeNow])];
        }
      }
      assert timers == AllCalled(old(timers), timeNow);
    }
  }
}
